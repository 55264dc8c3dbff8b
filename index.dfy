/**
 * A cyclic cursor over a list of values with deletion (ui/index.py): the
 * values stay as they are, a list of the positions not yet deleted shrinks,
 * and the cursor points into that list.
 */
module Indexes {
  import opened Wrappers

  /** `list(range(n))` */
  function Range(n: nat): (r: seq<int>)
    ensures |r| == n && forall i :: 0 <= i < n ==> r[i] == i
  {
    seq(n, i => i)
  }

  /** The cursor state of an `Index`: `_index` and `_left_indices`. */
  datatype Cursor = Cursor(index: int, left: seq<int>)
  {
    /** `size_left` */
    function SizeLeft(): nat
    {
      |left|
    }

    /** `is_empty` */
    predicate IsEmpty()
    {
      SizeLeft() == 0
    }

    /**
     * The invariant over `n` values: the cursor is inside the positions left
     * (0 when none are left), and those are strictly increasing positions of
     * the values.
     */
    predicate Valid(n: nat)
    {
      && (if IsEmpty() then index == 0 else 0 <= index < SizeLeft())
      && (forall i, j :: 0 <= i < j < |left| ==> left[i] < left[j])
      && (forall i :: 0 <= i < |left| ==> 0 <= left[i] < n)
    }

    /** `next`: one step forward, wrapping to the first position left; nothing when empty. */
    function Next(): (w: Cursor)
      ensures w.left == left
      ensures IsEmpty() ==> w == this
      ensures !IsEmpty() && 0 <= index < SizeLeft() - 1 ==> w.index == index + 1
      ensures !IsEmpty() && index == SizeLeft() - 1 ==> w.index == 0
    {
      if IsEmpty() then this else this.(index := (index + 1) % SizeLeft())
    }

    /** `prev`: one step back, wrapping to the last position left; nothing when empty. */
    function Prev(): (w: Cursor)
      ensures w.left == left
      ensures IsEmpty() ==> w == this
      ensures !IsEmpty() && 0 < index < SizeLeft() ==> w.index == index - 1
      ensures !IsEmpty() && index == 0 ==> w.index == SizeLeft() - 1
    {
      if IsEmpty() then this else this.(index := (index - 1) % SizeLeft())
    }

    /** `delete`: `None` when empty (the source raises); otherwise the current position is removed. */
    function Delete(): (w: Option<Cursor>)
      requires IsEmpty() || 0 <= index < SizeLeft()
      ensures w.None? <==> IsEmpty()
      ensures w.Some? ==>
        && w.value.left == left[..index] + left[index + 1..]
        && w.value.SizeLeft() == SizeLeft() - 1
        && w.value.index == (if index < SizeLeft() - 1 then index else 0)
    {
      if IsEmpty() then None
      else
        var rest := left[..index] + left[index + 1..];
        Some(Cursor(if |rest| != 0 then index % |rest| else 0, rest))
    }
  }

  /** A new `Index` over `n` values: the cursor at 0 and every position left. */
  function Fresh(n: nat): (c: Cursor)
    ensures c.Valid(n) && c.index == 0 && c.SizeLeft() == n
  {
    Cursor(0, Range(n))
  }

  /** `next` and `prev` keep the invariant and undo each other. */
  lemma NextPrevInverse(c: Cursor, n: nat)
    requires c.Valid(n)
    ensures c.Next().Valid(n) && c.Prev().Valid(n)
    ensures c.Next().Prev() == c && c.Prev().Next() == c
  {
  }

  /** Removing position `i` of `s` keeps the others in order: element `a` of the rest is element `a` or `a + 1` of `s`. */
  lemma RemovedAt(s: seq<int>, i: nat, a: nat)
    requires i < |s| && a < |s| - 1
    ensures (s[..i] + s[i + 1..])[a] == s[if a < i then a else a + 1]
  {
  }

  /** `delete` keeps the invariant. */
  lemma DeleteValid(c: Cursor, n: nat)
    requires c.Valid(n) && !c.IsEmpty()
    ensures c.Delete().value.Valid(n)
  {
    var w := c.Delete().value;
    forall a, b | 0 <= a < b < |w.left| ensures w.left[a] < w.left[b] {
      RemovedAt(c.left, c.index, a);
      RemovedAt(c.left, c.index, b);
    }
    forall a | 0 <= a < |w.left| ensures 0 <= w.left[a] < n {
      RemovedAt(c.left, c.index, a);
    }
  }

  /** `delete` removes exactly the current position: the others stay, in order, and it is gone. */
  lemma DeleteRemovesCurrent(c: Cursor, n: nat)
    requires c.Valid(n) && !c.IsEmpty()
    ensures var w := c.Delete().value;
      && multiset(w.left) + multiset{c.left[c.index]} == multiset(c.left)
      && c.left[c.index] !in w.left
  {
    var w := c.Delete().value;
    var i := c.index;
    assert c.left == c.left[..i] + [c.left[i]] + c.left[i + 1..];
    forall a | 0 <= a < |w.left| ensures w.left[a] != c.left[i] {
      RemovedAt(c.left, i, a);
    }
  }

  /**
   * After `delete` the cursor is on the position that followed the deleted
   * one, or on the first when the deleted one was the last.
   */
  lemma DeleteMovesToFollower(c: Cursor, n: nat)
    requires c.Valid(n) && !c.IsEmpty()
    ensures var w := c.Delete().value;
      && (c.index < w.SizeLeft() ==> w.index == c.index && w.left[w.index] == c.left[c.index + 1])
      && (c.index == w.SizeLeft() && !w.IsEmpty() ==> w.index == 0 && w.left[w.index] == c.left[0])
      && (w.IsEmpty() ==> w.index == 0)
  {
    var w := c.Delete().value;
    if c.index < w.SizeLeft() {
      RemovedAt(c.left, c.index, c.index);
    } else if !w.IsEmpty() {
      RemovedAt(c.left, c.index, 0);
    }
  }

  /** The value under the cursor: `None` when nothing is left (the source raises). */
  function Current<T>(values: seq<T>, c: Cursor): (r: Option<T>)
    requires c.Valid(|values|)
    ensures r.None? <==> c.IsEmpty()
    ensures r.Some? ==> r.value in values
  {
    if c.IsEmpty() then None else Some(values[c.left[c.index]])
  }

  /** `Index`: `values` is never changed; `next`, `prev` and `delete` move the cursor. */
  class Index<T> {
    const values: seq<T>
    var index: int
    var leftIndices: seq<int>

    function Value(): Cursor
      reads this
    {
      Cursor(index, leftIndices)
    }

    predicate Valid()
      reads this
    {
      Value().Valid(|values|)
    }

    /** `Index(values)` */
    constructor(values: seq<T>)
      ensures this.values == values
      ensures Value() == Fresh(|values|) && Valid()
    {
      this.values := values;
      index := 0;
      leftIndices := Range(|values|);
    }

    /** `size_left` */
    function SizeLeft(): (r: nat)
      reads this
      ensures r == Value().SizeLeft()
    {
      |leftIndices|
    }

    /** `is_empty` */
    predicate IsEmpty()
      reads this
      ensures IsEmpty() <==> SizeLeft() == 0
    {
      SizeLeft() == 0
    }

    /** `next` */
    method Next()
      requires Valid()
      modifies this
      ensures Value() == old(Value()).Next() && Valid()
    {
      if !IsEmpty() {
        index := index + 1;
        index := index % SizeLeft();
      }
      NextPrevInverse(old(Value()), |values|);
    }

    /** `prev` */
    method Prev()
      requires Valid()
      modifies this
      ensures Value() == old(Value()).Prev() && Valid()
    {
      if !IsEmpty() {
        index := index - 1;
        index := index % SizeLeft();
      }
      NextPrevInverse(old(Value()), |values|);
    }

    /** `value`: `None` when the index is empty, else the value at the current position left. */
    method CurrentValue() returns (r: Option<T>)
      requires Valid()
      ensures r.None? <==> IsEmpty()
      ensures r.Some? ==> r.value == values[leftIndices[index]]
      ensures r == Current(values, Value())
    {
      if IsEmpty() {
        return None;
      }
      r := Some(values[leftIndices[index]]);
    }

    /**
     * `delete`: `false` and no change when the index is empty (the source
     * raises); otherwise the current position is popped and the cursor wraps.
     */
    method Delete() returns (deleted: bool)
      requires Valid()
      modifies this
      ensures deleted <==> !old(IsEmpty())
      ensures deleted ==> Value() == old(Value()).Delete().value
      ensures !deleted ==> Value() == old(Value())
      ensures Valid()
    {
      if IsEmpty() {
        return false;
      }
      ghost var before := Value();
      leftIndices := leftIndices[..index] + leftIndices[index + 1..];
      if !IsEmpty() {
        index := index % SizeLeft();
      } else {
        index := 0;
      }
      DeleteValid(before, |values|);
      deleted := true;
    }
  }
}
