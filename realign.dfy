/**
 * The boundary between a file bit and the conflict next to it, as the
 * realignment of conflicts with syntax blocks moves it: lines leave the bit
 * (merge/file_bit.py) and enter every branch of the conflict
 * (merge/conflict.py). The left-only and right-only files do not change;
 * the marked-up file does, because the lines are copied into both branches.
 */
module Realignment {
  import opened Wrappers
  import opened Strings
  import opened Choices
  import opened FileBits
  import opened Conflicts

  /**
   * The bit above a conflict gives its last `n` lines to the conflict:
   * `shrink_bottom_up(n)` then `extend_top_up(chunk)`. The left and right
   * files read the same, and for a bit of whole lines each branch now starts
   * `n` lines earlier and ends where it did.
   */
  lemma ShrinkBottomUpThenExtendTopUp(bit: FileBitValue, c: ConflictValue, n: nat)
    requires 1 <= n <= LineCount(bit.text)
    ensures var r := bit.ShrunkBottomUp(n);
      var w := c.ExtendedTopUp(r.1);
      && r.0.text + w.ResultFor(Left) == bit.text + c.ResultFor(Left)
      && r.0.text + w.ResultFor(Right) == bit.text + c.ResultFor(Right)
      && r.0.lineNumber == bit.lineNumber
      && (EndsWithNewline(bit.text) ==>
            && w.Start(Left) == Some(c.lineNumLeft - n)
            && w.Start(Right) == Some(c.lineNumRight - n)
            && w.lineNumber == c.lineNumber - n
            && w.End(Left) == c.End(Left) && w.End(Right) == c.End(Right))
  {
    var r := bit.ShrunkBottomUp(n);
    assert r.0.text + (r.1 + c.left) == bit.text + c.left;
    assert r.0.text + (r.1 + c.right) == bit.text + c.right;
    if EndsWithNewline(bit.text) {
      TopUpAnchors(r.1, c, n);
    }
  }

  /** Whole lines moved into a conflict from above: it starts that many lines earlier and ends where it did. */
  lemma TopUpAnchors(chunk: string, c: ConflictValue, n: nat)
    requires EndsWithNewline(chunk) && LineCount(chunk) == n
    ensures var w := c.ExtendedTopUp(chunk);
      && w.Start(Left) == Some(c.lineNumLeft - n)
      && w.Start(Right) == Some(c.lineNumRight - n)
      && w.lineNumber == c.lineNumber - n
      && w.End(Left) == c.End(Left) && w.End(Right) == c.End(Right)
  {
    ExtendTopUpKeepsEnds(c, chunk);
  }

  /**
   * The bit below a conflict gives its first `n` lines to the conflict:
   * `shrink_top_down(n)` then `extend_bottom_down(chunk)`. The left and
   * right files read the same, the bit starts `n` lines later, the branches
   * start where they did, and a branch of whole lines ends `n` lines later.
   */
  lemma ShrinkTopDownThenExtendBottomDown(bit: FileBitValue, c: ConflictValue, n: nat)
    requires 1 <= n <= LineCount(bit.text)
    ensures var (b, chunk) := bit.ShrunkTopDown(n);
      var w := c.ExtendedBottomDown(chunk);
      && w.ResultFor(Left) + b.text == c.ResultFor(Left) + bit.text
      && w.ResultFor(Right) + b.text == c.ResultFor(Right) + bit.text
      && b.lineNumber == bit.lineNumber + n
      && w.Start(Left) == c.Start(Left) && w.Start(Right) == c.Start(Right)
      && ((c.left == "" || EndsWithNewline(c.left)) ==> w.End(Left) == Some(c.lineNumLeft + LineCount(c.left) + n))
      && ((c.right == "" || EndsWithNewline(c.right)) ==> w.End(Right) == Some(c.lineNumRight + LineCount(c.right) + n))
  {
    var (b, chunk) := bit.ShrunkTopDown(n);
    assert c.left + chunk + b.text == c.left + bit.text;
    assert c.right + chunk + b.text == c.right + bit.text;
    assert LineCount(chunk) == n by {
      assert |Lines(chunk)| == |Lines(bit.text)[..n]|;
    }
    ExtendBottomDownKeepsStarts(c, chunk);
    BottomDownEnds(c, chunk, n);
  }

  /** Whole lines moved into a conflict from below: a branch of whole lines ends that many lines later. */
  lemma BottomDownEnds(c: ConflictValue, chunk: string, n: nat)
    requires LineCount(chunk) == n
    ensures var w := c.ExtendedBottomDown(chunk);
      && ((c.left == "" || EndsWithNewline(c.left)) ==> w.End(Left) == Some(c.lineNumLeft + LineCount(c.left) + n))
      && ((c.right == "" || EndsWithNewline(c.right)) ==> w.End(Right) == Some(c.lineNumRight + LineCount(c.right) + n))
  {
    ExtendBottomDownKeepsStarts(c, chunk);
  }

  /**
   * The moved lines are copied into every branch, so the marked-up text of
   * an undecided conflict changes: here one line moves from the bit above
   * into a two-way conflict, and the bit followed by the conflict's text
   * differs from before.
   */
  lemma MarkedUpTextChanges()
    ensures var bit := FileBitValue(1, "x\n");
      var c := ConflictValue(TwoWay, 2, 2, 2, "l\n", "NOSTR", "r\n", "<<<<<<<\n", "", "=======\n", ">>>>>>>\n", Undecided);
      var (b, chunk) := bit.ShrunkBottomUp(1);
      b.text + c.ExtendedTopUp(chunk).Result() != bit.text + c.Result()
  {
    var bit := FileBitValue(1, "x\n");
    var c := ConflictValue(TwoWay, 2, 2, 2, "l\n", "NOSTR", "r\n", "<<<<<<<\n", "", "=======\n", ">>>>>>>\n", Undecided);
    var (b, chunk) := bit.ShrunkBottomUp(1);
    assert b.text + chunk == "x\n";
    assert |b.text + c.ExtendedTopUp(chunk).Result()| == |bit.text + c.Result()| + |chunk|;
    assert |chunk| > 0 by {
      assert Lines(chunk) == Lines(bit.text)[LineCount(bit.text) - 1..];
    }
  }
}
