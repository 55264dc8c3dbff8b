/**
 * The older conflict (merge/Conflict.py): left and right text between three
 * separator lines, resolved by storing a snapshot of the chosen text.
 */
module LegacyConflicts {
  import opened Wrappers

  /** The default separators. */
  const DefaultSep1: string := "<<<\n"
  const DefaultSep2: string := "===\n"
  const DefaultSep3: string := ">>>\n"

  /** Which snapshot `select_left`, `select_right` or `select_both` stores. */
  datatype Pick = PickLeft | PickRight | PickBoth

  /** The state of an old `Conflict`; `selection` is `_select`, `None` until a select. */
  datatype LegacyConflictValue = LegacyConflictValue(
    lineNumber: int, left: string, right: string,
    sep1: string, sep2: string, sep3: string,
    selection: Option<string>)
  {
    /** The region as it stands in the conflicted file. */
    function MarkedUp(): string
    {
      sep1 + left + sep2 + right + sep3
    }

    /** `is_resolved`: a snapshot has been stored. */
    predicate IsResolved()
    {
      selection.Some?
    }

    /** The text a select copies: the left text, the right text, or both. */
    function Picked(p: Pick): string
    {
      match p
      case PickLeft => left
      case PickRight => right
      case PickBoth => left + right
    }

    /** The state after `select_left`, `select_right` or `select_both`: a copy of the text as it is now. */
    function Selected(p: Pick): (w: LegacyConflictValue)
      ensures w.IsResolved() && w.selection.value == Picked(p)
      ensures w.(selection := selection) == this
    {
      this.(selection := Some(Picked(p)))
    }

    /** `result()` as written: the snapshot when it is a non-empty string, the marked-up region otherwise. */
    function Result(): string
    {
      if selection.Some? && selection.value != "" then selection.value else MarkedUp()
    }

    /** `result()` as intended: the snapshot whenever one is stored, even an empty one. */
    function ResultIntended(): string
    {
      if selection.Some? then selection.value else MarkedUp()
    }
  }

  /** `Conflict(line_number, left, right)` with the default separators: nothing selected. */
  function NewConflict(lineNumber: int, left: string, right: string): LegacyConflictValue
  {
    LegacyConflictValue(lineNumber, left, right, DefaultSep1, DefaultSep2, DefaultSep3, None)
  }

  /** A new conflict is unresolved and its result is the marked-up region with the default separators. */
  lemma NewConflictUnresolved(lineNumber: int, left: string, right: string)
    ensures !NewConflict(lineNumber, left, right).IsResolved()
    ensures NewConflict(lineNumber, left, right).Result() == "<<<\n" + left + "===\n" + right + ">>>\n"
  {
  }

  /**
   * A select with a non-empty snapshot: the result is the left text, the
   * right text, or both, and later edits of `left` and `right` do not
   * change it.
   */
  lemma SelectedResult(v: LegacyConflictValue, p: Pick, left: string, right: string)
    ensures var w := v.Selected(p);
      && w.selection.value == (match p case PickLeft => v.left case PickRight => v.right case PickBoth => v.left + v.right)
      && w.Selected(p) == w
      && (w.selection.value != "" ==> w.Result() == w.selection.value)
      && (w.selection.value != "" ==> w.(left := left, right := right).Result() == w.Result())
  {
  }

  /**
   * An empty snapshot, as `select_left` stores when the left text is empty:
   * the conflict counts as resolved, yet `result()` still gives the
   * marked-up region and not the empty text that was chosen.
   */
  lemma EmptySelectionShowsMarkers(v: LegacyConflictValue)
    requires v.left == ""
    ensures v.Selected(PickLeft).IsResolved()
    ensures v.Selected(PickLeft).Result() == v.sep1 + v.sep2 + v.right + v.sep3
    ensures v.sep1 != "" ==> v.Selected(PickLeft).Result() != v.left
  {
    assert v.sep1 + "" + v.sep2 + v.right + v.sep3 == v.sep1 + v.sep2 + v.right + v.sep3;
  }

  /**
   * The intended result: after any select it is the chosen text, empty or
   * not, and it ignores later edits; with nothing selected it is the
   * marked-up region, like the written one.
   */
  lemma IntendedResultIsSelection(v: LegacyConflictValue, p: Pick, left: string, right: string)
    ensures v.Selected(p).ResultIntended() == v.Selected(p).selection.value
    ensures v.Selected(p).(left := left, right := right).ResultIntended() == v.Selected(p).ResultIntended()
    ensures v.selection.None? ==> v.ResultIntended() == v.Result() == v.MarkedUp()
    ensures v.selection.Some? && v.selection.value != "" ==> v.ResultIntended() == v.Result()
  {
  }

  class LegacyConflict {
    var lineNumber: int
    var left: string
    var right: string
    var sep1: string
    var sep2: string
    var sep3: string
    var selection: Option<string>

    function Value(): LegacyConflictValue
      reads this
    {
      LegacyConflictValue(lineNumber, left, right, sep1, sep2, sep3, selection)
    }

    /** `Conflict(line_number, left, right)`, separators defaulted. */
    constructor(lineNumber: int, left: string, right: string)
      ensures Value() == NewConflict(lineNumber, left, right)
    {
      this.lineNumber, this.left, this.right := lineNumber, left, right;
      this.sep1, this.sep2, this.sep3 := DefaultSep1, DefaultSep2, DefaultSep3;
      this.selection := None;
    }

    /** `Conflict(line_number, left, right, sep1, sep2, sep3)` */
    constructor WithSeparators(lineNumber: int, left: string, right: string, sep1: string, sep2: string, sep3: string)
      ensures Value() == LegacyConflictValue(lineNumber, left, right, sep1, sep2, sep3, None)
    {
      this.lineNumber, this.left, this.right := lineNumber, left, right;
      this.sep1, this.sep2, this.sep3 := sep1, sep2, sep3;
      this.selection := None;
    }

    /** `is_resolved` */
    predicate IsResolved()
      reads this
    {
      Value().IsResolved()
    }

    /** `select_left` */
    method SelectLeft()
      modifies this
      ensures Value() == old(Value()).Selected(PickLeft)
    {
      selection := Some(left);
    }

    /** `select_right` */
    method SelectRight()
      modifies this
      ensures Value() == old(Value()).Selected(PickRight)
    {
      selection := Some(right);
    }

    /** `select_both` */
    method SelectBoth()
      modifies this
      ensures Value() == old(Value()).Selected(PickBoth)
    {
      selection := Some(left + right);
    }

    /** `result()` */
    method Result() returns (r: string)
      ensures r == Value().Result()
    {
      if selection.Some? && selection.value != "" {
        r := selection.value;
      } else {
        r := sep1 + left + sep2 + right + sep3;
      }
    }
  }
}
