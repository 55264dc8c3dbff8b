/**
 * The older conflicted file (merge/FileMerge.py): bits and old-style
 * conflicts in turn, and its three-state parser on three-character markers.
 * Its bits are the `FileBit` records of merge/file_bit.py.
 */
module LegacyFileMerges {
  import opened Wrappers
  import opened Strings
  import opened FileBits
  import opened LegacyConflicts
  import opened FileMerges

  /** The results of some old conflicts, in order. */
  function LegacyTexts(cs: seq<LegacyConflictValue>): seq<string>
  {
    seq(|cs|, k requires 0 <= k < |cs| => cs[k].Result())
  }

  lemma LegacyTextsSnoc(cs: seq<LegacyConflictValue>, c: LegacyConflictValue)
    ensures LegacyTexts(cs + [c]) == LegacyTexts(cs) + [c.Result()]
  {
    assert forall k :: 0 <= k < |cs| + 1 ==> LegacyTexts(cs + [c])[k] == (LegacyTexts(cs) + [c.Result()])[k];
  }

  /** The state of an old `FileMerge`. */
  datatype LegacyFileMergeValue = LegacyFileMergeValue(path: string, bits: seq<FileBitValue>, conflicts: seq<LegacyConflictValue>)
  {
    /** The shapes `result()` can walk. */
    predicate Alternating()
    {
      |conflicts| <= |bits| <= |conflicts| + 1
    }

    /** `result()`: bit 0, conflict 0's result, bit 1, ... */
    function Text(): string
      requires Alternating()
    {
      Composed(BitTexts(bits), LegacyTexts(conflicts))
    }

    /** `is_resolved`: every conflict has a stored snapshot. */
    predicate IsResolved()
    {
      forall k :: 0 <= k < |conflicts| ==> conflicts[k].IsResolved()
    }

    /** The state after `select_all_left`, `select_all_right` or `select_all_both`. */
    function SelectedAll(p: Pick): LegacyFileMergeValue
    {
      this.(conflicts := seq(|conflicts|, k requires 0 <= k < |conflicts| => conflicts[k].Selected(p)))
    }
  }

  /**
   * After `select_all_*` the merge is resolved, and when no chosen text is
   * empty its result is the bits with each conflict's chosen text between
   * them.
   */
  lemma SelectAllResolvesLegacy(v: LegacyFileMergeValue, p: Pick)
    requires v.Alternating()
    ensures v.SelectedAll(p).Alternating() && v.SelectedAll(p).IsResolved()
    ensures v.SelectedAll(p).bits == v.bits
    ensures (forall k :: 0 <= k < |v.conflicts| ==> v.conflicts[k].Picked(p) != "") ==>
      v.SelectedAll(p).Text() == Composed(BitTexts(v.bits), seq(|v.conflicts|, k requires 0 <= k < |v.conflicts| => v.conflicts[k].Picked(p)))
  {
    var w := v.SelectedAll(p);
    if forall k :: 0 <= k < |v.conflicts| ==> v.conflicts[k].Picked(p) != "" {
      assert LegacyTexts(w.conflicts) == seq(|v.conflicts|, k requires 0 <= k < |v.conflicts| => v.conflicts[k].Picked(p));
    }
  }

  /** The values of some old conflict objects, in order. */
  function LegacyValues(cs: seq<LegacyConflict>): seq<LegacyConflictValue>
    reads cs
  {
    seq(|cs|, k requires 0 <= k < |cs| reads cs => cs[k].Value())
  }

  /** The old conflicts of `cs` with no snapshot, in order. */
  function LegacyUnresolved(cs: seq<LegacyConflict>): (r: seq<LegacyConflict>)
    reads cs
    ensures forall k :: 0 <= k < |r| ==> r[k] in cs && !r[k].IsResolved()
    ensures r == [] <==> forall k :: 0 <= k < |cs| ==> cs[k].IsResolved()
  {
    if cs == [] then []
    else (if cs[0].IsResolved() then [] else [cs[0]]) + LegacyUnresolved(cs[1..])
  }

  class LegacyFileMerge {
    const path: string
    const fileBits: seq<FileBit>
    const conflicts: seq<LegacyConflict>

    constructor(path: string, fileBits: seq<FileBit>, conflicts: seq<LegacyConflict>)
      ensures this.path == path && this.fileBits == fileBits && this.conflicts == conflicts
    {
      this.path := path;
      this.fileBits := fileBits;
      this.conflicts := conflicts;
    }

    function Value(): LegacyFileMergeValue
      reads fileBits, conflicts
    {
      LegacyFileMergeValue(path, BitValues(fileBits), LegacyValues(conflicts))
    }

    /** `is_resolved`: no conflict is left without a snapshot. */
    predicate IsResolved()
      reads conflicts
      ensures IsResolved() <==> forall k :: 0 <= k < |conflicts| ==> conflicts[k].selection.Some?
    {
      |LegacyUnresolved(conflicts)| == 0
    }

    /** The loop the three `select_all_*` share: the matching select on every conflict. */
    method SelectAll(p: Pick)
      modifies conflicts
      ensures Value() == old(Value()).SelectedAll(p)
    {
      for k := 0 to |conflicts|
        invariant forall j :: 0 <= j < k ==> conflicts[j].Value() == old(conflicts[j].Value()).Selected(p)
        invariant forall j :: 0 <= j < |conflicts| ==>
          conflicts[j].Value() == old(conflicts[j].Value()) || conflicts[j].Value() == old(conflicts[j].Value()).Selected(p)
      {
        match p
        case PickLeft => conflicts[k].SelectLeft();
        case PickRight => conflicts[k].SelectRight();
        case PickBoth => conflicts[k].SelectBoth();
      }
    }

    /** `select_all_left` */
    method SelectAllLeft()
      modifies conflicts
      ensures Value() == old(Value()).SelectedAll(PickLeft)
    {
      SelectAll(PickLeft);
    }

    /** `select_all_right` */
    method SelectAllRight()
      modifies conflicts
      ensures Value() == old(Value()).SelectedAll(PickRight)
    {
      SelectAll(PickRight);
    }

    /** `select_all_both` */
    method SelectAllBoth()
      modifies conflicts
      ensures Value() == old(Value()).SelectedAll(PickBoth)
    {
      SelectAll(PickBoth);
    }

    /** `result()`: pops a bit on even steps and a conflict's result on odd steps. */
    method Result() returns (r: string)
      requires |conflicts| <= |fileBits| <= |conflicts| + 1
      ensures r == Value().Text()
    {
      var bits := fileBits;
      var cs := conflicts;
      ghost var bt := BitTexts(BitValues(fileBits));
      ghost var ct := LegacyTexts(LegacyValues(conflicts));
      ghost var nb, nc := 0, 0;
      r := "";
      for i := 0 to |fileBits| + |conflicts|
        invariant nb <= |fileBits| && nc <= |conflicts| && i == nb + nc
        invariant nb == nc || nb == nc + 1
        invariant bits == fileBits[nb..] && cs == conflicts[nc..]
        invariant r == Composed(bt[..nb], ct[..nc])
      {
        PiecesParity(nb, nc);
        if i % 2 == 0 {
          assert r + bits[0].text == Composed(bt[..nb + 1], ct[..nc]) by {
            ComposedPrefixBit(bt, ct, nb, nc);
            assert bits[0] == fileBits[nb];
          }
          r := r + bits[0].text;
          bits := bits[1..];
          nb := nb + 1;
        } else {
          var t := cs[0].Result();
          assert r + t == Composed(bt[..nb], ct[..nc + 1]) by {
            ComposedPrefixConflict(bt, ct, nb, nc);
            assert cs[0] == conflicts[nc];
          }
          r := r + t;
          cs := cs[1..];
          nc := nc + 1;
        }
      }
      assert bt[..nb] == bt && ct[..nc] == ct;
    }

    /** `parse`, over the lines `readlines()` returns. */
    static method Parse(path: string, lines: seq<string>) returns (fm: LegacyFileMerge)
      ensures fresh(fm)
      ensures fm.Value() == LegacyParsed(path, lines)
    {
      var fileBits: seq<FileBit> := [];
      var conflicts: seq<LegacyConflict> := [];
      var state := LText;
      var fileBit := new FileBit(0, "");
      var conflict := new LegacyConflict(-1, "", "");
      for index := 0 to |lines|
        invariant fresh(fileBit) && fresh(conflict)
        invariant fileBit !in fileBits && conflict !in conflicts
        invariant LegacyRun(lines[..index])
          == LegacyScan(state, index, fileBit.Value(), conflict.Value(), BitValues(fileBits), LegacyValues(conflicts))
      {
        LegacyRunNext(lines, index);
        if state == LText {
          state, fileBits, fileBit := ReadInText(index, lines[index], fileBits, fileBit, conflicts, conflict);
        } else if state == LLeft {
          state := ReadInLeft(index, lines[index], fileBits, fileBit, conflicts, conflict);
        } else {
          state, conflicts, conflict := ReadInRight(index, lines[index], fileBits, fileBit, conflicts, conflict);
        }
      }
      assert lines[..|lines|] == lines;
      fileBits := fileBits + [fileBit];
      fm := new LegacyFileMerge(path, fileBits, conflicts);
    }

    /** One line read in the text state: `<<<` closes the bit and opens the conflict, anything else joins the bit. */
    static method ReadInText(index: nat, line: string, fileBits: seq<FileBit>, fileBit: FileBit,
                             conflicts: seq<LegacyConflict>, conflict: LegacyConflict)
      returns (state': LegacyState, fileBits': seq<FileBit>, fileBit': FileBit)
      requires fileBit !in fileBits && conflict !in conflicts
      modifies fileBit, conflict
      ensures fileBit' !in fileBits' && (fileBit' == fileBit || fresh(fileBit'))
      ensures LegacyScan(state', index + 1, fileBit'.Value(), conflict.Value(), BitValues(fileBits'), LegacyValues(conflicts))
        == LegacyStep(LegacyScan(LText, index, old(fileBit.Value()), old(conflict.Value()),
                                 old(BitValues(fileBits)), old(LegacyValues(conflicts))), line)
    {
      if Slice(line, 3) == OpenMarker {
        state' := LLeft;
        fileBits' := fileBits + [fileBit];
        fileBit' := new FileBit(0, "");
        conflict.lineNumber := index;
        conflict.sep1 := line;
        assert BitValues(fileBits') == old(BitValues(fileBits)) + [old(fileBit.Value())];
      } else {
        state', fileBits', fileBit' := LText, fileBits, fileBit;
        fileBit.text := fileBit.text + line;
      }
      assert LegacyValues(conflicts) == old(LegacyValues(conflicts));
    }

    /** One line read in the left state: `===` switches to the right text, anything else joins the left text. */
    static method ReadInLeft(index: nat, line: string, fileBits: seq<FileBit>, fileBit: FileBit,
                             conflicts: seq<LegacyConflict>, conflict: LegacyConflict)
      returns (state': LegacyState)
      requires conflict !in conflicts
      modifies conflict
      ensures LegacyScan(state', index + 1, fileBit.Value(), conflict.Value(), BitValues(fileBits), LegacyValues(conflicts))
        == LegacyStep(LegacyScan(LLeft, index, old(fileBit.Value()), old(conflict.Value()),
                                 old(BitValues(fileBits)), old(LegacyValues(conflicts))), line)
    {
      if Slice(line, 3) == SplitMarker {
        state' := LRight;
        conflict.sep2 := line;
      } else {
        state' := LLeft;
        conflict.left := conflict.left + line;
      }
      assert LegacyValues(conflicts) == old(LegacyValues(conflicts));
    }

    /** One line read in the right state: `>>>` closes the conflict and starts the next bit, anything else joins the right text. */
    static method ReadInRight(index: nat, line: string, fileBits: seq<FileBit>, fileBit: FileBit,
                              conflicts: seq<LegacyConflict>, conflict: LegacyConflict)
      returns (state': LegacyState, conflicts': seq<LegacyConflict>, conflict': LegacyConflict)
      requires fileBit !in fileBits && conflict !in conflicts
      modifies fileBit, conflict
      ensures conflict' !in conflicts' && (conflict' == conflict || fresh(conflict'))
      ensures LegacyScan(state', index + 1, fileBit.Value(), conflict'.Value(), BitValues(fileBits), LegacyValues(conflicts'))
        == LegacyStep(LegacyScan(LRight, index, old(fileBit.Value()), old(conflict.Value()),
                                 old(BitValues(fileBits)), old(LegacyValues(conflicts))), line)
    {
      if Slice(line, 3) == CloseMarker {
        state' := LText;
        conflict.sep3 := line;
        conflicts' := conflicts + [conflict];
        conflict' := new LegacyConflict(-1, "", "");
        fileBit.lineNumber := index + 1;
        assert LegacyValues(conflicts') == old(LegacyValues(conflicts)) + [conflict.Value()];
      } else {
        state', conflicts', conflict' := LRight, conflicts, conflict;
        conflict.right := conflict.right + line;
        assert LegacyValues(conflicts') == old(LegacyValues(conflicts));
      }
      assert BitValues(fileBits) == old(BitValues(fileBits));
    }
  }

  /** The three-character markers. */
  const OpenMarker: string := "<<<"
  const SplitMarker: string := "==="
  const CloseMarker: string := ">>>"

  /** The three states of the old line classifier. */
  datatype LegacyState = LText | LLeft | LRight

  /**
   * What the old classifier holds after some lines: its state, the number of
   * lines read, the bit and the conflict being collected, and the bits and
   * conflicts closed so far.
   */
  datatype LegacyScan = LegacyScan(state: LegacyState, index: nat, bit: FileBitValue, conflict: LegacyConflictValue,
                                   bits: seq<FileBitValue>, conflicts: seq<LegacyConflictValue>)

  const LegacyInitial: LegacyScan := LegacyScan(LText, 0, FileBitValue(0, ""), NewConflict(-1, "", ""), [], [])

  /** One line of the old `parse`, routed on its first three characters. */
  function LegacyStep(s: LegacyScan, line: string): LegacyScan
  {
    var switch := Slice(line, 3);
    var next := s.(index := s.index + 1);
    match s.state
    case LText =>
      if switch == OpenMarker then
        next.(state := LLeft, bits := s.bits + [s.bit], bit := FileBitValue(0, ""),
              conflict := s.conflict.(lineNumber := s.index, sep1 := line))
      else next.(bit := s.bit.(text := s.bit.text + line))
    case LLeft =>
      if switch == SplitMarker then next.(state := LRight, conflict := s.conflict.(sep2 := line))
      else next.(conflict := s.conflict.(left := s.conflict.left + line))
    case LRight =>
      if switch == CloseMarker then
        next.(state := LText, conflicts := s.conflicts + [s.conflict.(sep3 := line)],
              conflict := NewConflict(-1, "", ""), bit := s.bit.(lineNumber := s.index + 1))
      else next.(conflict := s.conflict.(right := s.conflict.right + line))
  }

  /** The old classifier after reading `lines`. */
  function LegacyRun(lines: seq<string>): LegacyScan
  {
    if lines == [] then LegacyInitial else LegacyStep(LegacyRun(lines[..|lines| - 1]), lines[|lines| - 1])
  }

  lemma LegacyRunNext(lines: seq<string>, index: nat)
    requires index < |lines|
    ensures LegacyRun(lines[..index + 1]) == LegacyStep(LegacyRun(lines[..index]), lines[index])
  {
    assert lines[..index + 1][..index] == lines[..index];
  }

  /** The result of the old `parse`: the bit being collected is appended whatever the state. */
  function LegacyParsed(path: string, lines: seq<string>): LegacyFileMergeValue
  {
    var s := LegacyRun(lines);
    LegacyFileMergeValue(path, s.bits + [s.bit], s.conflicts)
  }

  /** The part of the input held in the current state and not yet closed. */
  function LegacyPending(s: LegacyScan): string
  {
    match s.state
    case LText => s.bit.text
    case LLeft => s.conflict.sep1 + s.conflict.left
    case LRight => s.conflict.sep1 + s.conflict.left + s.conflict.sep2 + s.conflict.right
  }

  /** The closed bits and conflicts, in turn. */
  function LegacyClosed(s: LegacyScan): string
  {
    Composed(BitTexts(s.bits), LegacyTexts(s.conflicts))
  }

  /** The lengths and the unselected, partly empty conflict the old classifier keeps. */
  ghost predicate LegacyShaped(s: LegacyScan)
  {
    && (s.state == LText ==> |s.bits| == |s.conflicts| && s.conflict.left == "")
    && (s.state != LText ==> |s.bits| == |s.conflicts| + 1 && s.bit.text == "")
    && (s.state != LRight ==> s.conflict.right == "")
    && s.conflict.selection.None?
    && (forall k :: 0 <= k < |s.conflicts| ==> s.conflicts[k].selection.None?)
  }

  lemma LegacyStepRenders(s: LegacyScan, line: string)
    requires LegacyShaped(s)
    ensures LegacyShaped(LegacyStep(s, line))
    ensures LegacyClosed(LegacyStep(s, line)) + LegacyPending(LegacyStep(s, line)) == LegacyClosed(s) + LegacyPending(s) + line
  {
    var t := LegacyStep(s, line);
    var switch := Slice(line, 3);
    match s.state
    case LText =>
      if switch == OpenMarker {
        BitTextsSnoc(s.bits, s.bit);
        ComposedSnocBit(BitTexts(s.bits), LegacyTexts(s.conflicts), s.bit.text);
        assert LegacyPending(t) == line + "";
      }
    case LLeft =>
    case LRight =>
      if switch == CloseMarker {
        var c := s.conflict.(sep3 := line);
        assert c.Result() == LegacyPending(s) + line;
        LegacyTextsSnoc(s.conflicts, c);
        ComposedSnocConflict(BitTexts(s.bits), LegacyTexts(s.conflicts), c.Result());
        assert forall k :: 0 <= k < |t.conflicts| ==> t.conflicts[k] == if k < |s.conflicts| then s.conflicts[k] else c;
      }
  }

  /** Everything read is either closed or pending. */
  lemma {:induction false} LegacyRunRenders(lines: seq<string>)
    ensures LegacyShaped(LegacyRun(lines)) && LegacyRun(lines).index == |lines|
    ensures LegacyClosed(LegacyRun(lines)) + LegacyPending(LegacyRun(lines)) == Join(lines)
  {
    if lines != [] {
      var init, line := lines[..|lines| - 1], lines[|lines| - 1];
      var s, t := LegacyRun(init), LegacyRun(lines);
      assert t == LegacyStep(s, line);
      LegacyRunRenders(init);
      assert LegacyShaped(t) && LegacyClosed(t) + LegacyPending(t) == LegacyClosed(s) + LegacyPending(s) + line by {
        LegacyStepRenders(s, line);
      }
      assert t.index == s.index + 1;
      assert Join(lines) == Join(init) + line by {
        assert lines == init + [line];
        JoinSnoc(init, line);
      }
    }
  }

  /**
   * The round trip of the old `parse` followed by `result()`: for an input
   * that ends outside a conflict, there is one more bit than conflicts, no
   * conflict is resolved, and the text is the input.
   */
  lemma LegacyParseRoundTrip(path: string, lines: seq<string>)
    requires LegacyRun(lines).state == LText
    ensures |LegacyParsed(path, lines).bits| == |LegacyParsed(path, lines).conflicts| + 1
    ensures forall k :: 0 <= k < |LegacyParsed(path, lines).conflicts| ==> LegacyParsed(path, lines).conflicts[k].selection.None?
    ensures !LegacyParsed(path, lines).IsResolved() <==> LegacyParsed(path, lines).conflicts != []
    ensures LegacyParsed(path, lines).Text() == Join(lines)
  {
    LegacyParsedRendersInput(path, lines);
    LegacyParsedUnselected(path, lines);
  }

  /** A parse that ends outside a conflict has one more bit than conflicts, and its text is the input. */
  lemma LegacyParsedRendersInput(path: string, lines: seq<string>)
    requires LegacyRun(lines).state == LText
    ensures |LegacyParsed(path, lines).bits| == |LegacyParsed(path, lines).conflicts| + 1
    ensures LegacyParsed(path, lines).Text() == Join(lines)
  {
    var s := LegacyRun(lines);
    LegacyRunRenders(lines);
    BitTextsSnoc(s.bits, s.bit);
    ComposedSnocBit(BitTexts(s.bits), LegacyTexts(s.conflicts), s.bit.text);
  }

  /** No parsed conflict has a snapshot, so the parse is resolved exactly when it has no conflict. */
  lemma LegacyParsedUnselected(path: string, lines: seq<string>)
    ensures forall k :: 0 <= k < |LegacyParsed(path, lines).conflicts| ==> LegacyParsed(path, lines).conflicts[k].selection.None?
    ensures !LegacyParsed(path, lines).IsResolved() <==> LegacyParsed(path, lines).conflicts != []
  {
    var s := LegacyRun(lines);
    LegacyRunRenders(lines);
    if s.conflicts != [] {
      assert !s.conflicts[0].IsResolved();
    }
  }

  /**
   * An input that ends inside a conflict: the open conflict is dropped
   * without an error and an empty bit is still appended, so there are two
   * more bits than conflicts and `result()` cannot walk the merge.
   */
  lemma LegacyParseDropsOpenConflict(path: string, lines: seq<string>)
    requires LegacyRun(lines).state != LText
    ensures var v := LegacyParsed(path, lines);
      && |v.bits| == |v.conflicts| + 2
      && !v.Alternating()
      && v.bits[|v.bits| - 1].text == ""
      && Composed(BitTexts(v.bits[..|v.bits| - 1]), LegacyTexts(v.conflicts)) + LegacyPending(LegacyRun(lines)) == Join(lines)
  {
    var s := LegacyRun(lines);
    LegacyRunRenders(lines);
    assert (s.bits + [s.bit])[..|s.bits|] == s.bits;
  }

  /** The result of the old `parse` as its design intends: no merge for an input that ends inside a conflict. */
  function LegacyParsedChecked(path: string, lines: seq<string>): Option<LegacyFileMergeValue>
  {
    if LegacyRun(lines).state == LText then Some(LegacyParsed(path, lines)) else None
  }

  /**
   * The checked old parse fails exactly on the inputs the unchecked one
   * turns into a merge `result()` cannot walk, and what it returns
   * reproduces the input.
   */
  lemma LegacyParsedCheckedRoundTrip(path: string, lines: seq<string>)
    ensures LegacyParsedChecked(path, lines).Some? <==> LegacyParsed(path, lines).Alternating()
    ensures LegacyParsedChecked(path, lines).Some? ==>
      LegacyParsedChecked(path, lines).value.Alternating() && LegacyParsedChecked(path, lines).value.Text() == Join(lines)
  {
    if LegacyRun(lines).state == LText {
      LegacyParseRoundTrip(path, lines);
    } else {
      LegacyParseDropsOpenConflict(path, lines);
    }
  }

  /** Conflict `k` is anchored at the number of marked-up lines before it (0-based). */
  ghost predicate LegacyConflictAt(bits: seq<FileBitValue>, cs: seq<LegacyConflictValue>, k: nat)
    requires k < |cs| && k < |bits|
  {
    cs[k].lineNumber == NewlineCount(Composed(BitTexts(bits[..k + 1]), LegacyTexts(cs[..k])))
  }

  /** Bit `k` is anchored at the number of marked-up lines before it (0-based). */
  ghost predicate LegacyBitAt(bits: seq<FileBitValue>, cs: seq<LegacyConflictValue>, k: nat)
    requires k < |bits| && k <= |cs|
  {
    bits[k].lineNumber == NewlineCount(Composed(BitTexts(bits[..k]), LegacyTexts(cs[..k])))
  }

  /** The line counter and the anchors of the old classifier. */
  ghost predicate LegacyCounted(s: LegacyScan)
  {
    && s.index == NewlineCount(LegacyClosed(s) + LegacyPending(s))
    && (forall k :: 0 <= k < |s.conflicts| && k < |s.bits| ==> LegacyConflictAt(s.bits, s.conflicts, k))
    && (forall k :: 0 <= k < |s.bits| && k <= |s.conflicts| ==> LegacyBitAt(s.bits, s.conflicts, k))
    && (s.state == LText ==> s.bit.lineNumber == NewlineCount(LegacyClosed(s)))
    && (s.state != LText ==> s.conflict.lineNumber == NewlineCount(LegacyClosed(s)))
  }

  lemma LegacyStepCountsOpen(s: LegacyScan, line: string)
    requires LegacyShaped(s) && LegacyCounted(s) && s.state == LText && Slice(line, 3) == OpenMarker
    ensures var t := LegacyStep(s, line);
      && (forall k :: 0 <= k < |t.conflicts| && k < |t.bits| ==> LegacyConflictAt(t.bits, t.conflicts, k))
      && (forall k :: 0 <= k < |t.bits| && k <= |t.conflicts| ==> LegacyBitAt(t.bits, t.conflicts, k))
      && t.conflict.lineNumber == NewlineCount(LegacyClosed(t))
  {
    var t := LegacyStep(s, line);
    BitTextsSnoc(s.bits, s.bit);
    ComposedSnocBit(BitTexts(s.bits), LegacyTexts(s.conflicts), s.bit.text);
    forall k | 0 <= k < |t.conflicts| && k < |t.bits|
      ensures LegacyConflictAt(t.bits, t.conflicts, k)
    {
      assert LegacyConflictAt(s.bits, s.conflicts, k);
      assert t.bits[..k + 1] == s.bits[..k + 1];
    }
    forall k | 0 <= k < |t.bits| && k <= |t.conflicts|
      ensures LegacyBitAt(t.bits, t.conflicts, k)
    {
      assert t.bits[..k] == s.bits[..k];
      if k < |s.bits| {
        assert LegacyBitAt(s.bits, s.conflicts, k);
      } else {
        assert s.conflicts[..k] == s.conflicts;
      }
    }
  }

  lemma LegacyStepCountsClose(s: LegacyScan, line: string)
    requires LegacyShaped(s) && LegacyCounted(s) && s.state == LRight && Slice(line, 3) == CloseMarker
    requires IsLine(line) && EndsWithNewline(line)
    ensures var t := LegacyStep(s, line);
      && (forall k :: 0 <= k < |t.conflicts| && k < |t.bits| ==> LegacyConflictAt(t.bits, t.conflicts, k))
      && (forall k :: 0 <= k < |t.bits| && k <= |t.conflicts| ==> LegacyBitAt(t.bits, t.conflicts, k))
      && t.bit.lineNumber == NewlineCount(LegacyClosed(t))
  {
    var t := LegacyStep(s, line);
    LegacyStepRenders(s, line);
    NewlineCountOfEndedLine(line);
    NewlineCountConcat(LegacyClosed(s) + LegacyPending(s), line);
    assert LegacyClosed(t) + LegacyPending(t) == LegacyClosed(t);
    forall k | 0 <= k < |t.conflicts| && k < |t.bits|
      ensures LegacyConflictAt(t.bits, t.conflicts, k)
    {
      assert t.conflicts[..k] == s.conflicts[..k];
      if k < |s.conflicts| {
        assert LegacyConflictAt(s.bits, s.conflicts, k);
      } else {
        assert s.bits[..k + 1] == s.bits;
      }
    }
    forall k | 0 <= k < |t.bits| && k <= |t.conflicts|
      ensures LegacyBitAt(t.bits, t.conflicts, k)
    {
      assert LegacyBitAt(s.bits, s.conflicts, k);
      assert t.conflicts[..k] == s.conflicts[..k];
    }
  }

  lemma LegacyStepCountsIndex(s: LegacyScan, line: string)
    requires LegacyShaped(s) && LegacyCounted(s) && IsLine(line) && EndsWithNewline(line)
    ensures LegacyStep(s, line).index == NewlineCount(LegacyClosed(LegacyStep(s, line)) + LegacyPending(LegacyStep(s, line)))
  {
    LegacyStepRenders(s, line);
    NewlineCountOfEndedLine(line);
    NewlineCountConcat(LegacyClosed(s) + LegacyPending(s), line);
  }

  lemma LegacyStepCounts(s: LegacyScan, line: string)
    requires LegacyShaped(s) && LegacyCounted(s) && IsLine(line) && EndsWithNewline(line)
    ensures LegacyCounted(LegacyStep(s, line))
  {
    var t := LegacyStep(s, line);
    LegacyStepCountsIndex(s, line);
    if s.state == LText && Slice(line, 3) == OpenMarker {
      LegacyStepCountsOpen(s, line);
    } else if s.state == LRight && Slice(line, 3) == CloseMarker {
      LegacyStepCountsClose(s, line);
    } else {
      assert t.bits == s.bits && t.conflicts == s.conflicts;
      assert (s.state == LText) == (t.state == LText);
    }
  }

  /** The old classifier's line counter and anchors after reading whole lines. */
  lemma {:induction false} LegacyRunCounts(lines: seq<string>)
    requires AllEnded(lines)
    ensures LegacyCounted(LegacyRun(lines))
  {
    if lines != [] {
      var init := lines[..|lines| - 1];
      var line := lines[|lines| - 1];
      assert AllEnded(init) by {
        forall i | 0 <= i < |init| ensures IsLine(init[i]) && EndsWithNewline(init[i]) {
          assert init[i] == lines[i];
        }
      }
      LegacyRunCounts(init);
      LegacyRunRenders(init);
      assert LegacyRun(lines) == LegacyStep(LegacyRun(init), line);
      LegacyStepCounts(LegacyRun(init), line);
    } else {
      assert BitTexts([]) == [] && LegacyTexts([]) == [];
    }
  }

  /** Conflict `k` of `v` sits at the 0-based index of its `<<<` line: the number of marked-up lines before it. */
  ghost predicate LegacyConflictLinesUp(v: LegacyFileMergeValue, k: nat)
    requires k < |v.conflicts|
  {
    && k < |v.bits|
    && v.conflicts[k].lineNumber == NewlineCount(Composed(BitTexts(v.bits[..k + 1]), LegacyTexts(v.conflicts[..k])))
  }

  /** Bit `k` of `v` is anchored at the number of marked-up lines before it. */
  ghost predicate LegacyBitLinesUp(v: LegacyFileMergeValue, k: nat)
    requires k <= |v.conflicts|
  {
    && k < |v.bits|
    && v.bits[k].lineNumber == NewlineCount(Composed(BitTexts(v.bits[..k]), LegacyTexts(v.conflicts[..k])))
  }

  lemma LegacyParsedConflictAnchored(path: string, lines: seq<string>, k: nat)
    requires AllEnded(lines) && k < |LegacyParsed(path, lines).conflicts|
    ensures LegacyConflictLinesUp(LegacyParsed(path, lines), k)
  {
    var s := LegacyRun(lines);
    var v := LegacyParsed(path, lines);
    LegacyRunRenders(lines);
    LegacyRunCounts(lines);
    assert v.bits[..k + 1] == s.bits[..k + 1];
    assert LegacyConflictAt(s.bits, s.conflicts, k);
  }

  lemma LegacyParsedBitAnchored(path: string, lines: seq<string>, k: nat)
    requires AllEnded(lines) && k <= |LegacyParsed(path, lines).conflicts|
    ensures LegacyBitLinesUp(LegacyParsed(path, lines), k)
  {
    var s := LegacyRun(lines);
    var v := LegacyParsed(path, lines);
    LegacyRunRenders(lines);
    LegacyRunCounts(lines);
    assert v.bits[..k] == s.bits[..k];
    if k < |s.bits| {
      assert LegacyBitAt(s.bits, s.conflicts, k);
    } else {
      assert s.conflicts[..k] == s.conflicts && s.bits[..k] == s.bits;
    }
  }

  /**
   * The 0-based anchors of the old `parse`, for input made of whole lines:
   * the first bit is at 0, a conflict at the index of its `<<<` line, and the
   * bit after a conflict one past the index of its `>>>` line; each is the
   * number of marked-up lines before it.
   */
  lemma LegacyParseAnchors(path: string, lines: seq<string>)
    requires AllEnded(lines)
    ensures forall k :: 0 <= k < |LegacyParsed(path, lines).conflicts| ==> LegacyConflictLinesUp(LegacyParsed(path, lines), k)
    ensures forall k :: 0 <= k <= |LegacyParsed(path, lines).conflicts| ==> LegacyBitLinesUp(LegacyParsed(path, lines), k)
  {
    forall k | 0 <= k < |LegacyParsed(path, lines).conflicts|
      ensures LegacyConflictLinesUp(LegacyParsed(path, lines), k)
    {
      LegacyParsedConflictAnchored(path, lines, k);
    }
    forall k | 0 <= k <= |LegacyParsed(path, lines).conflicts|
      ensures LegacyBitLinesUp(LegacyParsed(path, lines), k)
    {
      LegacyParsedBitAnchored(path, lines, k);
    }
  }
}
