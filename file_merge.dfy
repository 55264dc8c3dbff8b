/**
 * A conflicted file (merge/file_merge.py): the alternation of file bits and
 * conflicts, its resolution, its text, and the line classifier of `parse`.
 */
module FileMerges {
  import opened Wrappers
  import opened Strings
  import opened Choices
  import opened FileBits
  import opened Conflicts

  /** The texts of some bits, in order. */
  function BitTexts(bits: seq<FileBitValue>): (r: seq<string>)
  {
    seq(|bits|, k requires 0 <= k < |bits| => bits[k].text)
  }

  /** The texts of some conflicts for choice `c`, or for their stored choices when `c` is `None`. */
  function ConflictTexts(cs: seq<ConflictValue>, c: Option<Choice>): (r: seq<string>)
  {
    seq(|cs|, k requires 0 <= k < |cs| => if c.None? then cs[k].Result() else cs[k].ResultFor(c.value))
  }

  lemma BitTextsSnoc(bits: seq<FileBitValue>, b: FileBitValue)
    ensures BitTexts(bits + [b]) == BitTexts(bits) + [b.text]
  {
    assert forall k :: 0 <= k < |bits| + 1 ==> BitTexts(bits + [b])[k] == (BitTexts(bits) + [b.text])[k];
  }

  lemma ConflictTextsSnoc(cs: seq<ConflictValue>, x: ConflictValue, c: Option<Choice>)
    ensures ConflictTexts(cs + [x], c) == ConflictTexts(cs, c) + [if c.None? then x.Result() else x.ResultFor(c.value)]
  {
    var t := if c.None? then x.Result() else x.ResultFor(c.value);
    assert forall k :: 0 <= k < |cs| + 1 ==> ConflictTexts(cs + [x], c)[k] == (ConflictTexts(cs, c) + [t])[k];
  }

  /** The state of a `FileMerge` object: its path, its bits and its conflicts. */
  datatype FileMergeValue = FileMergeValue(path: string, bits: seq<FileBitValue>, conflicts: seq<ConflictValue>)
  {
    /** The shapes `result()` can walk: a bit first, then conflicts and bits in turn, each used once. */
    predicate Alternating()
    {
      |conflicts| <= |bits| <= |conflicts| + 1
    }

    /** The file's text: bit 0, conflict 0 with its stored choice, bit 1, ... */
    function Text(): string
      requires Alternating()
    {
      Composed(BitTexts(bits), ConflictTexts(conflicts, None))
    }

    /** The file as it reads with every conflict resolved to `c`. */
    function TextFor(c: Choice): string
      requires Alternating()
    {
      Composed(BitTexts(bits), ConflictTexts(conflicts, Some(c)))
    }

    predicate IsResolved()
    {
      forall k :: 0 <= k < |conflicts| ==> conflicts[k].choice.IsResolved()
    }

    /** The state after `select_all(c)`. */
    function SelectedAll(c: Choice): FileMergeValue
    {
      this.(conflicts := seq(|conflicts|, k requires 0 <= k < |conflicts| => conflicts[k].(choice := c)))
    }
  }

  /**
   * After `select_all(c)` with a resolving `c`, the merge is resolved and
   * its text is the file resolved to `c`: the bits stay, and each conflict
   * contributes its left text, its right text, or both.
   */
  lemma SelectAllResolves(v: FileMergeValue, c: Choice)
    requires v.Alternating() && c.IsResolved()
    ensures v.SelectedAll(c).Alternating() && v.SelectedAll(c).IsResolved()
    ensures v.SelectedAll(c).bits == v.bits
    ensures v.SelectedAll(c).Text() == v.TextFor(c)
    ensures c == Left ==> v.SelectedAll(c).Text() == Composed(BitTexts(v.bits), seq(|v.conflicts|, k requires 0 <= k < |v.conflicts| => v.conflicts[k].left))
  {
    var w := v.SelectedAll(c);
    assert ConflictTexts(w.conflicts, None) == ConflictTexts(v.conflicts, Some(c));
    if c == Left {
      assert ConflictTexts(v.conflicts, Some(c)) == seq(|v.conflicts|, k requires 0 <= k < |v.conflicts| => v.conflicts[k].left);
    }
  }

  /** The values of some bit objects, in order. */
  function BitValues(bs: seq<FileBit>): (r: seq<FileBitValue>)
    reads bs
  {
    seq(|bs|, k requires 0 <= k < |bs| reads bs => bs[k].Value())
  }

  /** The values of some conflict objects, in order. */
  function ConflictValues(cs: seq<Conflict>): (r: seq<ConflictValue>)
    reads cs
  {
    seq(|cs|, k requires 0 <= k < |cs| reads cs => cs[k].Value())
  }

  /** The conflicts of `cs` that are not resolved, in order. */
  function Unresolved(cs: seq<Conflict>): (r: seq<Conflict>)
    reads cs
    ensures forall k :: 0 <= k < |r| ==> r[k] in cs && !r[k].IsResolved()
    ensures r == [] <==> forall k :: 0 <= k < |cs| ==> cs[k].IsResolved()
  {
    if cs == [] then []
    else (if cs[0].IsResolved() then [] else [cs[0]]) + Unresolved(cs[1..])
  }

  /** After `nb` bits and `nc` conflicts have been taken in turn, the parity of the step says which comes next. */
  lemma PiecesParity(nb: nat, nc: nat)
    requires nb == nc || nb == nc + 1
    ensures (nb + nc) % 2 == 0 <==> nb == nc
  {
    if nb == nc {
      assert nb + nc == 2 * nc;
    } else {
      assert nb + nc == 2 * nc + 1;
    }
  }

  class FileMerge {
    const path: string
    const fileBits: seq<FileBit>
    const conflicts: seq<Conflict>

    constructor(path: string, fileBits: seq<FileBit>, conflicts: seq<Conflict>)
      ensures this.path == path && this.fileBits == fileBits && this.conflicts == conflicts
    {
      this.path := path;
      this.fileBits := fileBits;
      this.conflicts := conflicts;
    }

    function Value(): FileMergeValue
      reads fileBits, conflicts
    {
      FileMergeValue(path, BitValues(fileBits), ConflictValues(conflicts))
    }

    /** `is_resolved`: no conflict is left undecided. */
    predicate IsResolved()
      reads conflicts
      ensures IsResolved() <==> forall k :: 0 <= k < |conflicts| ==> conflicts[k].choice != Undecided
    {
      |Unresolved(conflicts)| == 0
    }

    /** `select_all(c)`: every conflict gets choice `c`; nothing else changes. */
    method SelectAll(c: Choice)
      modifies conflicts
      ensures Value() == old(Value()).SelectedAll(c)
    {
      for k := 0 to |conflicts|
        invariant forall j :: 0 <= j < k ==> conflicts[j].choice == c
        invariant forall j :: 0 <= j < |conflicts| ==> conflicts[j].Value() == old(conflicts[j].Value()).(choice := conflicts[j].choice)
      {
        conflicts[k].Select(c);
      }
      assert BitValues(fileBits) == old(BitValues(fileBits));
      assert ConflictValues(conflicts) == old(Value()).SelectedAll(c).conflicts;
    }

    /** `result()`: pops a bit on even steps and a conflict's current result on odd steps. */
    method Result() returns (r: string)
      requires |conflicts| <= |fileBits| <= |conflicts| + 1
      ensures r == Value().Text()
    {
      var bits := fileBits;
      var cs := conflicts;
      ghost var bt := BitTexts(BitValues(fileBits));
      ghost var ct := ConflictTexts(ConflictValues(conflicts), None);
      ghost var nb, nc := 0, 0;
      r := "";
      for i := 0 to |fileBits| + |conflicts|
        invariant nb <= |fileBits| && nc <= |conflicts| && i == nb + nc
        invariant nb == nc || nb == nc + 1
        invariant bits == fileBits[nb..] && cs == conflicts[nc..]
        invariant r == Composed(bt[..nb], ct[..nc])
      {
        PiecesParity(nb, nc);
        if i % 2 == 0 {
          assert r + bits[0].text == Composed(bt[..nb + 1], ct[..nc]) by {
            ComposedPrefixBit(bt, ct, nb, nc);
            assert bits[0] == fileBits[nb];
          }
          r := r + bits[0].text;
          bits := bits[1..];
          nb := nb + 1;
        } else {
          assert r + cs[0].Result(None) == Composed(bt[..nb], ct[..nc + 1]) by {
            ComposedPrefixConflict(bt, ct, nb, nc);
            assert cs[0] == conflicts[nc];
          }
          r := r + cs[0].Result(None);
          cs := cs[1..];
          nc := nc + 1;
        }
      }
      assert bt[..nb] == bt && ct[..nc] == ct;
    }

    /** `parse`, over the lines `readlines()` returns. */
    static method Parse(path: string, lines: seq<string>) returns (fm: FileMerge)
      ensures fresh(fm)
      ensures fm.Value() == Parsed(path, lines)
    {
      var fileBits: seq<FileBit> := [];
      var conflicts: seq<Conflict> := [];
      var state := InText;
      var text := "";
      var anchor := 1;
      var leftLines, rightLines := 0, 0;
      var draft := EmptyDraft;
      ghost var scan := Initial;
      for index := 0 to |lines|
        invariant scan == Run(lines[..index])
        invariant scan == Scan(state, index, anchor, text, leftLines, rightLines, draft, BitValues(fileBits), ConflictValues(conflicts))
      {
        var line := lines[index];
        var switch := Slice(line, 7);
        if state == InText {
          if switch == LeftMarker {
            state := InLeft;
            fileBits := AppendBit(fileBits, anchor, text);
            text := "";
            draft := EmptyDraft.(lineNumber := index + 1, lineNumLeft := leftLines + 1,
                                 lineNumRight := rightLines + 1, sep1 := line);
          } else {
            text := text + line;
            leftLines, rightLines := leftLines + 1, rightLines + 1;
          }
        } else if state == InLeft {
          if switch == BaseMarker {
            state := InBase;
            draft := draft.(hasBase := true, sep2 := line);
          } else if switch == MidMarker {
            state := InRight;
            draft := draft.(sep3 := line);
          } else {
            draft := draft.(left := draft.left + line);
            leftLines := leftLines + 1;
          }
        } else if state == InBase {
          if switch == MidMarker {
            state := InRight;
            draft := draft.(sep3 := line);
          } else {
            draft := draft.(base := draft.base + line);
          }
        } else {
          if switch == EndMarker {
            state := InText;
            draft := draft.(sep4 := line);
            conflicts := AppendConflict(conflicts, draft);
            anchor := index + 2;
          } else {
            draft := draft.(right := draft.right + line);
            rightLines := rightLines + 1;
          }
        }
        RunNext(lines, index);
        scan := Step(scan, line);
      }
      assert lines[..|lines|] == lines;
      fileBits := AppendBit(fileBits, anchor, text);
      fm := new FileMerge(path, fileBits, conflicts);
    }

    /** `file_bits.append(FileBit(anchor, text))` on a new list. */
    static method AppendBit(fileBits: seq<FileBit>, anchor: int, text: string) returns (r: seq<FileBit>)
      ensures |r| == |fileBits| + 1 && r[..|fileBits|] == fileBits
      ensures BitValues(r) == BitValues(fileBits) + [FileBitValue(anchor, text)]
    {
      var fileBit := new FileBit(anchor, text);
      r := fileBits + [fileBit];
      assert r[..|fileBits|] == fileBits;
    }

    /** `conflicts.append(builder.build())` on a new list, the builder's fields being `d`. */
    static method AppendConflict(conflicts: seq<Conflict>, d: Draft) returns (r: seq<Conflict>)
      ensures |r| == |conflicts| + 1 && r[..|conflicts|] == conflicts
      ensures ConflictValues(r) == ConflictValues(conflicts) + [d.Build()]
    {
      var conflict := Construct(d);
      r := conflicts + [conflict];
      assert r[..|conflicts|] == conflicts;
    }

    /**
     * `parse` as its design intends: an input that ends inside a conflict is
     * a parse error (`None`) instead of a merge whose `result()` fails.
     */
    static method ParseChecked(path: string, lines: seq<string>) returns (r: Option<FileMerge>)
      ensures r.None? <==> Run(lines).state != InText
      ensures r.Some? ==> fresh(r.value) && r.value.Value() == Parsed(path, lines)
      ensures r.Some? ==> |r.value.fileBits| == |r.value.conflicts| + 1 && r.value.Value().Text() == Join(lines)
    {
      var fm := Parse(path, lines);
      if Run(lines).state == InText {
        ParseRoundTrip(path, lines);
      } else {
        ParseDropsOpenConflict(path, lines);
      }
      if |fm.fileBits| == |fm.conflicts| + 1 {
        r := Some(fm);
      } else {
        r := None;
      }
    }
  }

  /** The four states of the line classifier in `parse`. */
  datatype State = InText | InBase | InLeft | InRight

  /**
   * What the classifier knows after some lines: its state, the number of
   * lines read, the anchor and text of the bit being collected, the number
   * of lines the left and the right branch have had so far, the fields of
   * the conflict being collected, and the bits and conflicts closed so far.
   */
  datatype Scan = Scan(state: State, index: nat, anchor: int, text: string,
                       leftLines: nat, rightLines: nat, draft: Draft,
                       bits: seq<FileBitValue>, conflicts: seq<ConflictValue>)

  const Initial: Scan := Scan(InText, 0, 1, "", 0, 0, EmptyDraft, [], [])

  /** One line of `parse`, routed on its first seven characters. */
  function Step(s: Scan, line: string): Scan
  {
    var switch := Slice(line, 7);
    var next := s.(index := s.index + 1);
    match s.state
    case InText =>
      if switch == LeftMarker then
        next.(state := InLeft, text := "", bits := s.bits + [FileBitValue(s.anchor, s.text)],
              draft := EmptyDraft.(lineNumber := s.index + 1, lineNumLeft := s.leftLines + 1,
                                   lineNumRight := s.rightLines + 1, sep1 := line))
      else
        next.(text := s.text + line, leftLines := s.leftLines + 1, rightLines := s.rightLines + 1)
    case InLeft =>
      if switch == BaseMarker then next.(state := InBase, draft := s.draft.(hasBase := true, sep2 := line))
      else if switch == MidMarker then next.(state := InRight, draft := s.draft.(sep3 := line))
      else next.(leftLines := s.leftLines + 1, draft := s.draft.(left := s.draft.left + line))
    case InBase =>
      if switch == MidMarker then next.(state := InRight, draft := s.draft.(sep3 := line))
      else next.(draft := s.draft.(base := s.draft.base + line))
    case InRight =>
      if switch == EndMarker then
        next.(state := InText, anchor := s.index + 2, draft := s.draft.(sep4 := line),
              conflicts := s.conflicts + [s.draft.(sep4 := line).Build()])
      else next.(rightLines := s.rightLines + 1, draft := s.draft.(right := s.draft.right + line))
  }

  /** The classifier after reading `lines`. */
  function Run(lines: seq<string>): Scan
  {
    if lines == [] then Initial else Step(Run(lines[..|lines| - 1]), lines[|lines| - 1])
  }

  /** Reading one more line is one more step. */
  lemma RunNext(lines: seq<string>, index: nat)
    requires index < |lines|
    ensures Run(lines[..index + 1]) == Step(Run(lines[..index]), lines[index])
  {
    assert lines[..index + 1][..index] == lines[..index];
  }

  /** The result of `parse`: the last bit is appended whatever the state. */
  function Parsed(path: string, lines: seq<string>): FileMergeValue
  {
    var s := Run(lines);
    FileMergeValue(path, s.bits + [FileBitValue(s.anchor, s.text)], s.conflicts)
  }

  /** The part of the input the classifier holds in its current state and has not yet closed. */
  function Pending(s: Scan): string
  {
    match s.state
    case InText => s.text
    case InLeft => s.draft.sep1 + s.draft.left
    case InBase => s.draft.sep1 + s.draft.left + s.draft.sep2 + s.draft.base
    case InRight =>
      if s.draft.hasBase then s.draft.sep1 + s.draft.left + s.draft.sep2 + s.draft.base + s.draft.sep3 + s.draft.right
      else s.draft.sep1 + s.draft.left + s.draft.sep3 + s.draft.right
  }

  /** The text of the closed bits and conflicts, each conflict with its markers. */
  function Closed(s: Scan): string
  {
    Composed(BitTexts(s.bits), ConflictTexts(s.conflicts, None))
  }

  /** The lengths and state flags the classifier keeps. */
  ghost predicate Shaped(s: Scan)
  {
    && (s.state == InText ==> |s.bits| == |s.conflicts|)
    && (s.state != InText ==> |s.bits| == |s.conflicts| + 1 && s.text == "")
    && (s.state == InLeft ==> !s.draft.hasBase && s.draft.base == "")
    && (s.state == InBase ==> s.draft.hasBase)
    && (s.state == InLeft || s.state == InBase ==> s.draft.right == "")
  }

  /** One line moves from the input to the pending text, or closes a piece. */
  lemma StepRenders(s: Scan, line: string)
    requires Shaped(s)
    ensures Shaped(Step(s, line))
    ensures Closed(Step(s, line)) + Pending(Step(s, line)) == Closed(s) + Pending(s) + line
  {
    match s.state
    case InText => StepRendersText(s, line);
    case InLeft => StepRendersLeft(s, line);
    case InBase =>
    case InRight => StepRendersRight(s, line);
  }

  lemma StepRendersText(s: Scan, line: string)
    requires Shaped(s) && s.state == InText
    ensures Shaped(Step(s, line))
    ensures Closed(Step(s, line)) + Pending(Step(s, line)) == Closed(s) + Pending(s) + line
  {
    if Slice(line, 7) == LeftMarker {
      BitTextsSnoc(s.bits, FileBitValue(s.anchor, s.text));
      ComposedSnocBit(BitTexts(s.bits), ConflictTexts(s.conflicts, None), s.text);
    }
  }

  lemma StepRendersLeft(s: Scan, line: string)
    requires Shaped(s) && s.state == InLeft
    ensures Shaped(Step(s, line))
    ensures Closed(Step(s, line)) + Pending(Step(s, line)) == Closed(s) + Pending(s) + line
  {
    var d := s.draft;
    if Slice(line, 7) == BaseMarker {
      assert Pending(Step(s, line)) == d.sep1 + d.left + line + "";
    } else if Slice(line, 7) == MidMarker {
      assert Pending(Step(s, line)) == d.sep1 + d.left + line + "";
    }
  }

  /** The `>>>>>>>` line: the conflict is built and closed, and a new bit starts on the next line. */
  lemma StepClose(s: Scan, line: string)
    requires s.state == InRight && Slice(line, 7) == EndMarker
    ensures Step(s, line) == s.(index := s.index + 1, state := InText, anchor := s.index + 2,
                                draft := s.draft.(sep4 := line),
                                conflicts := s.conflicts + [s.draft.(sep4 := line).Build()])
  {
  }

  /** The conflict closed by `line` reads, undecided, as its pending text followed by `line`. */
  lemma ClosedConflictText(s: Scan, line: string)
    requires Shaped(s) && s.state == InRight
    ensures s.draft.(sep4 := line).Build().Result() == Pending(s) + line
    ensures s.draft.(sep4 := line).Build().ResultFor(Left) == s.draft.left
    ensures s.draft.(sep4 := line).Build().ResultFor(Right) == s.draft.right
  {
  }

  lemma StepRendersRight(s: Scan, line: string)
    requires Shaped(s) && s.state == InRight
    ensures Shaped(Step(s, line))
    ensures Closed(Step(s, line)) + Pending(Step(s, line)) == Closed(s) + Pending(s) + line
  {
    if Slice(line, 7) == EndMarker {
      StepRendersClose(s, line);
    } else {
      StepRendersRightLine(s, line);
    }
  }

  /** The `>>>>>>>` line closes the conflict: its text moves from pending to closed. */
  lemma StepRendersClose(s: Scan, line: string)
    requires Shaped(s) && s.state == InRight && Slice(line, 7) == EndMarker
    ensures Shaped(Step(s, line))
    ensures Closed(Step(s, line)) + Pending(Step(s, line)) == Closed(s) + Pending(s) + line
  {
    var c := s.draft.(sep4 := line).Build();
    StepClose(s, line);
    ClosedConflictText(s, line);
    assert Closed(Step(s, line)) == Closed(s) + c.Result() by {
      ConflictTextsSnoc(s.conflicts, c, None);
      ComposedSnocConflict(BitTexts(s.bits), ConflictTexts(s.conflicts, None), c.Result());
    }
    assert Pending(Step(s, line)) == "";
  }

  /** Any other line in the `right` state joins the right text. */
  lemma StepRendersRightLine(s: Scan, line: string)
    requires Shaped(s) && s.state == InRight && Slice(line, 7) != EndMarker
    ensures Shaped(Step(s, line))
    ensures Closed(Step(s, line)) + Pending(Step(s, line)) == Closed(s) + Pending(s) + line
  {
    var t := Step(s, line);
    var d := s.draft;
    assert t == s.(index := s.index + 1, rightLines := s.rightLines + 1, draft := d.(right := d.right + line));
    assert Closed(t) == Closed(s);
    if d.hasBase {
      assert Pending(t) == (d.sep1 + d.left + d.sep2 + d.base + d.sep3 + d.right) + line;
    } else {
      assert Pending(t) == (d.sep1 + d.left + d.sep3 + d.right) + line;
    }
  }

  /** Everything read is either closed or pending. */
  lemma {:induction false} RunRenders(lines: seq<string>)
    ensures Shaped(Run(lines)) && Run(lines).index == |lines|
    ensures Closed(Run(lines)) + Pending(Run(lines)) == Join(lines)
  {
    if lines != [] {
      var init, line := lines[..|lines| - 1], lines[|lines| - 1];
      var s := Run(init);
      assert Run(lines) == Step(s, line);
      RunRenders(init);
      StepRenders(s, line);
      assert Join(lines) == Join(init) + line by {
        assert lines == init + [line];
        JoinSnoc(init, line);
      }
    }
  }

  /**
   * The round trip of `parse` followed by `result()`: when the input ends
   * outside a conflict, there is one more bit than conflicts, every
   * conflict is undecided, and the file's text is the input, markers and
   * all.
   */
  lemma ParseRoundTrip(path: string, lines: seq<string>)
    requires Run(lines).state == InText
    ensures |Parsed(path, lines).bits| == |Parsed(path, lines).conflicts| + 1
    ensures forall k :: 0 <= k < |Parsed(path, lines).conflicts| ==> Parsed(path, lines).conflicts[k].choice == Undecided
    ensures !Parsed(path, lines).IsResolved() <==> Parsed(path, lines).conflicts != []
    ensures Parsed(path, lines).Text() == Join(lines)
  {
    ParsedRendersInput(path, lines);
    ParsedUndecided(path, lines);
  }

  /** A parse that ends outside a conflict has one more bit than conflicts, and its text is the input. */
  lemma ParsedRendersInput(path: string, lines: seq<string>)
    requires Run(lines).state == InText
    ensures |Parsed(path, lines).bits| == |Parsed(path, lines).conflicts| + 1
    ensures Parsed(path, lines).Text() == Join(lines)
  {
    var s := Run(lines);
    RunRenders(lines);
    BitTextsSnoc(s.bits, FileBitValue(s.anchor, s.text));
    ComposedSnocBit(BitTexts(s.bits), ConflictTexts(s.conflicts, None), s.text);
  }

  /** Every parsed conflict is undecided, so the parse is resolved exactly when it has no conflict. */
  lemma ParsedUndecided(path: string, lines: seq<string>)
    ensures forall k :: 0 <= k < |Parsed(path, lines).conflicts| ==> Parsed(path, lines).conflicts[k].choice == Undecided
    ensures !Parsed(path, lines).IsResolved() <==> Parsed(path, lines).conflicts != []
  {
    var s := Run(lines);
    RunMarks(lines);
    assert forall k :: 0 <= k < |s.conflicts| ==> WellMarked(s.conflicts[k]);
    if s.conflicts != [] {
      assert !s.conflicts[0].choice.IsResolved();
    }
  }

  /**
   * An input that ends inside a conflict: `parse` drops the open conflict
   * without an error, yet still appends an empty trailing bit, so there are
   * two more bits than conflicts. The closed pieces and the dropped text,
   * which starts with the `<<<<<<<` line, make up the input.
   */
  lemma ParseDropsOpenConflict(path: string, lines: seq<string>)
    requires Run(lines).state != InText
    ensures var v := Parsed(path, lines);
      && |v.bits| == |v.conflicts| + 2
      && !v.Alternating()
      && v.bits[|v.bits| - 1].text == ""
      && Composed(BitTexts(v.bits[..|v.bits| - 1]), ConflictTexts(v.conflicts, None)) + Pending(Run(lines)) == Join(lines)
      && Slice(Pending(Run(lines)), 7) == LeftMarker
  {
    var s := Run(lines);
    assert Shaped(s) && Closed(s) + Pending(s) == Join(lines) by {
      RunRenders(lines);
    }
    assert Slice(Pending(s), 7) == LeftMarker by {
      RunMarks(lines);
      assert Marked(s);
      OpenPendingMarked(s);
    }
    assert (s.bits + [FileBitValue(s.anchor, s.text)])[..|s.bits|] == s.bits;
  }

  /** The pending text of an open conflict starts with its `<<<<<<<` line. */
  lemma OpenPendingMarked(s: Scan)
    requires s.state != InText && |s.draft.sep1| >= 7 && Slice(s.draft.sep1, 7) == LeftMarker
    ensures Slice(Pending(s), 7) == LeftMarker
  {
    var d := s.draft;
    if s.state == InLeft {
      SlicePrefix(d.sep1, d.left, 7);
    } else if s.state == InBase {
      assert Pending(s) == d.sep1 + (d.left + d.sep2 + d.base);
      SlicePrefix(d.sep1, d.left + d.sep2 + d.base, 7);
    } else if d.hasBase {
      assert Pending(s) == d.sep1 + (d.left + d.sep2 + d.base + d.sep3 + d.right);
      SlicePrefix(d.sep1, d.left + d.sep2 + d.base + d.sep3 + d.right, 7);
    } else {
      assert Pending(s) == d.sep1 + (d.left + d.sep3 + d.right);
      SlicePrefix(d.sep1, d.left + d.sep3 + d.right, 7);
    }
  }

  /** The result of `parse` as its design intends: no merge for an input that ends inside a conflict. */
  function ParsedChecked(path: string, lines: seq<string>): Option<FileMergeValue>
  {
    if Run(lines).state == InText then Some(Parsed(path, lines)) else None
  }

  /**
   * The checked parse fails exactly on the inputs the unchecked one turns
   * into a merge `result()` cannot walk, and what it returns reproduces the
   * input.
   */
  lemma ParsedCheckedRoundTrip(path: string, lines: seq<string>)
    ensures ParsedChecked(path, lines).Some? <==> Parsed(path, lines).Alternating()
    ensures ParsedChecked(path, lines).Some? ==>
      ParsedChecked(path, lines).value.Alternating() && ParsedChecked(path, lines).value.Text() == Join(lines)
  {
    if Run(lines).state == InText {
      ParseRoundTrip(path, lines);
    } else {
      ParseDropsOpenConflict(path, lines);
    }
  }

  /** A marker prefix of a line is also the prefix of anything the line starts. */
  lemma SlicePrefix(a: string, b: string, n: nat)
    requires |a| >= n || b == []
    ensures Slice(a + b, n) == Slice(a, n)
  {
    if b == [] {
      assert a + b == a;
    }
  }

  /**
   * The marker lines of a parsed conflict: each separator begins with its
   * marker, a two-way conflict has the "NOSTR" base and no `sep2`, and the
   * conflict is undecided.
   */
  predicate WellMarked(c: ConflictValue)
  {
    && Slice(c.sep1, 7) == LeftMarker && Slice(c.sep3, 7) == MidMarker && Slice(c.sep4, 7) == EndMarker
    && (c.arity == ThreeWay ==> Slice(c.sep2, 7) == BaseMarker)
    && (c.arity == TwoWay ==> c.sep2 == "" && c.base == "NOSTR")
    && c.choice == Undecided
  }

  ghost predicate Marked(s: Scan)
  {
    && (forall k :: 0 <= k < |s.conflicts| ==> WellMarked(s.conflicts[k]))
    && (s.state != InText ==> Slice(s.draft.sep1, 7) == LeftMarker && |s.draft.sep1| >= 7)
    && (s.state != InText && s.draft.hasBase ==> Slice(s.draft.sep2, 7) == BaseMarker)
    && (s.state == InRight ==> Slice(s.draft.sep3, 7) == MidMarker)
  }

  lemma StepMarks(s: Scan, line: string)
    requires Shaped(s) && Marked(s)
    ensures Marked(Step(s, line))
  {
    if s.state == InRight && Slice(line, 7) == EndMarker {
      var t := Step(s, line);
      assert t.conflicts == s.conflicts + [s.draft.(sep4 := line).Build()];
      assert WellMarked(t.conflicts[|s.conflicts|]);
    }
  }

  /** Every closed conflict is undecided and its separators are the marker lines that delimited it. */
  lemma {:induction false} RunMarks(lines: seq<string>)
    ensures Shaped(Run(lines)) && Marked(Run(lines))
  {
    if lines != [] {
      var init := lines[..|lines| - 1];
      RunMarks(init);
      StepMarks(Run(init), lines[|lines| - 1]);
      StepRenders(Run(init), lines[|lines| - 1]);
    }
  }

  /** Every line is one whole line, line break included, as `readlines()` gives them when the file ends with a line break. */
  predicate AllEnded(lines: seq<string>)
  {
    forall i :: 0 <= i < |lines| ==> IsLine(lines[i]) && EndsWithNewline(lines[i])
  }

  /** The pieces of `v` before conflict `k` (its bits up to `k` and its conflicts before `k`), conflicts read for `c`. */
  function TextBefore(v: FileMergeValue, k: nat, c: Option<Choice>): string
    requires k < |v.bits| && k <= |v.conflicts|
  {
    Composed(BitTexts(v.bits[..k + 1]), ConflictTexts(v.conflicts[..k], c))
  }

  /** The anchor of a conflict in the marked-up file (`None`) or in the left or right branch. */
  function Anchor(c: ConflictValue, o: Option<Choice>): int
  {
    if o == Some(Left) then c.lineNumLeft else if o == Some(Right) then c.lineNumRight else c.lineNumber
  }

  /** Each conflict's anchor is one past the lines before it, as read for `o`. */
  ghost predicate ConflictsAnchored(bits: seq<FileBitValue>, cs: seq<ConflictValue>, o: Option<Choice>)
  {
    forall k :: 0 <= k < |cs| && k < |bits| ==> ConflictAnchoredAt(bits, cs, o, k)
  }

  ghost predicate ConflictAnchoredAt(bits: seq<FileBitValue>, cs: seq<ConflictValue>, o: Option<Choice>, k: nat)
    requires k < |cs| && k < |bits|
  {
    Anchor(cs[k], o) - 1 == NewlineCount(Composed(BitTexts(bits[..k + 1]), ConflictTexts(cs[..k], o)))
  }

  /** Each bit's anchor is one past the marked-up lines before it. */
  ghost predicate BitsAnchored(bits: seq<FileBitValue>, cs: seq<ConflictValue>)
  {
    forall k :: 0 <= k < |bits| && k <= |cs| ==> BitAnchoredAt(bits, cs, k)
  }

  ghost predicate BitAnchoredAt(bits: seq<FileBitValue>, cs: seq<ConflictValue>, k: nat)
    requires k < |bits| && k <= |cs|
  {
    bits[k].lineNumber - 1 == NewlineCount(Composed(BitTexts(bits[..k]), ConflictTexts(cs[..k], None)))
  }

  lemma ConflictsAnchoredSnocBit(bits: seq<FileBitValue>, cs: seq<ConflictValue>, o: Option<Choice>, b: FileBitValue)
    requires ConflictsAnchored(bits, cs, o) && |bits| == |cs|
    ensures ConflictsAnchored(bits + [b], cs, o)
  {
    forall k | 0 <= k < |cs| && k < |bits| + 1
      ensures ConflictAnchoredAt(bits + [b], cs, o, k)
    {
      assert ConflictAnchoredAt(bits, cs, o, k);
      assert (bits + [b])[..k + 1] == bits[..k + 1];
    }
  }

  lemma ConflictsAnchoredSnocConflict(bits: seq<FileBitValue>, cs: seq<ConflictValue>, o: Option<Choice>, c: ConflictValue)
    requires ConflictsAnchored(bits, cs, o) && |bits| == |cs| + 1
    requires Anchor(c, o) - 1 == NewlineCount(Composed(BitTexts(bits), ConflictTexts(cs, o)))
    ensures ConflictsAnchored(bits, cs + [c], o)
  {
    forall k | 0 <= k < |cs| + 1 && k < |bits|
      ensures ConflictAnchoredAt(bits, cs + [c], o, k)
    {
      assert (cs + [c])[..k] == cs[..k];
      if k < |cs| {
        assert ConflictAnchoredAt(bits, cs, o, k);
      } else {
        assert bits[..k + 1] == bits;
      }
    }
  }

  lemma BitsAnchoredSnocBit(bits: seq<FileBitValue>, cs: seq<ConflictValue>, b: FileBitValue)
    requires BitsAnchored(bits, cs) && |bits| == |cs|
    requires b.lineNumber - 1 == NewlineCount(Composed(BitTexts(bits), ConflictTexts(cs, None)))
    ensures BitsAnchored(bits + [b], cs)
  {
    forall k | 0 <= k < |bits| + 1 && k <= |cs|
      ensures BitAnchoredAt(bits + [b], cs, k)
    {
      assert (bits + [b])[..k] == bits[..k];
      if k < |bits| {
        assert BitAnchoredAt(bits, cs, k);
      } else {
        assert cs[..k] == cs;
      }
    }
  }

  lemma BitsAnchoredSnocConflict(bits: seq<FileBitValue>, cs: seq<ConflictValue>, c: ConflictValue)
    requires BitsAnchored(bits, cs) && |bits| == |cs| + 1
    ensures BitsAnchored(bits, cs + [c])
  {
    forall k | 0 <= k < |bits| && k <= |cs| + 1
      ensures BitAnchoredAt(bits, cs + [c], k)
    {
      assert BitAnchoredAt(bits, cs, k);
      assert (cs + [c])[..k] == cs[..k];
    }
  }

  /** The text of the left (or right) branch read so far, pending part included. */
  function BranchView(s: Scan, c: Choice): string
  {
    Composed(BitTexts(s.bits), ConflictTexts(s.conflicts, Some(c)))
      + (if s.state == InText then s.text else if c == Left then s.draft.left else s.draft.right)
  }

  /** The line counters of the classifier: lines read, and lines of each branch so far. */
  ghost predicate LinesCounted(s: Scan)
  {
    && s.index == NewlineCount(Closed(s) + Pending(s))
    && s.leftLines == NewlineCount(BranchView(s, Left))
    && s.rightLines == NewlineCount(BranchView(s, Right))
  }

  /** Closed pieces are anchored one past the lines before them. */
  ghost predicate PiecesAnchored(s: Scan)
  {
    && ConflictsAnchored(s.bits, s.conflicts, None)
    && ConflictsAnchored(s.bits, s.conflicts, Some(Left))
    && ConflictsAnchored(s.bits, s.conflicts, Some(Right))
    && BitsAnchored(s.bits, s.conflicts)
  }

  /** The piece being collected is anchored one past the lines before it. */
  ghost predicate DraftAnchored(s: Scan)
  {
    && (s.state == InText ==> s.anchor - 1 == NewlineCount(Closed(s)))
    && (s.state != InText ==>
          && s.draft.lineNumber - 1 == NewlineCount(Closed(s))
          && s.draft.lineNumLeft - 1 == NewlineCount(Composed(BitTexts(s.bits), ConflictTexts(s.conflicts, Some(Left))))
          && s.draft.lineNumRight - 1 == NewlineCount(Composed(BitTexts(s.bits), ConflictTexts(s.conflicts, Some(Right)))))
  }

  ghost predicate Counted(s: Scan)
  {
    LinesCounted(s) && PiecesAnchored(s) && DraftAnchored(s)
  }

  lemma NewlineCountOfEndedLine(line: string)
    requires IsLine(line) && EndsWithNewline(line)
    ensures NewlineCount(line) == 1
  {
    NewlineCountOfLine(line);
  }

  /** A step that adds no piece and keeps the anchors being collected keeps every anchor. */
  lemma AnchorsFrame(s: Scan, t: Scan)
    requires PiecesAnchored(s) && DraftAnchored(s)
    requires t.bits == s.bits && t.conflicts == s.conflicts
    requires (s.state == InText) == (t.state == InText)
    requires s.state == InText ==> t.anchor == s.anchor
    requires s.state != InText ==>
      t.draft.lineNumber == s.draft.lineNumber && t.draft.lineNumLeft == s.draft.lineNumLeft
      && t.draft.lineNumRight == s.draft.lineNumRight
    ensures PiecesAnchored(t) && DraftAnchored(t)
  {
  }

  /** The line counter counts the line breaks read. */
  lemma StepCountsIndex(s: Scan, line: string)
    requires Shaped(s) && s.index == NewlineCount(Closed(s) + Pending(s))
    requires IsLine(line) && EndsWithNewline(line)
    ensures Step(s, line).index == NewlineCount(Closed(Step(s, line)) + Pending(Step(s, line)))
  {
    var t := Step(s, line);
    assert t.index == s.index + 1;
    assert Closed(t) + Pending(t) == (Closed(s) + Pending(s)) + line by {
      StepRenders(s, line);
    }
    NewlineCountOfEndedLine(line);
    NewlineCountConcat(Closed(s) + Pending(s), line);
  }

  /** One more whole line in the part of a branch still being collected is one more line of that branch. */
  lemma ViewPlusLine(s: Scan, t: Scan, c: Choice, line: string)
    requires t.bits == s.bits && t.conflicts == s.conflicts && t.state == s.state
    requires s.state == InText ==> t.text == s.text + line
    requires s.state != InText && c == Left ==> t.draft.left == s.draft.left + line
    requires s.state != InText && c != Left ==> t.draft.right == s.draft.right + line
    requires IsLine(line) && EndsWithNewline(line)
    ensures NewlineCount(BranchView(t, c)) == NewlineCount(BranchView(s, c)) + 1
  {
    assert BranchView(t, c) == BranchView(s, c) + line;
    NewlineCountOfEndedLine(line);
    NewlineCountConcat(BranchView(s, c), line);
  }

  lemma StepLinesTextLine(s: Scan, line: string)
    requires Shaped(s) && LinesCounted(s) && s.state == InText && Slice(line, 7) != LeftMarker
    requires IsLine(line) && EndsWithNewline(line)
    ensures LinesCounted(Step(s, line))
  {
    var t := Step(s, line);
    assert t == s.(index := s.index + 1, text := s.text + line, leftLines := s.leftLines + 1, rightLines := s.rightLines + 1);
    StepCountsIndex(s, line);
    ViewPlusLine(s, t, Left, line);
    ViewPlusLine(s, t, Right, line);
  }

  lemma StepCountsTextLine(s: Scan, line: string)
    requires Shaped(s) && Counted(s) && s.state == InText && Slice(line, 7) != LeftMarker
    requires IsLine(line) && EndsWithNewline(line)
    ensures Counted(Step(s, line))
  {
    AnchorsFrame(s, Step(s, line));
    StepLinesTextLine(s, line);
  }

  lemma StepCountsOpen(s: Scan, line: string)
    requires Shaped(s) && Counted(s) && s.state == InText && Slice(line, 7) == LeftMarker
    requires IsLine(line) && EndsWithNewline(line)
    ensures Counted(Step(s, line))
  {
    var t := Step(s, line);
    StepCountsIndex(s, line);
    var b := FileBitValue(s.anchor, s.text);
    BitTextsSnoc(s.bits, b);
    ComposedSnocBit(BitTexts(s.bits), ConflictTexts(s.conflicts, None), s.text);
    ComposedSnocBit(BitTexts(s.bits), ConflictTexts(s.conflicts, Some(Left)), s.text);
    ComposedSnocBit(BitTexts(s.bits), ConflictTexts(s.conflicts, Some(Right)), s.text);
    ConflictsAnchoredSnocBit(s.bits, s.conflicts, None, b);
    ConflictsAnchoredSnocBit(s.bits, s.conflicts, Some(Left), b);
    ConflictsAnchoredSnocBit(s.bits, s.conflicts, Some(Right), b);
    BitsAnchoredSnocBit(s.bits, s.conflicts, b);
    assert Closed(t) == Closed(s) + Pending(s);
    assert BranchView(t, Left) == BranchView(s, Left);
    assert BranchView(t, Right) == BranchView(s, Right);
  }

  lemma StepLinesLeftLine(s: Scan, line: string)
    requires Shaped(s) && LinesCounted(s) && s.state == InLeft
    requires Slice(line, 7) != BaseMarker && Slice(line, 7) != MidMarker
    requires IsLine(line) && EndsWithNewline(line)
    ensures LinesCounted(Step(s, line))
  {
    var t := Step(s, line);
    assert t == s.(index := s.index + 1, leftLines := s.leftLines + 1, draft := s.draft.(left := s.draft.left + line));
    StepCountsIndex(s, line);
    ViewPlusLine(s, t, Left, line);
    assert BranchView(t, Right) == BranchView(s, Right);
  }

  lemma StepCountsLeftLine(s: Scan, line: string)
    requires Shaped(s) && Counted(s) && s.state == InLeft
    requires Slice(line, 7) != BaseMarker && Slice(line, 7) != MidMarker
    requires IsLine(line) && EndsWithNewline(line)
    ensures Counted(Step(s, line))
  {
    AnchorsFrame(s, Step(s, line));
    StepLinesLeftLine(s, line);
  }

  /** Marker lines inside a conflict, and base lines, count for neither branch. */
  lemma StepCountsUncounted(s: Scan, line: string)
    requires Shaped(s) && Counted(s)
    requires (s.state == InLeft && (Slice(line, 7) == BaseMarker || Slice(line, 7) == MidMarker)) || s.state == InBase
    requires IsLine(line) && EndsWithNewline(line)
    ensures Counted(Step(s, line))
  {
    var t := Step(s, line);
    StepCountsIndex(s, line);
    AnchorsFrame(s, t);
    assert BranchView(t, Left) == BranchView(s, Left);
    assert BranchView(t, Right) == BranchView(s, Right);
  }

  lemma StepLinesRightLine(s: Scan, line: string)
    requires Shaped(s) && LinesCounted(s) && s.state == InRight && Slice(line, 7) != EndMarker
    requires IsLine(line) && EndsWithNewline(line)
    ensures LinesCounted(Step(s, line))
  {
    var t := Step(s, line);
    assert t == s.(index := s.index + 1, rightLines := s.rightLines + 1, draft := s.draft.(right := s.draft.right + line));
    StepCountsIndex(s, line);
    ViewPlusLine(s, t, Right, line);
    assert BranchView(t, Left) == BranchView(s, Left);
  }

  lemma StepCountsRightLine(s: Scan, line: string)
    requires Shaped(s) && Counted(s) && s.state == InRight && Slice(line, 7) != EndMarker
    requires IsLine(line) && EndsWithNewline(line)
    ensures Counted(Step(s, line))
  {
    AnchorsFrame(s, Step(s, line));
    StepLinesRightLine(s, line);
  }

  /** The branch views do not change when a conflict closes: its branch texts move from pending to closed. */
  lemma StepCloseLines(s: Scan, line: string)
    requires Shaped(s) && LinesCounted(s) && s.state == InRight && Slice(line, 7) == EndMarker
    requires IsLine(line) && EndsWithNewline(line)
    ensures LinesCounted(Step(s, line))
  {
    StepCountsIndex(s, line);
    StepCloseView(s, line, Left);
    StepCloseView(s, line, Right);
    StepClose(s, line);
  }

  /** The view of branch `ch` (left or right) is the same before and after the `>>>>>>>` line. */
  lemma StepCloseView(s: Scan, line: string, ch: Choice)
    requires Shaped(s) && s.state == InRight && Slice(line, 7) == EndMarker
    requires ch == Left || ch == Right
    ensures BranchView(Step(s, line), ch) == BranchView(s, ch)
  {
    var c := s.draft.(sep4 := line).Build();
    StepClose(s, line);
    ClosedConflictText(s, line);
    ConflictTextsSnoc(s.conflicts, c, Some(ch));
    ComposedSnocConflict(BitTexts(s.bits), ConflictTexts(s.conflicts, Some(ch)), c.ResultFor(ch));
  }

  /** The closed conflict takes the anchors its draft had. */
  lemma StepClosePieces(s: Scan, line: string)
    requires Shaped(s) && PiecesAnchored(s) && DraftAnchored(s) && s.state == InRight && Slice(line, 7) == EndMarker
    ensures PiecesAnchored(Step(s, line))
  {
    var c := s.draft.(sep4 := line).Build();
    StepClose(s, line);
    ConflictsAnchoredSnocConflict(s.bits, s.conflicts, None, c);
    ConflictsAnchoredSnocConflict(s.bits, s.conflicts, Some(Left), c);
    ConflictsAnchoredSnocConflict(s.bits, s.conflicts, Some(Right), c);
    BitsAnchoredSnocConflict(s.bits, s.conflicts, c);
  }

  /** The bit after a conflict is anchored on the line after `>>>>>>>`. */
  lemma StepCloseDraft(s: Scan, line: string)
    requires Shaped(s) && LinesCounted(s) && s.state == InRight && Slice(line, 7) == EndMarker
    requires IsLine(line) && EndsWithNewline(line)
    ensures DraftAnchored(Step(s, line))
  {
    var t := Step(s, line);
    StepClose(s, line);
    StepRenders(s, line);
    NewlineCountOfEndedLine(line);
    NewlineCountConcat(Closed(s) + Pending(s), line);
    assert Closed(t) == Closed(t) + Pending(t);
  }

  lemma StepCountsClose(s: Scan, line: string)
    requires Shaped(s) && Counted(s) && s.state == InRight && Slice(line, 7) == EndMarker
    requires IsLine(line) && EndsWithNewline(line)
    ensures Counted(Step(s, line))
  {
    StepCloseLines(s, line);
    StepClosePieces(s, line);
    StepCloseDraft(s, line);
  }

  lemma StepCounts(s: Scan, line: string)
    requires Shaped(s) && Counted(s) && IsLine(line) && EndsWithNewline(line)
    ensures Counted(Step(s, line))
  {
    var m := Slice(line, 7);
    match s.state
    case InText => if m == LeftMarker { StepCountsOpen(s, line); } else { StepCountsTextLine(s, line); }
    case InLeft =>
      if m == BaseMarker || m == MidMarker { StepCountsUncounted(s, line); } else { StepCountsLeftLine(s, line); }
    case InBase => StepCountsUncounted(s, line);
    case InRight => if m == EndMarker { StepCountsClose(s, line); } else { StepCountsRightLine(s, line); }
  }

  /** The classifier's counters and anchors after reading whole lines. */
  lemma {:induction false} RunCounts(lines: seq<string>)
    requires AllEnded(lines)
    ensures Counted(Run(lines))
  {
    if lines != [] {
      var init := lines[..|lines| - 1];
      var line := lines[|lines| - 1];
      assert AllEnded(init) by {
        forall i | 0 <= i < |init| ensures IsLine(init[i]) && EndsWithNewline(init[i]) {
          assert init[i] == lines[i];
        }
      }
      RunCounts(init);
      RunRenders(init);
      var s := Run(init);
      assert Run(lines) == Step(s, line);
      StepCounts(s, line);
    } else {
      assert BitTexts([]) == [] && ConflictTexts([], None) == [];
    }
  }

  /** Conflict `k` of `v` is anchored one past the lines before it, in the marked-up file and in each branch. */
  ghost predicate ConflictLinesUp(v: FileMergeValue, k: nat)
    requires k < |v.conflicts|
  {
    && k < |v.bits|
    && v.conflicts[k].lineNumber - 1 == NewlineCount(TextBefore(v, k, None))
    && v.conflicts[k].lineNumLeft - 1 == NewlineCount(TextBefore(v, k, Some(Left)))
    && v.conflicts[k].lineNumRight - 1 == NewlineCount(TextBefore(v, k, Some(Right)))
  }

  /** Bit `k` of `v` is anchored one past the marked-up lines before it. */
  ghost predicate BitLinesUp(v: FileMergeValue, k: nat)
    requires k <= |v.conflicts|
  {
    && k < |v.bits|
    && v.bits[k].lineNumber - 1 == NewlineCount(Composed(BitTexts(v.bits[..k]), ConflictTexts(v.conflicts[..k], None)))
  }

  /** The closed pieces and the open piece of a whole-line input are anchored, and the scan is shaped. */
  lemma RunAnchored(lines: seq<string>)
    requires AllEnded(lines)
    ensures Shaped(Run(lines)) && PiecesAnchored(Run(lines)) && DraftAnchored(Run(lines))
  {
    RunRenders(lines);
    RunCounts(lines);
  }

  lemma ParsedConflictAnchored(path: string, lines: seq<string>, k: nat)
    requires AllEnded(lines) && k < |Parsed(path, lines).conflicts|
    ensures ConflictLinesUp(Parsed(path, lines), k)
  {
    var s := Run(lines);
    var v := Parsed(path, lines);
    RunAnchored(lines);
    assert v.bits[..k + 1] == s.bits[..k + 1];
    assert ConflictAnchoredAt(s.bits, s.conflicts, None, k);
    assert ConflictAnchoredAt(s.bits, s.conflicts, Some(Left), k);
    assert ConflictAnchoredAt(s.bits, s.conflicts, Some(Right), k);
  }

  lemma ParsedBitAnchored(path: string, lines: seq<string>, k: nat)
    requires AllEnded(lines) && k <= |Parsed(path, lines).conflicts|
    ensures BitLinesUp(Parsed(path, lines), k)
  {
    var s := Run(lines);
    var v := Parsed(path, lines);
    RunAnchored(lines);
    assert v.bits[..k] == s.bits[..k];
    if k < |s.bits| {
      assert BitAnchoredAt(s.bits, s.conflicts, k);
    } else {
      assert s.conflicts[..k] == s.conflicts && s.bits[..k] == s.bits;
    }
  }

  /**
   * The anchors `parse` records, for input made of whole lines: a conflict's
   * `line_number` is one past the marked-up lines before it (so it is the
   * 1-based number of its `<<<<<<<` line), its `line_num_left` and
   * `line_num_right` are one past the lines of the left-only and right-only
   * file before it, and each bit up to the one after the last conflict is
   * anchored one past the marked-up lines before it.
   */
  lemma ParseAnchors(path: string, lines: seq<string>)
    requires AllEnded(lines)
    ensures forall k :: 0 <= k < |Parsed(path, lines).conflicts| ==> ConflictLinesUp(Parsed(path, lines), k)
    ensures forall k :: 0 <= k <= |Parsed(path, lines).conflicts| ==> BitLinesUp(Parsed(path, lines), k)
  {
    forall k | 0 <= k < |Parsed(path, lines).conflicts|
      ensures ConflictLinesUp(Parsed(path, lines), k)
    {
      ParsedConflictAnchored(path, lines, k);
    }
    forall k | 0 <= k <= |Parsed(path, lines).conflicts|
      ensures BitLinesUp(Parsed(path, lines), k)
    {
      ParsedBitAnchored(path, lines, k);
    }
  }
}
