/**
 * A conflicted region of a file (merge/conflict.py): the current generation
 * `Conflict3Way`, its special case `Conflict2Way`, and `ConflictBuilder`.
 */
module Conflicts {
  import opened Wrappers
  import opened Strings
  import opened Choices

  /** The runtime class of a conflict object. */
  datatype Arity = ThreeWay | TwoWay

  /**
   * The state of a conflict object: its class, the three line anchors, the
   * three texts, the four verbatim separator lines and the stored choice.
   */
  datatype ConflictValue = ConflictValue(
    arity: Arity,
    lineNumber: int, lineNumLeft: int, lineNumRight: int,
    left: string, base: string, right: string,
    sep1: string, sep2: string, sep3: string, sep4: string,
    choice: Choice)
  {
    /** `result(c)`, with `Conflict2Way` leaving `sep2` and `base` out of the undecided text. */
    function ResultFor(c: Choice): string
    {
      match c
      case Undecided =>
        if arity == TwoWay then sep1 + left + sep3 + right + sep4
        else sep1 + left + sep2 + base + sep3 + right + sep4
      case Left => left
      case Right => right
      case Both => left + right
    }

    /** `result()`: the text for the stored choice. */
    function Result(): string
    {
      ResultFor(choice)
    }

    /** `start(c)`; `None` where the source raises ValueError. */
    function Start(c: Choice): Option<int>
    {
      if c == Left then Some(lineNumLeft)
      else if c == Right then Some(lineNumRight)
      else None
    }

    /** `end(c)`; `None` where `start(c)` raises. */
    function End(c: Choice): Option<int>
    {
      match Start(c)
      case None => None
      case Some(s) => Some(s + LineCount(ResultFor(c)))
    }

    /** The state after `extend_top_up(chunk)`. */
    function ExtendedTopUp(chunk: string): ConflictValue
    {
      var k := NewlineCount(chunk);
      this.(lineNumber := lineNumber - k, lineNumLeft := lineNumLeft - k, lineNumRight := lineNumRight - k,
            left := chunk + left, base := chunk + base, right := chunk + right)
    }

    /** The state after `extend_bottom_down(chunk)`. */
    function ExtendedBottomDown(chunk: string): ConflictValue
    {
      this.(left := left + chunk, base := base + chunk, right := right + chunk)
    }
  }

  /** The resolved texts: `result(both)` is `result(left)` followed by `result(right)`, and none holds `base`. */
  lemma ResolvedResults(v: ConflictValue)
    ensures v.ResultFor(Left) == v.left && v.ResultFor(Right) == v.right
    ensures v.ResultFor(Both) == v.ResultFor(Left) + v.ResultFor(Right)
    ensures forall c: Choice :: c.IsResolved() ==> v.ResultFor(c) == v.left || v.ResultFor(c) == v.right || v.ResultFor(c) == v.left + v.right
  {
  }

  /**
   * The undecided text wraps the left and right results in the separators;
   * only a three-way conflict adds `sep2` and `base` between them.
   */
  lemma UndecidedResult(v: ConflictValue)
    ensures v.arity == ThreeWay ==>
      v.ResultFor(Undecided) == v.sep1 + v.ResultFor(Left) + v.sep2 + v.base + v.sep3 + v.ResultFor(Right) + v.sep4
    ensures v.arity == TwoWay ==>
      v.ResultFor(Undecided) == v.sep1 + v.ResultFor(Left) + v.sep3 + v.ResultFor(Right) + v.sep4
  {
  }

  /** `start` answers for the two branches only, and `end` exactly where `start` does. */
  lemma StartEndDomain(v: ConflictValue, c: Choice)
    ensures v.Start(c).Some? <==> c == Left || c == Right
    ensures v.End(c).Some? <==> v.Start(c).Some?
    ensures v.End(c).Some? ==> v.End(c).value - v.Start(c).value == LineCount(v.ResultFor(c))
  {
  }

  /**
   * `extend_top_up` with whole lines: every branch gains the chunk in front,
   * each branch starts that many lines earlier and still ends where it did.
   */
  lemma ExtendTopUpKeepsEnds(v: ConflictValue, chunk: string)
    requires EndsWithNewline(chunk)
    ensures var w := v.ExtendedTopUp(chunk);
      && w.ResultFor(Left) == chunk + v.ResultFor(Left)
      && w.ResultFor(Right) == chunk + v.ResultFor(Right)
      && w.Start(Left) == Some(v.lineNumLeft - LineCount(chunk))
      && w.Start(Right) == Some(v.lineNumRight - LineCount(chunk))
      && w.lineNumber == v.lineNumber - LineCount(chunk)
      && w.End(Left) == v.End(Left) && w.End(Right) == v.End(Right)
  {
    var w := v.ExtendedTopUp(chunk);
    NewlinesCountLines(chunk);
    assert w.End(Left) == v.End(Left) by {
      PrependedLines(chunk, v.left);
      assert w.ResultFor(Left) == chunk + v.left;
    }
    assert w.End(Right) == v.End(Right) by {
      PrependedLines(chunk, v.right);
      assert w.ResultFor(Right) == chunk + v.right;
    }
  }

  /**
   * `extend_bottom_down`: every branch gains the chunk at its end, the
   * anchors stay, and a branch that ends with a line break ends that many
   * lines later.
   */
  lemma ExtendBottomDownKeepsStarts(v: ConflictValue, chunk: string)
    ensures var w := v.ExtendedBottomDown(chunk);
      && w.ResultFor(Left) == v.ResultFor(Left) + chunk
      && w.ResultFor(Right) == v.ResultFor(Right) + chunk
      && w.Start(Left) == v.Start(Left) && w.Start(Right) == v.Start(Right)
      && w.lineNumber == v.lineNumber
      && ((v.left == "" || EndsWithNewline(v.left)) ==> w.End(Left).value == v.End(Left).value + LineCount(chunk))
      && ((v.right == "" || EndsWithNewline(v.right)) ==> w.End(Right).value == v.End(Right).value + LineCount(chunk))
  {
    if v.left == "" || EndsWithNewline(v.left) {
      LinesConcat(v.left, chunk);
    }
    if v.right == "" || EndsWithNewline(v.right) {
      LinesConcat(v.right, chunk);
    }
  }

  class Conflict {
    var lineNumber: int
    var lineNumLeft: int
    var lineNumRight: int
    var left: string
    var base: string
    var right: string
    var sep1: string
    var sep2: string
    var sep3: string
    var sep4: string
    var choice: Choice
    const arity: Arity

    function Value(): ConflictValue
      reads this
    {
      ConflictValue(arity, lineNumber, lineNumLeft, lineNumRight, left, base, right, sep1, sep2, sep3, sep4, choice)
    }

    /** `Conflict3Way(...)`: a new conflict is undecided. */
    constructor Conflict3Way(lineNumber: int, lineNumLeft: int, lineNumRight: int,
                             left: string, base: string, right: string,
                             sep1: string, sep2: string, sep3: string, sep4: string)
      ensures Value() == ConflictValue(ThreeWay, lineNumber, lineNumLeft, lineNumRight,
                                       left, base, right, sep1, sep2, sep3, sep4, Undecided)
    {
      this.arity := ThreeWay;
      this.lineNumber, this.lineNumLeft, this.lineNumRight := lineNumber, lineNumLeft, lineNumRight;
      this.left, this.base, this.right := left, base, right;
      this.sep1, this.sep2, this.sep3, this.sep4 := sep1, sep2, sep3, sep4;
      this.choice := Undecided;
    }

    /** `Conflict2Way(...)`: `base` is the placeholder "NOSTR" and `sep2` is empty. */
    constructor Conflict2Way(lineNumber: int, lineNumLeft: int, lineNumRight: int,
                             left: string, right: string,
                             sep1: string, sep3: string, sep4: string)
      ensures Value() == ConflictValue(TwoWay, lineNumber, lineNumLeft, lineNumRight,
                                       left, "NOSTR", right, sep1, "", sep3, sep4, Undecided)
    {
      this.arity := TwoWay;
      this.lineNumber, this.lineNumLeft, this.lineNumRight := lineNumber, lineNumLeft, lineNumRight;
      this.left, this.base, this.right := left, "NOSTR", right;
      this.sep1, this.sep2, this.sep3, this.sep4 := sep1, "", sep3, sep4;
      this.choice := Undecided;
    }

    /** `is_resolved` */
    predicate IsResolved()
      reads this
      ensures IsResolved() <==> choice != Undecided
    {
      choice.IsResolved()
    }

    /** `select(c)`: only the stored choice changes. */
    method Select(c: Choice)
      modifies this
      ensures Value() == old(Value()).(choice := c)
    {
      choice := c;
    }

    /** `result(choice=None)`: with no argument, the stored choice decides. */
    function Result(c: Option<Choice>): string
      reads this
      ensures c.Some? ==> Result(c) == Value().ResultFor(c.value)
      ensures c.None? ==> Result(c) == Value().ResultFor(choice)
    {
      Value().ResultFor(if c.None? then choice else c.value)
    }

    /** `extend_top_up(chunk)` */
    method ExtendTopUp(chunk: string)
      modifies this
      ensures Value() == old(Value()).ExtendedTopUp(chunk)
    {
      var lineNum := NewlineCount(chunk);
      lineNumber := lineNumber - lineNum;
      lineNumLeft := lineNumLeft - lineNum;
      lineNumRight := lineNumRight - lineNum;
      left := chunk + left;
      base := chunk + base;
      right := chunk + right;
    }

    /** `extend_bottom_down(chunk)` */
    method ExtendBottomDown(chunk: string)
      modifies this
      ensures Value() == old(Value()).ExtendedBottomDown(chunk)
    {
      left := left + chunk;
      base := base + chunk;
      right := right + chunk;
    }

    /** `start(c)` */
    function Start(c: Choice): Option<int>
      reads this
    {
      Value().Start(c)
    }

    /** `end(c)` */
    function End(c: Choice): Option<int>
      reads this
    {
      Value().End(c)
    }

    /**
     * `__eq__`: compares the anchors, texts and separators, but neither the
     * stored choice nor the class. Equal conflicts agree on `start` and `end`;
     * equal conflicts of the same class agree on every result.
     */
    predicate Equals(other: Conflict)
      reads this, other
      ensures Equals(other) ==> forall c: Choice :: Start(c) == other.Start(c) && End(c) == other.End(c)
      ensures Equals(other) && arity == other.arity ==> forall c: Choice :: Result(Some(c)) == other.Result(Some(c))
    {
      (lineNumber, lineNumLeft, lineNumRight, left, base, right, sep1, sep2, sep3, sep4)
        == (other.lineNumber, other.lineNumLeft, other.lineNumRight, other.left, other.base, other.right,
            other.sep1, other.sep2, other.sep3, other.sep4)
    }
  }

  /** `ConflictBuilder.sep1_marker` .. `sep4_marker` */
  const LeftMarker: string := "<<<<<<<"
  const BaseMarker: string := "|||||||"
  const MidMarker: string := "======="
  const EndMarker: string := ">>>>>>>"

  /** The fields of a `ConflictBuilder`. */
  datatype Draft = Draft(
    hasBase: bool,
    lineNumber: int, lineNumLeft: int, lineNumRight: int,
    left: string, base: string, right: string,
    sep1: string, sep2: string, sep3: string, sep4: string)
  {
    /**
     * `build()`: a three-way conflict exactly when a base was seen; the
     * two-way form drops the base text and `sep2`. Either way the result
     * is undecided, keeps the anchors, and its undecided text is the
     * separators and texts that were collected, in order.
     */
    function Build(): (c: ConflictValue)
      ensures c.arity == (if hasBase then ThreeWay else TwoWay)
      ensures c.choice == Undecided
      ensures (c.lineNumber, c.lineNumLeft, c.lineNumRight) == (lineNumber, lineNumLeft, lineNumRight)
      ensures c.ResultFor(Left) == left && c.ResultFor(Right) == right
      ensures c.ResultFor(Undecided) == if hasBase then sep1 + left + sep2 + base + sep3 + right + sep4
                                       else sep1 + left + sep3 + right + sep4
      ensures !hasBase ==> c.base == "NOSTR" && c.sep2 == ""
    {
      if hasBase then
        ConflictValue(ThreeWay, lineNumber, lineNumLeft, lineNumRight, left, base, right, sep1, sep2, sep3, sep4, Undecided)
      else
        ConflictValue(TwoWay, lineNumber, lineNumLeft, lineNumRight, left, "NOSTR", right, sep1, "", sep3, sep4, Undecided)
    }
  }

  /** A fresh `ConflictBuilder`: no base, anchors -1, empty texts, each separator its marker and a line break. */
  const EmptyDraft: Draft :=
    Draft(false, -1, -1, -1, "", "", "", LeftMarker + "\n", BaseMarker + "\n", MidMarker + "\n", EndMarker + "\n")

  class ConflictBuilder {
    var hasBase: bool
    var lineNumber: int
    var lineNumLeft: int
    var lineNumRight: int
    var left: string
    var base: string
    var right: string
    var sep1: string
    var sep2: string
    var sep3: string
    var sep4: string

    function Fields(): Draft
      reads this
    {
      Draft(hasBase, lineNumber, lineNumLeft, lineNumRight, left, base, right, sep1, sep2, sep3, sep4)
    }

    constructor()
      ensures Fields() == EmptyDraft
    {
      hasBase := false;
      lineNumber, lineNumLeft, lineNumRight := -1, -1, -1;
      left, base, right := "", "", "";
      sep1 := LeftMarker + "\n";
      sep2 := BaseMarker + "\n";
      sep3 := MidMarker + "\n";
      sep4 := EndMarker + "\n";
    }

    /** `build()` */
    method Build() returns (c: Conflict)
      ensures fresh(c)
      ensures c.Value() == Fields().Build()
    {
      c := Construct(Fields());
    }
  }

  /** The object `build()` makes from the builder's fields `d`. */
  method Construct(d: Draft) returns (c: Conflict)
    ensures fresh(c)
    ensures c.Value() == d.Build()
  {
    if d.hasBase {
      c := new Conflict.Conflict3Way(d.lineNumber, d.lineNumLeft, d.lineNumRight, d.left, d.base, d.right, d.sep1, d.sep2, d.sep3, d.sep4);
    } else {
      c := new Conflict.Conflict2Way(d.lineNumber, d.lineNumLeft, d.lineNumRight, d.left, d.right, d.sep1, d.sep3, d.sep4);
    }
  }
}
