/** How a conflict is resolved (merge/choice.py). */
module Choices {
  import opened Wrappers

  /** The `Choice` enum: undecided = 0, left = 1, right = 2, both = 3. */
  datatype Choice = Undecided | Left | Right | Both
  {
    /** The enum value of the member. */
    function Ordinal(): (n: nat)
      ensures n < 4
    {
      match this
      case Undecided => 0
      case Left => 1
      case Right => 2
      case Both => 3
    }

    /** `is_resolved`: every member except `undecided` is a resolution. */
    predicate IsResolved()
    {
      this != Undecided
    }
  }

  /** `Choice(n)`: the member whose value is `n`; Python raises ValueError for any other `n`. */
  function FromOrdinal(n: int): (r: Option<Choice>)
    ensures r.Some? <==> 0 <= n < 4
    ensures r.Some? ==> r.value.Ordinal() == n
  {
    if n == 0 then Some(Undecided)
    else if n == 1 then Some(Left)
    else if n == 2 then Some(Right)
    else if n == 3 then Some(Both)
    else None
  }

  /** Exactly four members, numbered 0..3 without repetition. */
  lemma OrdinalsNumberTheMembers()
    ensures forall c: Choice :: FromOrdinal(c.Ordinal()) == Some(c)
    ensures forall c: Choice, d: Choice :: c.Ordinal() == d.Ordinal() ==> c == d
  {
  }

  /** `undecided` is the one member that is not resolved. */
  lemma OnlyUndecidedIsUnresolved()
    ensures !Undecided.IsResolved()
    ensures Left.IsResolved() && Right.IsResolved() && Both.IsResolved()
    ensures forall c: Choice :: !c.IsResolved() <==> c == Undecided
  {
  }
}
