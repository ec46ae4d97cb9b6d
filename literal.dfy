/** The literal-character fallback: claims any single unoccupied character
    that is neither whitespace nor the end of input, as plain text. */
module LiteralGrammar {
  import opened Flags
  import opened Grid
  import opened PatternBase
  import opened Shapes

  datatype State =
    | Start
    | Claimed(pos: Pos, ch: char)   // the anchor was claimed; the next cell ends the match
    | Done(pos: Pos, ch: char)

  predicate Eligible(c: Cell) {
    !Occupied(c) && !IsSpace(c.ch) && c.ch != END_OF_INPUT
  }

  function Step(s: State, c: Cell): (r: Outcome<State>)
    ensures ClaimsOnlyFree(c, r)
  {
    match s
    case Start =>
      if Eligible(c) then Yield(M_OCCUPIED, Claimed(c.At(), c.ch)) else Raise(Rejected)
    case Claimed(pos, ch) => Return(Done(pos, ch))
    case Done(_, _) => Return(s)
  }

  /** Fed its anchor and one more cell, a literal match completes having
      written exactly M_OCCUPIED at the anchor if and only if the anchor is
      unoccupied, not whitespace and not the end of input; otherwise it is
      rejected at the anchor. */
  lemma {:induction false} CompletesIffEligible(a: Cell, b: Cell)
    ensures Eligible(a) ==>
      Feed(Step, Start, [a, b], map[]) == Completed(Done(a.At(), a.ch), map[a.At() := M_OCCUPIED])
    ensures !Eligible(a) ==> Feed(Step, Start, [a, b], map[]) == Failed(Rejected)
  {
    assert [a, b][1..] == [b];
    assert [b][1..] == [];
  }

  /** A completed literal renders as its own character at its own position. */
  function Render(s: State): (r: seq<Primitive>)
    ensures s.Done? ==> r == [Text(s.pos, s.ch)]
    ensures !s.Done? ==> r == []
  {
    if s.Done? then [Text(s.pos, s.ch)] else []
  }
}
