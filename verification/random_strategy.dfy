/** The random strategy: any legal move, selected by a draw. */
module RandomStrategy {
  import opened Wrappers
  import opened Board
  import opened MoveRules
  import opened Transition

  /** The element of `moves` the draw `pick` selects, or none from an empty list. */
  function PickFrom(moves: seq<int>, pick: nat): (r: Option<int>)
    ensures r.None? <==> moves == []
    ensures r.Some? ==> r.value in moves
  {
    if moves == [] then None else Some(moves[pick % |moves|])
  }

  /** Every element of the list is selected by some draw. */
  lemma EveryElementPicked(moves: seq<int>, m: int)
    requires m in moves
    ensures exists pick: nat :: PickFrom(moves, pick) == Some(m)
  {
    var i :| 0 <= i < |moves| && moves[i] == m;
    assert PickFrom(moves, i) == Some(m);
  }

  /** No move when there is no legal move; otherwise the legal move the draw `pick` selects, which the transition accepts. */
  function ChooseMove(s: BoardState, pick: nat): (r: Option<int>)
    ensures r.None? <==> LegalMoves(s) == []
    ensures r.Some? ==> r.value in LegalMoves(s) && MakeMove(r, s).Ok?
  {
    PickFrom(LegalMoves(s), pick)
  }

  /** Every legal move is chosen by some draw. */
  lemma EveryMoveReachable(s: BoardState, m: int)
    requires m in LegalMoves(s)
    ensures exists pick: nat :: ChooseMove(s, pick) == Some(m)
  {
    EveryElementPicked(LegalMoves(s), m);
    var pick: nat :| PickFrom(LegalMoves(s), pick) == Some(m);
    assert ChooseMove(s, pick) == Some(m);
  }
}
