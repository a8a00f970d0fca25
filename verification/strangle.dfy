/**
 * The strangle strategy: play a move that leaves the other side the fewest
 * legal replies, choosing among equally good moves with a draw.
 */
module Strangle {
  import opened Wrappers
  import opened Board
  import opened MoveRules
  import opened Transition

  /**
   * The tie loop over `moves`: the least `count` seen so far and the moves
   * attaining it, in order. A smaller count restarts the list and an equal
   * one extends it; the least count starts above every count, so the first
   * move always restarts the list.
   */
  method FewestReplies(moves: seq<int>, count: int -> nat) returns (least: nat, best: seq<int>)
    requires moves != []
    ensures forall i :: 0 <= i < |moves| ==> least <= count(moves[i])
    ensures exists i :: 0 <= i < |moves| && count(moves[i]) == least
    ensures forall m :: m in best <==> m in moves && count(m) == least
  {
    least, best := count(moves[0]), [moves[0]];
    for i := 1 to |moves|
      invariant forall j :: 0 <= j < i ==> least <= count(moves[j])
      invariant exists j :: 0 <= j < i && count(moves[j]) == least
      invariant forall m :: m in best <==> m in moves[..i] && count(m) == least
    {
      var c := count(moves[i]);
      if c < least {
        least, best := c, [moves[i]];
      } else if c == least {
        best := best + [moves[i]];
      }
      assert moves[..i + 1] == moves[..i] + [moves[i]];
    }
    assert moves[..|moves|] == moves;
  }

  /** The number of legal replies after the side to move places at `m` (none when the move is refused). */
  function Replies(s: BoardState, m: int): (n: nat)
    ensures m in LegalMoves(s) ==> n == |LegalMoves(Play(s, m))|
  {
    match MakeMove(Some(m), s)
    case Ok(t) => |LegalMoves(t)|
    case Err(_) => 0
  }

  /**
   * The tie set of a position with a legal move: exactly the legal moves
   * after which the other side has the fewest replies.
   */
  method Ties(s: BoardState) returns (best: seq<int>)
    requires LegalMoves(s) != []
    ensures best != []
    ensures forall m :: m in best <==>
              m in LegalMoves(s) && forall x :: x in LegalMoves(s) ==> Replies(s, m) <= Replies(s, x)
  {
    var moves := LegalMoves(s);
    var count := m => Replies(s, m);
    var least;
    least, best := FewestReplies(moves, count);
    var i :| 0 <= i < |moves| && count(moves[i]) == least;
    assert moves[i] in best;
    forall m
      ensures m in best <==> m in moves && forall x :: x in moves ==> Replies(s, m) <= Replies(s, x)
    {
      if m in moves && forall x :: x in moves ==> Replies(s, m) <= Replies(s, x) {
        assert Replies(s, m) <= count(moves[i]);
      }
      if m in best {
        forall x | x in moves
          ensures Replies(s, m) <= Replies(s, x)
        {
          var j :| 0 <= j < |moves| && moves[j] == x;
          assert least <= count(moves[j]);
        }
      }
    }
  }

  /**
   * The strategy: no move when there is no legal move; otherwise the tie
   * the draw `pick` selects, a legal move leaving the fewest replies.
   */
  method ChooseMove(s: BoardState, pick: nat) returns (r: Option<int>)
    ensures r.None? <==> LegalMoves(s) == []
    ensures r.Some? ==> r.value in LegalMoves(s) && MakeMove(r, s).Ok?
    ensures r.Some? ==> forall x :: x in LegalMoves(s) ==>
              |LegalMoves(Play(s, r.value))| <= |LegalMoves(Play(s, x))|
  {
    if LegalMoves(s) == [] {
      return None;
    }
    var best := Ties(s);
    var m := best[pick % |best|];
    assert m in best;
    r := Some(m);
    forall x | x in LegalMoves(s)
      ensures |LegalMoves(Play(s, m))| <= |LegalMoves(Play(s, x))|
    {
      assert Replies(s, m) <= Replies(s, x);
    }
  }
}
