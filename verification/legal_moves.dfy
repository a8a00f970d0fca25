/**
 * Legal-move enumeration under the sandwich rule.
 *
 * A direction from an empty square is good when the squares beyond it hold
 * one or more opponent pieces followed by a piece of the side to move,
 * before the board edge or an empty square. A square is legal when it is
 * empty and some direction is good.
 */
module MoveRules {
  import opened Board
  import opened Geometry

  /** The number of leading squares of `ray` held by the opponent. */
  function RunLength(ray: seq<int>, o: set<int>): (k: nat)
    ensures k <= |ray|
    ensures forall j :: 0 <= j < k ==> ray[j] in o
    ensures k < |ray| ==> ray[k] !in o
  {
    if |ray| == 0 || ray[0] !in o then 0 else 1 + RunLength(ray[1..], o)
  }

  /**
   * Reference definition of a capture along a ray: a non-empty run of
   * opponent pieces closed by a piece of the mover.
   */
  predicate Brackets(ray: seq<int>, p: set<int>, o: set<int>) {
    var k := RunLength(ray, o);
    1 <= k < |ray| && ray[k] in p
  }

  /**
   * The scan loop of the direction check: an opponent piece is stepped
   * over (opponent membership is checked first), a mover piece ends the scan
   * with "an opponent piece was crossed", anything else ends it with false.
   */
  function ScanRay(ray: seq<int>, p: set<int>, o: set<int>, found: bool): bool {
    if |ray| == 0 then false
    else if ray[0] in o then ScanRay(ray[1..], p, o, true)
    else if ray[0] in p then found
    else false
  }

  lemma {:induction false} ScanRayMeaning(ray: seq<int>, p: set<int>, o: set<int>, found: bool)
    ensures ScanRay(ray, p, o, found) <==>
            (var k := RunLength(ray, o); k < |ray| && ray[k] in p && (found || k >= 1))
  {
    if |ray| > 0 && ray[0] in o {
      ScanRayMeaning(ray[1..], p, o, true);
      assert RunLength(ray, o) == 1 + RunLength(ray[1..], o);
    }
  }

  /** Whether a piece placed at (row, col) would capture in direction d. */
  function CheckDirection(row: int, col: int, d: Dir, p: set<int>, o: set<int>): bool
    requires IsUnit(d)
  {
    ScanRay(Ray(row + d.dr, col + d.dc, d), p, o, false)
  }

  /** The direction check holds exactly when the ray from the neighbour brackets opponent pieces. */
  lemma CheckDirectionBrackets(row: int, col: int, d: Dir, p: set<int>, o: set<int>)
    requires IsUnit(d)
    ensures CheckDirection(row, col, d, p, o) <==> Brackets(Ray(row + d.dr, col + d.dc, d), p, o)
  {
    ScanRayMeaning(Ray(row + d.dr, col + d.dc, d), p, o, false);
  }

  predicate AllUnits(dirs: seq<Dir>) {
    forall i :: 0 <= i < |dirs| ==> IsUnit(dirs[i])
  }

  /** The direction loop: true as soon as one direction captures. */
  function AnyDirection(row: int, col: int, dirs: seq<Dir>, p: set<int>, o: set<int>): bool
    requires AllUnits(dirs)
  {
    |dirs| > 0 && (CheckDirection(row, col, dirs[0], p, o) || AnyDirection(row, col, dirs[1..], p, o))
  }

  lemma {:induction false} AnyDirectionMeaning(row: int, col: int, dirs: seq<Dir>, p: set<int>, o: set<int>)
    requires AllUnits(dirs)
    ensures AnyDirection(row, col, dirs, p, o) <==>
            exists i :: 0 <= i < |dirs| && CheckDirection(row, col, dirs[i], p, o)
  {
    if |dirs| > 0 {
      AnyDirectionMeaning(row, col, dirs[1..], p, o);
      if AnyDirection(row, col, dirs[1..], p, o) {
        var i :| 0 <= i < |dirs[1..]| && CheckDirection(row, col, dirs[1..][i], p, o);
        assert dirs[1..][i] == dirs[i + 1];
      }
      if exists i :: 0 <= i < |dirs| && CheckDirection(row, col, dirs[i], p, o) {
        var i :| 0 <= i < |dirs| && CheckDirection(row, col, dirs[i], p, o);
        if i > 0 {
          assert dirs[1..][i - 1] == dirs[i];
        }
      }
    }
  }

  /** Whether a piece of the mover placed at `pos` captures in some direction. */
  function IsLegalMove(pos: int, p: set<int>, o: set<int>): bool {
    DirectionsAreUnits();
    AnyDirection(Row(pos), Col(pos), Directions, p, o)
  }

  predicate IsEmptySquare(x: int, p: set<int>, o: set<int>) {
    x !in p && x !in o
  }

  /** Every square of `pos..63` that is empty and legal, in increasing order. */
  function LegalFrom(p: set<int>, o: set<int>, pos: int): (moves: seq<int>)
    requires 0 <= pos <= 64
    ensures forall i :: 0 <= i < |moves| ==> pos <= moves[i] < 64
    ensures forall x :: x in moves <==> pos <= x < 64 && IsEmptySquare(x, p, o) && IsLegalMove(x, p, o)
    ensures forall i, j :: 0 <= i < j < |moves| ==> moves[i] < moves[j]
    ensures moves == [] <==> forall x :: pos <= x < 64 && IsEmptySquare(x, p, o) ==> !IsLegalMove(x, p, o)
    decreases 64 - pos
  {
    if pos == 64 then []
    else if IsEmptySquare(pos, p, o) && IsLegalMove(pos, p, o) then [pos] + LegalFrom(p, o, pos + 1)
    else LegalFrom(p, o, pos + 1)
  }

  /** The legal moves of the side to move, as a strictly ascending list. */
  function LegalMoves(s: BoardState): (moves: seq<int>)
    ensures forall i :: 0 <= i < |moves| ==> IsSquare(moves[i])
    ensures forall i, j :: 0 <= i < j < |moves| ==> moves[i] < moves[j]
    ensures forall x :: x in moves <==>
              IsSquare(x) && IsEmptySquare(x, Mover(s), Opponent(s)) && IsLegalMove(x, Mover(s), Opponent(s))
    ensures moves == [] <==>
              forall x :: IsSquare(x) && IsEmptySquare(x, Mover(s), Opponent(s)) ==> !IsLegalMove(x, Mover(s), Opponent(s))
  {
    LegalFrom(Mover(s), Opponent(s), 0)
  }

  /** A capture in direction d needs an opponent piece on the neighbouring square. */
  lemma CaptureNeedsAdjacentOpponent(row: int, col: int, d: Dir, p: set<int>, o: set<int>)
    requires IsUnit(d)
    ensures CheckDirection(row, col, d, p, o) ==>
              OnBoard(row + d.dr, col + d.dc) && Square(row + d.dr, col + d.dc) in o
  {
  }

  /** One capturing direction makes a square legal. */
  lemma LegalByDirection(x: int, p: set<int>, o: set<int>, i: int)
    requires 0 <= i < 8
    requires (DirectionsAreUnits(); CheckDirection(Row(x), Col(x), Directions[i], p, o))
    ensures IsLegalMove(x, p, o)
  {
    DirectionsAreUnits();
    AnyDirectionMeaning(Row(x), Col(x), Directions, p, o);
  }

  /** The neighbour of square x in the i-th direction lies on the board and belongs to `o`. */
  predicate NeighbourIn(x: int, i: int, o: set<int>)
    requires 0 <= i < 8
  {
    var d := Directions[i];
    OnBoard(Row(x) + d.dr, Col(x) + d.dc) && Square(Row(x) + d.dr, Col(x) + d.dc) in o
  }

  /** A legal square has an opponent piece on one of its eight neighbours. */
  lemma LegalNeedsAdjacentOpponent(x: int, p: set<int>, o: set<int>)
    requires 0 <= x < 64 && IsLegalMove(x, p, o)
    ensures exists i :: 0 <= i < 8 && NeighbourIn(x, i, o)
  {
    DirectionsAreUnits();
    AnyDirectionMeaning(Row(x), Col(x), Directions, p, o);
    var i :| 0 <= i < 8 && CheckDirection(Row(x), Col(x), Directions[i], p, o);
    CaptureNeedsAdjacentOpponent(Row(x), Col(x), Directions[i], p, o);
    assert NeighbourIn(x, i, o);
  }

  /**
   * A square is not legal when the only direction whose neighbouring
   * square holds an opponent piece, k, does not capture.
   */
  lemma NotLegalUnlessDirection(x: int, p: set<int>, o: set<int>, k: int)
    requires 0 <= x < 64 && 0 <= k < 8
    requires forall i :: 0 <= i < 8 && i != k ==> !NeighbourIn(x, i, o)
    requires (DirectionsAreUnits(); !CheckDirection(Row(x), Col(x), Directions[k], p, o))
    ensures !IsLegalMove(x, p, o)
  {
    DirectionsAreUnits();
    AnyDirectionMeaning(Row(x), Col(x), Directions, p, o);
    forall i | 0 <= i < 8 && i != k
      ensures !CheckDirection(Row(x), Col(x), Directions[i], p, o)
    {
      assert !NeighbourIn(x, i, o);
      CaptureNeedsAdjacentOpponent(Row(x), Col(x), Directions[i], p, o);
    }
  }

  /** A side with no piece on the board has no legal move (no piece can close a run). */
  lemma NoPiecesNoMoves(s: BoardState)
    requires forall x :: x in Mover(s) ==> !IsSquare(x)
    ensures LegalMoves(s) == []
  {
    var p, o := Mover(s), Opponent(s);
    forall x | IsSquare(x) && IsEmptySquare(x, p, o)
      ensures !IsLegalMove(x, p, o)
    {
      DirectionsAreUnits();
      AnyDirectionMeaning(Row(x), Col(x), Directions, p, o);
      forall i | 0 <= i < 8
        ensures !CheckDirection(Row(x), Col(x), Directions[i], p, o)
      {
        CheckDirectionBrackets(Row(x), Col(x), Directions[i], p, o);
      }
    }
  }

  /** Without an opponent piece on the board nothing can be bracketed, so there is no legal move. */
  lemma NoOpponentNoMoves(s: BoardState)
    requires forall x :: x in Opponent(s) ==> !IsSquare(x)
    ensures LegalMoves(s) == []
  {
    var p, o := Mover(s), Opponent(s);
    forall x | IsSquare(x) && IsEmptySquare(x, p, o)
      ensures !IsLegalMove(x, p, o)
    {
      DirectionsAreUnits();
      AnyDirectionMeaning(Row(x), Col(x), Directions, p, o);
      forall i | 0 <= i < 8
        ensures !CheckDirection(Row(x), Col(x), Directions[i], p, o)
      {
        CaptureNeedsAdjacentOpponent(Row(x), Col(x), Directions[i], p, o);
      }
    }
  }
}
