/**
 * Concrete positions: the legal moves of both sides at the start, captures
 * along a row, a column and a diagonal, the moves the transition refuses
 * at the start, and the first move of each side.
 */
module Scenarios {
  import opened Wrappers
  import opened Board
  import opened Geometry
  import opened MoveRules
  import opened Transition

  /** A run of k opponent pieces closed by a mover piece is captured: the scan accepts and flips exactly the run. */
  lemma RunCaptured(ray: seq<int>, p: set<int>, o: set<int>, k: nat)
    requires 1 <= k < |ray|
    requires forall j :: 0 <= j < k ==> ray[j] in o
    requires ray[k] !in o && ray[k] in p
    ensures ScanRay(ray, p, o, false)
    ensures FlipsRay(ray, p, o, []) == Elems(ray[..k])
  {
    ScanRayMeaning(ray, p, o, false);
    FlipsRayMeaning(ray, p, o, []);
    var n := RunLength(ray, o);
    assert n == k;
    assert Elems([]) == {};
  }

  /** A run of opponent pieces ended by an empty square (or by nothing) is not captured. */
  lemma RunOpen(ray: seq<int>, p: set<int>, o: set<int>, k: nat)
    requires k <= |ray|
    requires forall j :: 0 <= j < k ==> ray[j] in o
    requires k < |ray| ==> ray[k] !in o && ray[k] !in p
    ensures !ScanRay(ray, p, o, false)
  {
    ScanRayMeaning(ray, p, o, false);
    var n := RunLength(ray, o);
    assert n == k;
  }

  /** k steps of a unit component: k times the component, without multiplication. */
  function Steps(k: int, unit: int): int {
    if unit > 0 then k else if unit < 0 then -k else 0
  }

  /** The k-th square of a ray is k steps from its start, when that square is on the board. */
  lemma {:induction false} RaySquare(r: int, c: int, d: Dir, k: nat)
    requires IsUnit(d) && OnBoard(r, c) && OnBoard(r + Steps(k, d.dr), c + Steps(k, d.dc))
    ensures k < |Ray(r, c, d)| && Ray(r, c, d)[k] == Square(r + Steps(k, d.dr), c + Steps(k, d.dc))
    decreases k
  {
    var ray := Ray(r, c, d);
    assert ray == [Square(r, c)] + Ray(r + d.dr, c + d.dc, d);
    if k > 0 {
      RaySquare(r + d.dr, c + d.dc, d, k - 1);
      assert r + Steps(k, d.dr) == (r + d.dr) + Steps(k - 1, d.dr);
      assert c + Steps(k, d.dc) == (c + d.dc) + Steps(k - 1, d.dc);
    }
  }

  /** The ray scanned from square x in direction i. */
  function RayFrom(x: int, i: int): seq<int>
    requires 0 <= i < 8
  {
    DirectionsAreUnits();
    var d := Directions[i];
    Ray(Row(x) + d.dr, Col(x) + d.dc, d)
  }

  /** The k-th square of the ray from x in direction i, when it is on the board. */
  lemma RayFromSquare(x: int, i: int, k: nat)
    requires IsSquare(x) && 0 <= i < 8
    requires OnBoard(Row(x) + Steps(k + 1, Directions[i].dr), Col(x) + Steps(k + 1, Directions[i].dc))
    ensures k < |RayFrom(x, i)|
    ensures RayFrom(x, i)[k] == Square(Row(x) + Steps(k + 1, Directions[i].dr), Col(x) + Steps(k + 1, Directions[i].dc))
  {
    DirectionsAreUnits();
    var d := Directions[i];
    RaySquare(Row(x) + d.dr, Col(x) + d.dc, d, k);
  }

  /** An empty square where the side to move captures is among its legal moves. */
  lemma LegalMovesMember(s: BoardState, x: int)
    requires IsSquare(x) && IsEmptySquare(x, Mover(s), Opponent(s)) && IsLegalMove(x, Mover(s), Opponent(s))
    ensures x in LegalMoves(s)
  {
  }

  lemma LegalVia(x: int, i: int, p: set<int>, o: set<int>, k: nat)
    requires 0 <= i < 8
    requires var ray := RayFrom(x, i);
             && 1 <= k < |ray| && (forall j :: 0 <= j < k ==> ray[j] in o) && ray[k] !in o && ray[k] in p
    ensures IsLegalMove(x, p, o)
  {
    RunCaptured(RayFrom(x, i), p, o, k);
    LegalByDirection(x, p, o, i);
  }

  lemma {:induction false} UnionFlipsContains(row: int, col: int, dirs: seq<Dir>, p: set<int>, o: set<int>, i: int)
    requires AllUnits(dirs) && 0 <= i < |dirs|
    ensures FlipsInDirection(row, col, dirs[i], p, o) <= UnionFlips(row, col, dirs, p, o)
  {
    if i > 0 {
      UnionFlipsContains(row, col, dirs[1..], p, o, i - 1);
      assert dirs[1..][i - 1] == dirs[i];
    }
  }

  /** The opponent run closed in direction i is among the pieces a placement at x turns over. */
  lemma FlipsVia(x: int, i: int, p: set<int>, o: set<int>, k: nat)
    requires 0 <= i < 8
    requires var ray := RayFrom(x, i);
             && 1 <= k < |ray| && (forall j :: 0 <= j < k ==> ray[j] in o) && ray[k] !in o && ray[k] in p
    ensures Elems(RayFrom(x, i)[..k]) <= FlipsMask(x, p, o)
  {
    RunCaptured(RayFrom(x, i), p, o, k);
    DirectionsAreUnits();
    UnionFlipsContains(Row(x), Col(x), Directions, p, o, i);
  }

  /** A neighbour on the board of square x in direction i is the square x + 8 dr + dc. */
  lemma NeighbourIndex(x: int, i: int, o: set<int>)
    requires IsSquare(x) && 0 <= i < 8
    ensures NeighbourIn(x, i, o) ==> x + 8 * Directions[i].dr + Directions[i].dc in o
  {
    CoordinatesOfSquare(x);
  }

  /**
   * A square whose only neighbouring opponent piece lies in direction i,
   * where the opponent run is not closed by a mover piece, is not legal.
   */
  lemma IllegalVia(x: int, i: int, p: set<int>, o: set<int>, k: nat)
    requires IsSquare(x) && 0 <= i < 8
    requires forall j :: 0 <= j < 8 && j != i ==> x + 8 * Directions[j].dr + Directions[j].dc !in o
    requires var ray := RayFrom(x, i);
             && k <= |ray| && (forall j :: 0 <= j < k ==> ray[j] in o) && (k < |ray| ==> ray[k] !in o && ray[k] !in p)
    ensures !IsLegalMove(x, p, o)
  {
    RunOpen(RayFrom(x, i), p, o, k);
    forall j | 0 <= j < 8 && j != i
      ensures !NeighbourIn(x, j, o)
    {
      NeighbourIndex(x, j, o);
    }
    NotLegalUnlessDirection(x, p, o, i);
  }

  lemma BlackCaptures19(x: int, p: set<int>, o: set<int>)
    requires x == 19 && p == DefaultBlack && o == DefaultWhite
    ensures IsLegalMove(x, p, o)
  {
    RayFromSquare(x, 4, 0);
    RayFromSquare(x, 4, 1);
    LegalVia(x, 4, p, o, 1);
  }

  lemma BlackLegal19(s: BoardState, x: int)
    requires s.black == DefaultBlack && s.white == DefaultWhite && s.next == Black
    requires x == 19
    ensures x in LegalMoves(s)
  {
    BlackCaptures19(x, Mover(s), Opponent(s));
    LegalMovesMember(s, x);
  }

  lemma BlackCaptures26(x: int, p: set<int>, o: set<int>)
    requires x == 26 && p == DefaultBlack && o == DefaultWhite
    ensures IsLegalMove(x, p, o)
  {
    RayFromSquare(x, 2, 0);
    RayFromSquare(x, 2, 1);
    LegalVia(x, 2, p, o, 1);
  }

  lemma BlackLegal26(s: BoardState, x: int)
    requires s.black == DefaultBlack && s.white == DefaultWhite && s.next == Black
    requires x == 26
    ensures x in LegalMoves(s)
  {
    BlackCaptures26(x, Mover(s), Opponent(s));
    LegalMovesMember(s, x);
  }

  lemma BlackCaptures37(x: int, p: set<int>, o: set<int>)
    requires x == 37 && p == DefaultBlack && o == DefaultWhite
    ensures IsLegalMove(x, p, o)
  {
    RayFromSquare(x, 6, 0);
    RayFromSquare(x, 6, 1);
    LegalVia(x, 6, p, o, 1);
  }

  lemma BlackLegal37(s: BoardState, x: int)
    requires s.black == DefaultBlack && s.white == DefaultWhite && s.next == Black
    requires x == 37
    ensures x in LegalMoves(s)
  {
    BlackCaptures37(x, Mover(s), Opponent(s));
    LegalMovesMember(s, x);
  }

  lemma BlackCaptures44(x: int, p: set<int>, o: set<int>)
    requires x == 44 && p == DefaultBlack && o == DefaultWhite
    ensures IsLegalMove(x, p, o)
  {
    RayFromSquare(x, 0, 0);
    RayFromSquare(x, 0, 1);
    LegalVia(x, 0, p, o, 1);
  }

  lemma BlackLegal44(s: BoardState, x: int)
    requires s.black == DefaultBlack && s.white == DefaultWhite && s.next == Black
    requires x == 44
    ensures x in LegalMoves(s)
  {
    BlackCaptures44(x, Mover(s), Opponent(s));
    LegalMovesMember(s, x);
  }

  lemma BlackIllegal18(x: int, p: set<int>, o: set<int>)
    requires p == DefaultBlack && o == DefaultWhite
    ensures x == 18 ==> !IsLegalMove(x, p, o)
  {
    if x == 18 {
      RayFromSquare(x, 3, 0);
      RayFromSquare(x, 3, 1);
      RayFromSquare(x, 3, 2);
      IllegalVia(x, 3, p, o, 2);
    }
  }

  lemma BlackIllegal20(x: int, p: set<int>, o: set<int>)
    requires p == DefaultBlack && o == DefaultWhite
    ensures x == 20 ==> !IsLegalMove(x, p, o)
  {
    if x == 20 {
      RayFromSquare(x, 5, 0);
      RayFromSquare(x, 5, 1);
      IllegalVia(x, 5, p, o, 1);
    }
  }

  lemma BlackIllegal29(x: int, p: set<int>, o: set<int>)
    requires p == DefaultBlack && o == DefaultWhite
    ensures x == 29 ==> !IsLegalMove(x, p, o)
  {
    if x == 29 {
      RayFromSquare(x, 5, 0);
      RayFromSquare(x, 5, 1);
      IllegalVia(x, 5, p, o, 1);
    }
  }

  lemma BlackIllegal34(x: int, p: set<int>, o: set<int>)
    requires p == DefaultBlack && o == DefaultWhite
    ensures x == 34 ==> !IsLegalMove(x, p, o)
  {
    if x == 34 {
      RayFromSquare(x, 1, 0);
      RayFromSquare(x, 1, 1);
      IllegalVia(x, 1, p, o, 1);
    }
  }

  lemma BlackIllegal43(x: int, p: set<int>, o: set<int>)
    requires p == DefaultBlack && o == DefaultWhite
    ensures x == 43 ==> !IsLegalMove(x, p, o)
  {
    if x == 43 {
      RayFromSquare(x, 1, 0);
      RayFromSquare(x, 1, 1);
      IllegalVia(x, 1, p, o, 1);
    }
  }

  lemma BlackIllegal45(x: int, p: set<int>, o: set<int>)
    requires p == DefaultBlack && o == DefaultWhite
    ensures x == 45 ==> !IsLegalMove(x, p, o)
  {
    if x == 45 {
      RayFromSquare(x, 7, 0);
      RayFromSquare(x, 7, 1);
      RayFromSquare(x, 7, 2);
      IllegalVia(x, 7, p, o, 2);
    }
  }

  lemma WhiteCaptures20(x: int, p: set<int>, o: set<int>)
    requires x == 20 && p == DefaultWhite && o == DefaultBlack
    ensures IsLegalMove(x, p, o)
  {
    RayFromSquare(x, 4, 0);
    RayFromSquare(x, 4, 1);
    LegalVia(x, 4, p, o, 1);
  }

  lemma WhiteLegal20(s: BoardState, x: int)
    requires s.black == DefaultBlack && s.white == DefaultWhite && s.next == White
    requires x == 20
    ensures x in LegalMoves(s)
  {
    WhiteCaptures20(x, Mover(s), Opponent(s));
    LegalMovesMember(s, x);
  }

  lemma WhiteCaptures29(x: int, p: set<int>, o: set<int>)
    requires x == 29 && p == DefaultWhite && o == DefaultBlack
    ensures IsLegalMove(x, p, o)
  {
    RayFromSquare(x, 6, 0);
    RayFromSquare(x, 6, 1);
    LegalVia(x, 6, p, o, 1);
  }

  lemma WhiteLegal29(s: BoardState, x: int)
    requires s.black == DefaultBlack && s.white == DefaultWhite && s.next == White
    requires x == 29
    ensures x in LegalMoves(s)
  {
    WhiteCaptures29(x, Mover(s), Opponent(s));
    LegalMovesMember(s, x);
  }

  lemma WhiteCaptures34(x: int, p: set<int>, o: set<int>)
    requires x == 34 && p == DefaultWhite && o == DefaultBlack
    ensures IsLegalMove(x, p, o)
  {
    RayFromSquare(x, 2, 0);
    RayFromSquare(x, 2, 1);
    LegalVia(x, 2, p, o, 1);
  }

  lemma WhiteLegal34(s: BoardState, x: int)
    requires s.black == DefaultBlack && s.white == DefaultWhite && s.next == White
    requires x == 34
    ensures x in LegalMoves(s)
  {
    WhiteCaptures34(x, Mover(s), Opponent(s));
    LegalMovesMember(s, x);
  }

  lemma WhiteCaptures43(x: int, p: set<int>, o: set<int>)
    requires x == 43 && p == DefaultWhite && o == DefaultBlack
    ensures IsLegalMove(x, p, o)
  {
    RayFromSquare(x, 0, 0);
    RayFromSquare(x, 0, 1);
    LegalVia(x, 0, p, o, 1);
  }

  lemma WhiteLegal43(s: BoardState, x: int)
    requires s.black == DefaultBlack && s.white == DefaultWhite && s.next == White
    requires x == 43
    ensures x in LegalMoves(s)
  {
    WhiteCaptures43(x, Mover(s), Opponent(s));
    LegalMovesMember(s, x);
  }

  lemma WhiteIllegal19(x: int, p: set<int>, o: set<int>)
    requires p == DefaultWhite && o == DefaultBlack
    ensures x == 19 ==> !IsLegalMove(x, p, o)
  {
    if x == 19 {
      RayFromSquare(x, 3, 0);
      RayFromSquare(x, 3, 1);
      IllegalVia(x, 3, p, o, 1);
    }
  }

  lemma WhiteIllegal21(x: int, p: set<int>, o: set<int>)
    requires p == DefaultWhite && o == DefaultBlack
    ensures x == 21 ==> !IsLegalMove(x, p, o)
  {
    if x == 21 {
      RayFromSquare(x, 5, 0);
      RayFromSquare(x, 5, 1);
      RayFromSquare(x, 5, 2);
      IllegalVia(x, 5, p, o, 2);
    }
  }

  lemma WhiteIllegal37(x: int, p: set<int>, o: set<int>)
    requires p == DefaultWhite && o == DefaultBlack
    ensures x == 37 ==> !IsLegalMove(x, p, o)
  {
    if x == 37 {
      RayFromSquare(x, 7, 0);
      RayFromSquare(x, 7, 1);
      IllegalVia(x, 7, p, o, 1);
    }
  }

  lemma WhiteIllegal26(x: int, p: set<int>, o: set<int>)
    requires p == DefaultWhite && o == DefaultBlack
    ensures x == 26 ==> !IsLegalMove(x, p, o)
  {
    if x == 26 {
      RayFromSquare(x, 3, 0);
      RayFromSquare(x, 3, 1);
      IllegalVia(x, 3, p, o, 1);
    }
  }

  lemma WhiteIllegal42(x: int, p: set<int>, o: set<int>)
    requires p == DefaultWhite && o == DefaultBlack
    ensures x == 42 ==> !IsLegalMove(x, p, o)
  {
    if x == 42 {
      RayFromSquare(x, 1, 0);
      RayFromSquare(x, 1, 1);
      RayFromSquare(x, 1, 2);
      IllegalVia(x, 1, p, o, 2);
    }
  }

  lemma WhiteIllegal44(x: int, p: set<int>, o: set<int>)
    requires p == DefaultWhite && o == DefaultBlack
    ensures x == 44 ==> !IsLegalMove(x, p, o)
  {
    if x == 44 {
      RayFromSquare(x, 7, 0);
      RayFromSquare(x, 7, 1);
      IllegalVia(x, 7, p, o, 1);
    }
  }

  /** The squares next to a piece of `o`. */
  predicate Adjacent(x: int, o: set<int>) {
    exists i :: 0 <= i < 8 && x + 8 * Directions[i].dr + Directions[i].dc in o
  }

  lemma AdjacentToPair(x: int, o: set<int>, a: int, b: int)
    requires o == {a, b} && Adjacent(x, o)
    ensures x - a in {8, 7, -1, -9, -8, -7, 1, 9} || x - b in {8, 7, -1, -9, -8, -7, 1, 9}
  {
  }

  /** The only squares black can play at the start are d3, c4, f5 and e6. */
  lemma BlackStartOnly(x: int, p: set<int>, o: set<int>)
    requires p == DefaultBlack && o == DefaultWhite
    requires IsSquare(x) && IsEmptySquare(x, p, o) && IsLegalMove(x, p, o)
    ensures x == 19 || x == 26 || x == 37 || x == 44
  {
    LegalNeedsAdjacentOpponent(x, p, o);
    var i :| 0 <= i < 8 && NeighbourIn(x, i, o);
    NeighbourIndex(x, i, o);
    AdjacentToPair(x, o, 27, 36);
    BlackIllegal18(x, p, o);
    BlackIllegal20(x, p, o);
    BlackIllegal29(x, p, o);
    BlackIllegal34(x, p, o);
    BlackIllegal43(x, p, o);
    BlackIllegal45(x, p, o);
  }

  /** The only squares white can play on the starting board are e3, f4, c5 and d6. */
  lemma WhiteStartOnly(x: int, p: set<int>, o: set<int>)
    requires p == DefaultWhite && o == DefaultBlack
    requires IsSquare(x) && IsEmptySquare(x, p, o) && IsLegalMove(x, p, o)
    ensures x == 20 || x == 29 || x == 34 || x == 43
  {
    LegalNeedsAdjacentOpponent(x, p, o);
    var i :| 0 <= i < 8 && NeighbourIn(x, i, o);
    NeighbourIndex(x, i, o);
    AdjacentToPair(x, o, 28, 35);
    WhiteIllegal19(x, p, o);
    WhiteIllegal21(x, p, o);
    WhiteIllegal26(x, p, o);
    WhiteIllegal37(x, p, o);
    WhiteIllegal42(x, p, o);
    WhiteIllegal44(x, p, o);
  }

  /** On the starting board with black to move, black may play exactly d3, c4, f5 and e6. */
  lemma BlackMovesAtStart(s: BoardState)
    requires s.black == DefaultBlack && s.white == DefaultWhite && s.next == Black
    ensures forall x :: x in LegalMoves(s) <==> x in {19, 26, 37, 44}
  {
    var p, o := Mover(s), Opponent(s);
    assert p == DefaultBlack && o == DefaultWhite;
    forall x | x in LegalMoves(s)
      ensures x in {19, 26, 37, 44}
    {
      BlackStartOnly(x, p, o);
    }
    BlackLegal19(s, 19);
    BlackLegal26(s, 26);
    BlackLegal37(s, 37);
    BlackLegal44(s, 44);
  }

  /** On the default board black may play exactly d3, c4, f5 and e6. */
  lemma BlackStartMoves(user: string, freshId: string)
    ensures forall x :: x in LegalMoves(Initial(user, freshId)) <==> x in {19, 26, 37, 44}
  {
    BlackMovesAtStart(Initial(user, freshId));
  }

  /** With white to move on the starting board, white may play exactly e3, f4, c5 and d6. */
  lemma WhiteStartMoves(s: BoardState)
    requires s.black == DefaultBlack && s.white == DefaultWhite && s.next == White
    ensures forall x :: x in LegalMoves(s) <==> x in {20, 29, 34, 43}
  {
    var p, o := Mover(s), Opponent(s);
    assert p == DefaultWhite && o == DefaultBlack;
    forall x | x in LegalMoves(s)
      ensures x in {20, 29, 34, 43}
    {
      WhiteStartOnly(x, p, o);
    }
    WhiteLegal20(s, 20);
    WhiteLegal29(s, 29);
    WhiteLegal34(s, 34);
    WhiteLegal43(s, 43);
  }

  /**
   * With the centre colours swapped (black on d4 and e5, white on e4 and
   * d5) and black to move, black has exactly the moves white has at the
   * start: the legal moves depend only on whose pieces are whose.
   */
  lemma SwappedStartMoves(s: BoardState)
    requires s.black == {27, 36} && s.white == {28, 35} && s.next == Black
    ensures LegalMoves(s) != []
    ensures forall x :: x in LegalMoves(s) <==> x in {20, 29, 34, 43}
  {
    var t := s.(black := DefaultBlack, white := DefaultWhite, next := White);
    assert Mover(s) == Mover(t) && Opponent(s) == Opponent(t);
    assert LegalMoves(s) == LegalMoves(t);
    WhiteStartMoves(t);
    assert 20 in LegalMoves(s);
  }

  /** Black on a1 and c1 with no white piece: b1, between two black pieces, is not a legal move, nor is any other. */
  lemma OwnPiecesOnly(s: BoardState)
    requires s.black == {0, 2} && s.white == {} && s.next == Black
    ensures 1 !in LegalMoves(s) && LegalMoves(s) == []
  {
    NoOpponentNoMoves(s);
  }

  /** On the top row, black on a1 and white on b1: black may play c1. */
  lemma HorizontalCapture(s: BoardState, x: int)
    requires s.black == {0} && s.white == {1} && s.next == Black && x == 2
    ensures x in LegalMoves(s)
  {
    var p, o := Mover(s), Opponent(s);
    RayFromSquare(x, 6, 0);
    RayFromSquare(x, 6, 1);
    LegalVia(x, 6, p, o, 1);
    LegalMovesMember(s, x);
  }

  /** One opponent piece and then a mover piece along the ray from x in direction i: that piece is flipped. */
  lemma CapturesOneFlips(x: int, i: int, p: set<int>, o: set<int>)
    requires 0 <= i < 8
    requires var ray := RayFrom(x, i); |ray| >= 2 && ray[0] in o && ray[1] !in o && ray[1] in p
    ensures RayFrom(x, i)[0] in FlipsMask(x, p, o)
  {
    var ray := RayFrom(x, i);
    FlipsVia(x, i, p, o, 1);
    assert ray[..1] == [ray[0]];
  }

  lemma HorizontalFlips(x: int, p: set<int>, o: set<int>)
    requires x == 2 && p == {0} && o == {1}
    ensures 1 in FlipsMask(x, p, o)
  {
    RayFromSquare(x, 6, 0);
    RayFromSquare(x, 6, 1);
    CapturesOneFlips(x, 6, p, o);
  }

  /** The board after a legal placement whose flips are `f`. */
  lemma PlayWith(s: BoardState, m: int, f: set<int>)
    requires m in LegalMoves(s) && FlipsMask(m, Mover(s), Opponent(s)) == f
    ensures Opponent(Play(s, m)) == Mover(s) + f + {m} && Mover(Play(s, m)) == Opponent(s) - f
    ensures Play(s, m).next == Toggle(s.next)
  {
  }

  /** Flips drawn from a single opponent piece that include it are exactly that piece. */
  lemma OnlyFlip(f: set<int>, o: set<int>, y: int)
    requires f <= o && o == {y} && y in f
    ensures f == {y}
  {
  }

  /** Black's c1 there turns b1 over: black then holds a1, b1 and c1, and white nothing. */
  lemma HorizontalPlay(s: BoardState, x: int)
    requires s.black == {0} && s.white == {1} && s.next == Black && x == 2
    ensures x in LegalMoves(s)
    ensures (LegalMovesMember(s, x); Play(s, x).black == {0, 1, 2} && Play(s, x).white == {})
  {
    HorizontalCapture(s, x);
    var p, o := Mover(s), Opponent(s);
    HorizontalFlips(x, p, o);
    var f := FlipsMask(x, p, o);
    FlipsMaskMeaning(x, p, o);
    OnlyFlip(f, o, 1);
    PlayWith(s, x, {1});
  }

  /** Black on a1 and white on a2: black may play a3, capturing northwards. */
  lemma VerticalCapture(s: BoardState, x: int)
    requires s.black == {0} && s.white == {8} && s.next == Black && x == 16
    ensures x in LegalMoves(s)
  {
    var p, o := Mover(s), Opponent(s);
    RayFromSquare(x, 0, 0);
    RayFromSquare(x, 0, 1);
    LegalVia(x, 0, p, o, 1);
    LegalMovesMember(s, x);
  }

  /** Black on a1 and white on b2: black may play c3, capturing north-west. */
  lemma DiagonalCapture(s: BoardState, x: int)
    requires s.black == {0} && s.white == {9} && s.next == Black && x == 18
    ensures x in LegalMoves(s)
  {
    var p, o := Mover(s), Opponent(s);
    RayFromSquare(x, 7, 0);
    RayFromSquare(x, 7, 1);
    LegalVia(x, 7, p, o, 1);
    LegalMovesMember(s, x);
  }

  /** Black on a3 and white on a2: black may play a1, capturing southwards. */
  lemma SouthwardCapture(s: BoardState, x: int)
    requires s.black == {16} && s.white == {8} && s.next == Black && x == 0
    ensures x in LegalMoves(s)
  {
    var p, o := Mover(s), Opponent(s);
    RayFromSquare(x, 4, 0);
    RayFromSquare(x, 4, 1);
    LegalVia(x, 4, p, o, 1);
    LegalMovesMember(s, x);
  }

  /** On the default board the corner a1 is refused as illegal, and -1 and 64 as out of range. */
  lemma StartRejects(user: string, freshId: string)
    ensures MakeMove(Some(0), Initial(user, freshId)) == Err(IllegalMove)
    ensures MakeMove(Some(-1), Initial(user, freshId)) == Err(OutOfRange)
    ensures MakeMove(Some(64), Initial(user, freshId)) == Err(OutOfRange)
  {
    BlackStartMoves(user, freshId);
  }

  /** After a legal move the placed piece and every flipped piece belong to the side that moved. */
  lemma PlayTakes(s: BoardState, m: int, y: int)
    requires m in LegalMoves(s) && y in FlipsMask(m, Mover(s), Opponent(s))
    ensures m in Opponent(Play(s, m)) && y in Opponent(Play(s, m)) && y !in Mover(Play(s, m))
    ensures Play(s, m).next == Toggle(s.next)
  {
  }

  /** The ray west of d1 runs over c1, b1 and a1. */
  lemma WestOfD1(x: int)
    requires x == 3
    ensures |RayFrom(x, 6)| >= 3 && RayFrom(x, 6)[0] == 2 && RayFrom(x, 6)[1] == 1 && RayFrom(x, 6)[2] == 0
  {
    RayFromSquare(x, 6, 0);
    RayFromSquare(x, 6, 1);
    RayFromSquare(x, 6, 2);
  }

  /** Two opponent pieces and then a mover piece along a ray. */
  predicate CapturesTwo(ray: seq<int>, p: set<int>, o: set<int>) {
    |ray| >= 3 && ray[0] in o && ray[1] in o && ray[2] !in o && ray[2] in p
  }

  lemma CapturesTwoFlips(x: int, i: int, p: set<int>, o: set<int>)
    requires 0 <= i < 8 && CapturesTwo(RayFrom(x, i), p, o)
    ensures IsLegalMove(x, p, o)
    ensures RayFrom(x, i)[0] in FlipsMask(x, p, o) && RayFrom(x, i)[1] in FlipsMask(x, p, o)
  {
    var ray := RayFrom(x, i);
    LegalVia(x, i, p, o, 2);
    FlipsVia(x, i, p, o, 2);
    assert ray[0] in Elems(ray[..2]) && ray[1] in Elems(ray[..2]);
  }

  /** Black on a1, white on b1 and c1: a black piece on d1 captures both white pieces. */
  lemma RunCaptures(x: int, p: set<int>, o: set<int>)
    requires x == 3 && p == {0} && o == {1, 2}
    ensures IsLegalMove(x, p, o) && 1 in FlipsMask(x, p, o) && 2 in FlipsMask(x, p, o)
  {
    WestOfD1(x);
    CapturesTwoFlips(x, 6, p, o);
  }

  /** On the top row, black on a1 and white on b1 and c1: black may play d1, turning both white pieces over. */
  lemma RunCapture(s: BoardState, x: int)
    requires s.black == {0} && s.white == {1, 2} && s.next == Black && x == 3
    ensures x in LegalMoves(s)
    ensures (LegalMovesMember(s, x); 1 in Play(s, x).black && 2 in Play(s, x).black && 1 !in Play(s, x).white && 2 !in Play(s, x).white)
  {
    RunCaptures(x, Mover(s), Opponent(s));
    LegalMovesMember(s, x);
    PlayTakes(s, x, 1);
    PlayTakes(s, x, 2);
  }

  lemma BlackFlips19(x: int, p: set<int>, o: set<int>)
    requires x == 19 && p == DefaultBlack && o == DefaultWhite
    ensures 27 in FlipsMask(x, p, o)
  {
    RayFromSquare(x, 4, 0);
    RayFromSquare(x, 4, 1);
    FlipsVia(x, 4, p, o, 1);
    assert RayFrom(x, 4)[..1] == [27];
  }

  lemma WhiteFlips20(x: int, p: set<int>, o: set<int>)
    requires x == 20 && p == DefaultWhite && o == DefaultBlack
    ensures 28 in FlipsMask(x, p, o)
  {
    RayFromSquare(x, 4, 0);
    RayFromSquare(x, 4, 1);
    FlipsVia(x, 4, p, o, 1);
    assert RayFrom(x, 4)[..1] == [28];
  }

  /** Black's opening d3 turns white's d4 over: black then holds d3 and d4, white no longer d4, and white is to move. */
  lemma BlackOpeningFrom(s: BoardState, x: int)
    requires s.black == DefaultBlack && s.white == DefaultWhite && s.next == Black && x == 19
    ensures x in LegalMoves(s)
    ensures (BlackLegal19(s, x); var t := Play(s, x); x in t.black && 27 in t.black && 27 !in t.white && t.next == White)
  {
    BlackLegal19(s, x);
    BlackFlips19(x, Mover(s), Opponent(s));
    PlayTakes(s, x, 27);
  }

  /** On the default board black's opening d3 turns white's d4 over, and white is to move. */
  lemma BlackOpening(user: string, freshId: string)
    ensures 19 in LegalMoves(Initial(user, freshId))
    ensures (BlackStartMoves(user, freshId); var t := Play(Initial(user, freshId), 19);
             19 in t.black && 27 in t.black && 27 !in t.white && t.next == White)
  {
    BlackOpeningFrom(Initial(user, freshId), 19);
  }

  /** White's opening e3 (with white to move) turns black's e4 over. */
  lemma WhiteOpening(s: BoardState, x: int)
    requires s.black == DefaultBlack && s.white == DefaultWhite && s.next == White && x == 20
    ensures x in LegalMoves(s)
    ensures (WhiteLegal20(s, x); var t := Play(s, x); x in t.white && 28 in t.white && 28 !in t.black && t.next == Black)
  {
    WhiteLegal20(s, x);
    WhiteFlips20(x, Mover(s), Opponent(s));
    PlayTakes(s, x, 28);
  }
}
