/**
 * Move application: a pass, or a legal placement that turns every
 * bracketed opponent piece over.
 */
module Transition {
  import opened Wrappers
  import opened Board
  import opened Geometry
  import opened MoveRules

  /** The two ways the transition can refuse a square; make_move raises ValueError for both. */
  datatype MoveError = OutOfRange | IllegalMove

  function Elems(path: seq<int>): set<int> {
    set x | x in path
  }

  /**
   * The flip scan along a ray: opponent pieces are collected on `path`
   * (opponent membership is checked first); a mover piece ends the scan and
   * yields the collected pieces; an empty square or the board edge yields
   * nothing.
   */
  function FlipsRay(ray: seq<int>, p: set<int>, o: set<int>, path: seq<int>): set<int> {
    if |ray| == 0 then {}
    else if ray[0] in o then FlipsRay(ray[1..], p, o, path + [ray[0]])
    else if ray[0] in p then (if |path| > 0 then Elems(path) else {})
    else {}
  }

  lemma {:induction false} FlipsRayMeaning(ray: seq<int>, p: set<int>, o: set<int>, path: seq<int>)
    ensures FlipsRay(ray, p, o, path) ==
            (var k := RunLength(ray, o);
             if k < |ray| && ray[k] in p && (|path| > 0 || k >= 1) then Elems(path) + Elems(ray[..k]) else {})
  {
    if |ray| > 0 && ray[0] in o {
      FlipsRayMeaning(ray[1..], p, o, path + [ray[0]]);
      var k := RunLength(ray, o);
      assert k == 1 + RunLength(ray[1..], o);
      assert ray[1..][..k - 1] == ray[1..k];
      assert Elems(path + [ray[0]]) + Elems(ray[1..k]) == Elems(path) + Elems(ray[..k]) by {
        assert ray[..k] == [ray[0]] + ray[1..k];
      }
    } else if |ray| > 0 {
      assert ray[..0] == [];
      assert Elems(ray[..0]) == {};
    }
  }

  /** From an empty path, a ray flips its bracketed run of opponent pieces and nothing otherwise. */
  lemma FlipsRayBrackets(ray: seq<int>, p: set<int>, o: set<int>)
    ensures FlipsRay(ray, p, o, []) == if Brackets(ray, p, o) then Elems(ray[..RunLength(ray, o)]) else {}
    ensures FlipsRay(ray, p, o, []) != {} <==> Brackets(ray, p, o)
    ensures FlipsRay(ray, p, o, []) <= o
    ensures forall x :: x in FlipsRay(ray, p, o, []) ==> x in ray
  {
    FlipsRayMeaning(ray, p, o, []);
    var k := RunLength(ray, o);
    assert Elems([]) == {};
    if Brackets(ray, p, o) {
      assert ray[0] in Elems(ray[..k]);
    }
  }

  /** The pieces a placement at (row, col) turns over in direction d. */
  function FlipsInDirection(row: int, col: int, d: Dir, p: set<int>, o: set<int>): set<int>
    requires IsUnit(d)
  {
    FlipsRay(Ray(row + d.dr, col + d.dc, d), p, o, [])
  }

  /**
   * A direction flips something exactly when the legality check accepts
   * it, and what it flips is the bracketed run: opponent pieces on the ray.
   */
  lemma FlipsInDirectionMeaning(row: int, col: int, d: Dir, p: set<int>, o: set<int>)
    requires IsUnit(d)
    ensures FlipsInDirection(row, col, d, p, o) != {} <==> CheckDirection(row, col, d, p, o)
    ensures FlipsInDirection(row, col, d, p, o) <= o
    ensures forall x :: x in FlipsInDirection(row, col, d, p, o) ==> x in Ray(row + d.dr, col + d.dc, d)
  {
    var ray := Ray(row + d.dr, col + d.dc, d);
    assert FlipsInDirection(row, col, d, p, o) == FlipsRay(ray, p, o, []);
    FlipsRayBrackets(ray, p, o);
    CheckDirectionBrackets(row, col, d, p, o);
  }

  /** The direction loop of the flip computation: the union over `dirs`. */
  function UnionFlips(row: int, col: int, dirs: seq<Dir>, p: set<int>, o: set<int>): set<int>
    requires AllUnits(dirs)
  {
    if |dirs| == 0 then {}
    else FlipsInDirection(row, col, dirs[0], p, o) + UnionFlips(row, col, dirs[1..], p, o)
  }

  lemma {:induction false} UnionFlipsMeaning(x: int, dirs: seq<Dir>, p: set<int>, o: set<int>)
    requires 0 <= x < 64 && AllUnits(dirs)
    ensures UnionFlips(Row(x), Col(x), dirs, p, o) != {} <==> AnyDirection(Row(x), Col(x), dirs, p, o)
    ensures UnionFlips(Row(x), Col(x), dirs, p, o) <= o
    ensures x !in UnionFlips(Row(x), Col(x), dirs, p, o)
  {
    if |dirs| > 0 {
      var head := FlipsInDirection(Row(x), Col(x), dirs[0], p, o);
      var tail := UnionFlips(Row(x), Col(x), dirs[1..], p, o);
      assert UnionFlips(Row(x), Col(x), dirs, p, o) == head + tail;
      FlipsInDirectionMeaning(Row(x), Col(x), dirs[0], p, o);
      RayAvoidsOrigin(x, dirs[0]);
      assert x !in head;
      UnionFlipsMeaning(x, dirs[1..], p, o);
    }
  }

  /** Every opponent piece that a placement at `pos` turns over. */
  function FlipsMask(pos: int, p: set<int>, o: set<int>): set<int> {
    DirectionsAreUnits();
    UnionFlips(Row(pos), Col(pos), Directions, p, o)
  }

  /**
   * The flip mask agrees with the legality scan: it is non-empty exactly
   * for legal squares; it only holds opponent pieces and never the placed
   * square.
   */
  lemma FlipsMaskMeaning(pos: int, p: set<int>, o: set<int>)
    requires 0 <= pos < 64
    ensures FlipsMask(pos, p, o) != {} <==> IsLegalMove(pos, p, o)
    ensures FlipsMask(pos, p, o) <= o
    ensures pos !in FlipsMask(pos, p, o)
  {
    DirectionsAreUnits();
    UnionFlipsMeaning(pos, Directions, p, o);
  }

  /**
   * Apply a move: `None` passes, a square outside 0..63 or one that is not
   * among the legal moves is refused; otherwise the placed piece and the
   * flipped pieces join the mover, the flipped pieces leave the opponent,
   * and the other side is to move.
   */
  function MakeMove(move: Option<int>, s: BoardState): (r: Result<BoardState, MoveError>)
    ensures move.None? ==> r == Ok(Toggled(s))
    ensures move.Some? && !IsSquare(move.value) ==> r == Err(OutOfRange)
    ensures move.Some? && IsSquare(move.value) && move.value !in LegalMoves(s) ==> r == Err(IllegalMove)
    ensures r.Ok? <==> move.None? || move.value in LegalMoves(s)
    ensures move.Some? && r.Ok? ==>
              var f := FlipsMask(move.value, Mover(s), Opponent(s));
              && f != {} && f <= Opponent(s) && move.value !in f
              && Opponent(r.value) == Mover(s) + f + {move.value}
              && Mover(r.value) == Opponent(s) - f
    ensures r.Ok? ==> r.value.next == Toggle(s.next) && r.value.user == s.user && r.value.sessionId == s.sessionId
  {
    match move
    case None => Ok(Toggled(s))
    case Some(m) =>
      if !(0 <= m <= 63) then Err(OutOfRange)
      else if m !in LegalMoves(s) then Err(IllegalMove)
      else
        var p, o := Mover(s), Opponent(s);
        FlipsMaskMeaning(m, p, o);
        var flips := FlipsMask(m, p, o);
        Ok(AfterTurn(s, p + flips + {m}, o - flips))
  }

  /** The board after a legal placement. */
  function Play(s: BoardState, m: int): (t: BoardState)
    requires m in LegalMoves(s)
    ensures MakeMove(Some(m), s) == Ok(t)
  {
    MakeMove(Some(m), s).value
  }

  /** A pass changes only the side to move, so two passes restore the board. */
  lemma PassTwiceRestores(s: BoardState)
    ensures MakeMove(None, s).Ok?
    ensures MakeMove(None, MakeMove(None, s).value) == Ok(s)
  {
  }

  /** A placement fills exactly one previously empty square; no other square changes occupancy. */
  lemma PlayOccupiesOneSquare(s: BoardState, m: int)
    requires m in LegalMoves(s)
    ensures m !in s.black + s.white
    ensures Play(s, m).black + Play(s, m).white == s.black + s.white + {m}
  {
  }

  /** A legal move keeps the masks disjoint and on the board. */
  lemma PlayPreservesValid(s: BoardState, m: int)
    requires Valid(s) && m in LegalMoves(s)
    ensures Valid(Play(s, m))
  {
    var t := Play(s, m);
    assert t.black + t.white == s.black + s.white + {m};
    assert Mover(t) !! Opponent(t);
  }

  /**
   * On a valid board a legal move adds exactly one piece: the mover gains
   * the placed piece plus the flipped ones, the opponent loses the flipped
   * ones, and at least one piece is flipped.
   */
  lemma PlayCounts(s: BoardState, m: int)
    requires Valid(s) && m in LegalMoves(s)
    ensures var f := FlipsMask(m, Mover(s), Opponent(s));
            && |f| >= 1
            && |Opponent(Play(s, m))| == |Mover(s)| + |f| + 1
            && |Mover(Play(s, m))| == |Opponent(s)| - |f|
    ensures |Play(s, m).black| + |Play(s, m).white| == |s.black| + |s.white| + 1
  {
    var p, o := Mover(s), Opponent(s);
    var f := FlipsMask(m, p, o);
    var t := Play(s, m);
    assert f != {} && f <= o && m !in p && m !in o;
    assert p !! f;
    assert |p + f| == |p| + |f|;
    assert |p + f + {m}| == |p + f| + 1;
    assert |o - f| == |o| - |f| by {
      assert o == (o - f) + f;
    }
    assert |Mover(t)| + |Opponent(t)| == |p| + |o| + 1;
  }
}
