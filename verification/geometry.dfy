/**
 * Board geometry: squares as (row, column) pairs, the eight compass
 * directions, and the ray of squares seen from a square in one direction.
 */
module Geometry {

  function Row(x: int): int { x / 8 }
  function Col(x: int): int { x % 8 }
  function Square(r: int, c: int): int { r * 8 + c }

  predicate OnBoard(r: int, c: int) {
    0 <= r < 8 && 0 <= c < 8
  }

  lemma SquareCoordinates(r: int, c: int)
    requires 0 <= c < 8
    ensures Row(Square(r, c)) == r && Col(Square(r, c)) == c
  {
  }

  lemma CoordinatesOfSquare(x: int)
    requires 0 <= x < 64
    ensures OnBoard(Row(x), Col(x)) && Square(Row(x), Col(x)) == x
  {
  }

  /** A step of one square in one of the eight compass directions. */
  datatype Dir = Dir(dr: int, dc: int)

  predicate IsUnit(d: Dir) {
    -1 <= d.dr <= 1 && -1 <= d.dc <= 1 && (d.dr != 0 || d.dc != 0)
  }

  /** N, NE, E, SE, S, SW, W, NW, in the order both scans visit them. */
  const Directions: seq<Dir> := [Dir(-1, 0), Dir(-1, 1), Dir(0, 1), Dir(1, 1),
                                 Dir(1, 0), Dir(1, -1), Dir(0, -1), Dir(-1, -1)]

  lemma DirectionsAreUnits()
    ensures |Directions| == 8
    ensures forall i :: 0 <= i < |Directions| ==> IsUnit(Directions[i])
  {
  }

  /** How many more steps from (r, c) in direction d stay on the board (a termination measure). */
  function Room(r: int, c: int, d: Dir): int {
    if d.dr > 0 then 8 - r
    else if d.dr < 0 then r + 1
    else if d.dc > 0 then 8 - c
    else c + 1
  }

  /**
   * The squares (r, c), (r, c) + d, (r, c) + 2d, ... up to the board edge;
   * empty when (r, c) is already off the board.
   */
  function Ray(r: int, c: int, d: Dir): (ray: seq<int>)
    requires IsUnit(d)
    ensures forall i :: 0 <= i < |ray| ==> 0 <= ray[i] < 64
    decreases Room(r, c, d)
  {
    if OnBoard(r, c) then [Square(r, c)] + Ray(r + d.dr, c + d.dc, d) else []
  }

  /** Square x lies at or beyond (r, c) when walking in direction d. */
  predicate Beyond(x: int, r: int, c: int, d: Dir) {
    if d.dr > 0 then Row(x) >= r
    else if d.dr < 0 then Row(x) <= r
    else if d.dc > 0 then Col(x) >= c
    else Col(x) <= c
  }

  lemma {:induction false} RayIsBeyond(r: int, c: int, d: Dir)
    requires IsUnit(d)
    ensures forall i :: 0 <= i < |Ray(r, c, d)| ==> Beyond(Ray(r, c, d)[i], r, c, d)
    decreases Room(r, c, d)
  {
    if OnBoard(r, c) {
      var ray := Ray(r, c, d);
      var rest := Ray(r + d.dr, c + d.dc, d);
      assert ray == [Square(r, c)] + rest;
      SquareCoordinates(r, c);
      RayIsBeyond(r + d.dr, c + d.dc, d);
      forall i | 0 <= i < |ray|
        ensures Beyond(ray[i], r, c, d)
      {
        if i > 0 {
          assert ray[i] == rest[i - 1];
          assert Beyond(rest[i - 1], r + d.dr, c + d.dc, d);
        }
      }
    }
  }

  /** The ray scanned from a square never passes back over that square. */
  lemma RayAvoidsOrigin(x: int, d: Dir)
    requires 0 <= x < 64 && IsUnit(d)
    ensures Square(Row(x), Col(x)) == x
    ensures x !in Ray(Row(x) + d.dr, Col(x) + d.dc, d)
  {
    var ray := Ray(Row(x) + d.dr, Col(x) + d.dc, d);
    RayIsBeyond(Row(x) + d.dr, Col(x) + d.dc, d);
  }
}
