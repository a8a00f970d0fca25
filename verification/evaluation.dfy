/**
 * The static evaluator of the look-ahead search: a weighted sum of five
 * mover-minus-opponent features, and the fixed score of a finished game.
 * Scores are exact reals here.
 */
module Evaluation {
  import opened Board
  import opened MoveRules

  /** The five feature weights. */
  datatype Weights = Weights(mobility: real, corners: real, cornerAdjacent: real, edges: real, pieceCount: real)

  const DefaultWeights: Weights :=
    Weights(20.585377749475168, 98.72636463496178, 43.89928663721947, 8.557803407573122, 2.0084825493628227)

  const Corners: set<int> := {0, 7, 56, 63}

  /** The 24 non-corner squares of the border. */
  const Edges: set<int> :=
    {1, 2, 3, 4, 5, 6, 8, 16, 24, 32, 40, 48, 15, 23, 31, 39, 47, 55, 57, 58, 59, 60, 61, 62}

  /**
   * The contribution of one corner and its neighbours: nothing when the
   * corner is occupied, otherwise one point for each neighbour the opponent
   * holds and minus one for each the mover holds.
   */
  function CornerNeighbours(corner: int, adjacent: set<int>, p: set<int>, o: set<int>): int {
    if corner in p || corner in o then 0 else |adjacent * o| - |adjacent * p|
  }

  /** The three squares next to each corner. */
  function CornerAdjacent(corner: int): set<int> {
    if corner == 0 then {1, 8, 9}
    else if corner == 7 then {6, 14, 15}
    else if corner == 56 then {48, 49, 57}
    else {54, 55, 62}
  }

  /** The corner-neighbour feature summed over the four corners. */
  function AdjacencyBalance(p: set<int>, o: set<int>): int {
    CornerNeighbours(0, CornerAdjacent(0), p, o) + CornerNeighbours(7, CornerAdjacent(7), p, o)
    + CornerNeighbours(56, CornerAdjacent(56), p, o) + CornerNeighbours(63, CornerAdjacent(63), p, o)
  }

  /** The integer features the evaluator weighs. */
  datatype Features = Features(
    moverMobility: nat, opponentMobility: nat,
    corners: int, adjacency: int, edges: int,
    occupied: nat, material: int)

  function FeaturesOf(s: BoardState): Features {
    var p, o := Mover(s), Opponent(s);
    Features(
      |LegalMoves(s)|, |LegalMoves(Toggled(s))|,
      |Corners * p| - |Corners * o|,
      AdjacencyBalance(p, o),
      |Edges * p| - |Edges * o|,
      |p + o|,
      |p| - |o|)
  }

  /** A feature value times its weight. */
  function Weighted(weight: real, feature: int): real {
    weight * feature as real
  }

  /**
   * The weighted sum. The mobility term is skipped when neither side can
   * move; the piece-count weight grows with the share of occupied squares.
   */
  function Score(w: Weights, f: Features): real {
    var mobility :=
      if f.moverMobility + f.opponentMobility != 0
      then Weighted(w.mobility, f.moverMobility - f.opponentMobility) else 0.0;
    var pieceWeight := f.occupied as real / 64.0;
    0.0 + mobility
    + Weighted(w.corners, f.corners)
    + Weighted(w.cornerAdjacent, f.adjacency)
    + Weighted(w.edges, f.edges)
    + Weighted(pieceWeight * w.pieceCount, f.material)
  }

  /** The score of a position for the side to move; positive favours the side to move. */
  function Evaluate(s: BoardState, w: Weights): real {
    Score(w, FeaturesOf(s))
  }

  /** The score of a finished game: 1000 for a win of the side to move, -1000 for a loss, 0 for a draw. */
  function EvaluateFinal(s: BoardState): (r: real)
    ensures r == 1000.0 || r == -1000.0 || r == 0.0
    ensures r > 0.0 <==> |Mover(s)| > |Opponent(s)|
    ensures r < 0.0 <==> |Mover(s)| < |Opponent(s)|
  {
    var moverCount := |Mover(s)|;
    var opponentCount := |Opponent(s)|;
    if moverCount > opponentCount then 1000.0
    else if moverCount < opponentCount then -1000.0
    else 0.0
  }

  /** The features seen by the other side: mobilities swap, differences negate. */
  function Negated(f: Features): Features {
    Features(f.opponentMobility, f.moverMobility, -f.corners, -f.adjacency, -f.edges, f.occupied, -f.material)
  }

  lemma FeaturesOfToggled(s: BoardState)
    ensures FeaturesOf(Toggled(s)) == Negated(FeaturesOf(s))
  {
    assert Toggled(Toggled(s)) == s;
    assert Opponent(s) + Mover(s) == Mover(s) + Opponent(s);
  }

  lemma WeightedOpposite(weight: real, feature: int, opposite: int)
    requires opposite == -feature
    ensures Weighted(weight, opposite) == -Weighted(weight, feature)
  {
  }

  lemma ScoreNegated(w: Weights, f: Features)
    ensures Score(w, Negated(f)) == -Score(w, f)
  {
    var g := Negated(f);
    WeightedOpposite(w.mobility, f.moverMobility - f.opponentMobility, g.moverMobility - g.opponentMobility);
    WeightedOpposite(w.corners, f.corners, g.corners);
    WeightedOpposite(w.cornerAdjacent, f.adjacency, g.adjacency);
    WeightedOpposite(w.edges, f.edges, g.edges);
    WeightedOpposite(f.occupied as real / 64.0 * w.pieceCount, f.material, g.material);
  }

  /**
   * Every feature is a mover-minus-opponent difference, so handing the
   * move to the other side on the same board negates the score.
   */
  lemma EvaluateAntisymmetric(s: BoardState, w: Weights)
    ensures Evaluate(Toggled(s), w) == -Evaluate(s, w)
  {
    FeaturesOfToggled(s);
    ScoreNegated(w, FeaturesOf(s));
  }

  /** The final score of a finished game negates when the other side is to move. */
  lemma EvaluateFinalAntisymmetric(s: BoardState)
    ensures EvaluateFinal(Toggled(s)) == -EvaluateFinal(s)
  {
  }

  /** With all four corners occupied no corner contributes to the adjacency feature. */
  lemma AdjacencyVanishes(p: set<int>, o: set<int>)
    requires Corners <= p + o
    ensures AdjacencyBalance(p, o) == 0
  {
    assert 0 in Corners && 7 in Corners && 56 in Corners && 63 in Corners;
  }

  /** Removing squares that are neither a corner nor next to it leaves that corner's contribution alone. */
  lemma CornerUnaffected(corner: int, n: set<int>, p: set<int>, o: set<int>)
    requires corner !in n && CornerAdjacent(corner) !! n
    ensures CornerNeighbours(corner, CornerAdjacent(corner), p - n, o - n)
            == CornerNeighbours(corner, CornerAdjacent(corner), p, o)
  {
    var a := CornerAdjacent(corner);
    assert a * (p - n) == a * p;
    assert a * (o - n) == a * o;
  }

  /** The neighbourhoods of two different corners are disjoint and hold neither corner. */
  lemma CornersApart(corner: int, c: int)
    requires corner in Corners && c in Corners && corner != c
    ensures corner !in CornerAdjacent(c) && CornerAdjacent(corner) !! CornerAdjacent(c)
  {
  }

  /**
   * The rule applies corner by corner: while corner c is occupied, the
   * pieces on its three neighbours count for nothing, whatever the other
   * corners hold.
   */
  lemma OccupiedCornerIgnored(c: int, p: set<int>, o: set<int>)
    requires c in Corners && c in p + o
    ensures AdjacencyBalance(p, o) == AdjacencyBalance(p - CornerAdjacent(c), o - CornerAdjacent(c))
  {
    var n := CornerAdjacent(c);
    assert c !in n;
    assert CornerNeighbours(c, CornerAdjacent(c), p - n, o - n) == 0 == CornerNeighbours(c, CornerAdjacent(c), p, o);
    if c != 0 { CornersApart(0, c); CornerUnaffected(0, n, p, o); }
    if c != 7 { CornersApart(7, c); CornerUnaffected(7, n, p, o); }
    if c != 56 { CornersApart(56, c); CornerUnaffected(56, n, p, o); }
    if c != 63 { CornersApart(63, c); CornerUnaffected(63, n, p, o); }
  }

  /** Taking one piece out of a set removes exactly one square from its meet with `a`. */
  lemma MeetWithout(a: set<int>, q: set<int>, y: int)
    requires y in a && y in q
    ensures |a * q| == |a * (q - {y})| + 1
  {
    assert a * q == a * (q - {y}) + {y};
  }

  /** A piece next to another corner leaves this corner's contribution alone. */
  lemma OtherCornerUnaffected(corner: int, c: int, y: int, p: set<int>, o: set<int>)
    requires corner in Corners && c in Corners && corner != c && y in CornerAdjacent(c)
    ensures CornerNeighbours(corner, CornerAdjacent(corner), p - {y}, o)
            == CornerNeighbours(corner, CornerAdjacent(corner), p, o)
    ensures CornerNeighbours(corner, CornerAdjacent(corner), p, o - {y})
            == CornerNeighbours(corner, CornerAdjacent(corner), p, o)
  {
    var a := CornerAdjacent(corner);
    assert y !in a && y != corner;
    assert a * (p - {y}) == a * p;
    assert a * (o - {y}) == a * o;
  }

  /**
   * While corner c is empty, an opponent piece next to it raises the
   * feature by one and a mover piece next to it lowers it by one.
   */
  lemma EmptyCornerCounts(c: int, y: int, p: set<int>, o: set<int>)
    requires c in Corners && c !in p + o && y in CornerAdjacent(c)
    ensures y in o ==> AdjacencyBalance(p, o) == AdjacencyBalance(p, o - {y}) + 1
    ensures y in p ==> AdjacencyBalance(p, o) == AdjacencyBalance(p - {y}, o) - 1
  {
    if c != 0 { OtherCornerUnaffected(0, c, y, p, o); }
    if c != 7 { OtherCornerUnaffected(7, c, y, p, o); }
    if c != 56 { OtherCornerUnaffected(56, c, y, p, o); }
    if c != 63 { OtherCornerUnaffected(63, c, y, p, o); }
    if y in o { MeetWithout(CornerAdjacent(c), o, y); }
    if y in p { MeetWithout(CornerAdjacent(c), p, y); }
  }

  lemma ScoreIgnoresZeroFeature(w: Weights, f: Features, x: real)
    requires f.adjacency == 0
    ensures Score(w.(cornerAdjacent := x), f) == Score(w, f)
  {
  }

  /**
   * Once all four corners are occupied the corner-adjacency weight no
   * longer influences the score.
   */
  lemma AdjacencyIgnoredWhenCornersTaken(s: BoardState, w: Weights, x: real)
    requires Corners <= s.black + s.white
    ensures Evaluate(s, w.(cornerAdjacent := x)) == Evaluate(s, w)
  {
    AdjacencyVanishes(Mover(s), Opponent(s));
    ScoreIgnoresZeroFeature(w, FeaturesOf(s), x);
  }
}
