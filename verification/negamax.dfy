/**
 * The look-ahead strategy: depth-limited negamax with alpha-beta pruning,
 * and the root loop that keeps every move of best score and draws one.
 *
 * The search is written over a `Game`: the move generator, the transition,
 * the pass, the static score and the final score, as function values.
 * `Othello` instantiates it with the rules of this model. The search
 * window uses the extended reals, standing for the search's float infinities; scores
 * themselves are always finite. The unpruned `Minimax` below is the
 * reference value the pruned search is proved against.
 */
module NegamaxSearch {
  import opened Wrappers
  import opened Board
  import opened MoveRules
  import opened Transition
  import opened Evaluation

  /** A score bound: a real or one of the two infinities. */
  datatype Bound = NegInf | Fin(v: real) | PosInf

  predicate Le(a: Bound, b: Bound) {
    a.NegInf? || b.PosInf? || (a.Fin? && b.Fin? && a.v <= b.v)
  }

  predicate Lt(a: Bound, b: Bound) {
    !Le(b, a)
  }

  /** The larger bound (the second one only when it is strictly larger). */
  function Max(a: Bound, b: Bound): Bound {
    if Lt(a, b) then b else a
  }

  function Neg(a: Bound): Bound {
    match a
    case NegInf => PosInf
    case Fin(x) => Fin(-x)
    case PosInf => NegInf
  }

  /** What the search needs to know about the game. */
  datatype Game = Game(
    moves: BoardState -> seq<int>,
    play: (BoardState, int) -> BoardState,
    pass: BoardState -> BoardState,
    eval: BoardState -> real,
    final: BoardState -> real)

  /**
   * The position after a move the search plays. The search only plays
   * moves of the generator, for which this is the transition's result.
   */
  function Successor(s: BoardState, m: int): (t: BoardState)
    ensures m in LegalMoves(s) ==> t == Play(s, m)
  {
    match MakeMove(Some(m), s)
    case Ok(t) => t
    case Err(_) => s
  }

  /** The game of this model with the evaluation weights `w`. */
  function Othello(w: Weights): Game {
    Game(LegalMoves, Successor, Toggled, s => Evaluate(s, w), EvaluateFinal)
  }

  /** A measure that is larger for a position that must pass. */
  function PassRank(g: Game, s: BoardState): nat {
    if g.moves(s) == [] then 2 else 1
  }

  /**
   * The search proper. At depth 0 the static score; when the side to move
   * has no move, the final score if the other side has none either,
   * otherwise the negated search of the position after the pass at the
   * same depth; otherwise the best score of the move loop.
   */
  function Negamax(g: Game, s: BoardState, depth: nat, alpha: Bound, beta: Bound): real
    decreases depth, PassRank(g, s)
  {
    var moves := g.moves(s);
    if depth == 0 then g.eval(s)
    else if moves == [] then
      var t := g.pass(s);
      if g.moves(t) == [] then g.final(s)
      else -Negamax(g, t, depth, Neg(beta), Neg(alpha))
    else
      MoveLoop(moves, ChildScores(g, s, depth), alpha, beta, NegInf).v
  }

  /**
   * The score of each move as the move loop computes it in the window
   * (alpha, beta): the negated search of the position after the move, one
   * level shallower, with the window negated and swapped.
   */
  function ChildScores(g: Game, s: BoardState, depth: nat): (int, Bound, Bound) -> real
    requires depth >= 1
    decreases depth, 0
  {
    (m, alpha, beta) => -Negamax(g, g.play(s, m), depth - 1, Neg(beta), Neg(alpha))
  }

  /**
   * The move loop: each move's score raises the running maximum and alpha,
   * and the loop stops once alpha reaches beta. The result is the running
   * maximum, which is finite once a move has been scored.
   */
  function MoveLoop(moves: seq<int>, score: (int, Bound, Bound) -> real, alpha: Bound, beta: Bound,
                    maxScore: Bound): (r: Bound)
    ensures maxScore != PosInf && (|moves| > 0 || maxScore.Fin?) ==> r.Fin?
  {
    if moves == [] then maxScore
    else
      var x := Fin(score(moves[0], alpha, beta));
      var raised := Max(alpha, x);
      if Le(beta, raised) then Max(maxScore, x)
      else MoveLoop(moves[1..], score, raised, beta, Max(maxScore, x))
  }

  /** The unpruned value of a position: the reference the search is measured against. */
  function Minimax(g: Game, s: BoardState, depth: nat): real
    decreases depth, PassRank(g, s)
  {
    var moves := g.moves(s);
    if depth == 0 then g.eval(s)
    else if moves == [] then
      var t := g.pass(s);
      if g.moves(t) == [] then g.final(s)
      else -Minimax(g, t, depth)
    else
      Best(moves, MoveValues(g, s, depth)).v
  }

  /** The unpruned value of each move, seen from the side that plays it. */
  function MoveValues(g: Game, s: BoardState, depth: nat): int -> real
    requires depth >= 1
    decreases depth, 0
  {
    m => -Minimax(g, g.play(s, m), depth - 1)
  }

  /** The largest value of a move in `moves` (minus infinity for none). */
  function Best(moves: seq<int>, value: int -> real): (r: Bound)
    ensures |moves| > 0 <==> r.Fin?
  {
    if moves == [] then NegInf else Max(Fin(value(moves[0])), Best(moves[1..], value))
  }

  /** The best value is an upper bound of every move's value and the value of one of them. */
  lemma {:induction false} BestMeaning(moves: seq<int>, value: int -> real)
    ensures forall i :: 0 <= i < |moves| ==> Le(Fin(value(moves[i])), Best(moves, value))
    ensures |moves| > 0 ==> exists i :: 0 <= i < |moves| && Best(moves, value) == Fin(value(moves[i]))
  {
    if moves != [] {
      var rest := moves[1..];
      BestMeaning(rest, value);
      assert forall i :: 1 <= i < |moves| ==> moves[i] == rest[i - 1];
      if Best(moves, value) != Fin(value(moves[0])) {
        var i :| 0 <= i < |rest| && Best(rest, value) == Fin(value(rest[i]));
        assert Best(moves, value) == Fin(value(moves[i + 1]));
      }
    }
  }

  lemma {:induction false} BestAppend(moves: seq<int>, m: int, value: int -> real)
    ensures Best(moves + [m], value) == Max(Best(moves, value), Fin(value(m)))
  {
    if moves == [] {
      assert moves + [m] == [m];
    } else {
      assert (moves + [m])[1..] == moves[1..] + [m];
      BestAppend(moves[1..], m, value);
    }
  }

  /**
   * What the pruned search promises about a value `v` computed in the
   * window (alpha, beta) for a position of true value `t`: exact inside the
   * window, and on the same side of the window (between it and `t`)
   * outside it.
   */
  predicate WindowSound(v: Bound, t: Bound, alpha: Bound, beta: Bound) {
    && (Lt(alpha, t) && Lt(t, beta) ==> v == t)
    && (Le(t, alpha) ==> Le(t, v) && Le(v, alpha))
    && (Le(beta, t) ==> Le(beta, v) && Le(v, t))
  }

  lemma WindowSoundNegated(v: Bound, t: Bound, alpha: Bound, beta: Bound)
    requires WindowSound(v, t, Neg(beta), Neg(alpha))
    ensures WindowSound(Neg(v), Neg(t), alpha, beta)
  {
  }

  /** Every score of a move in `moves`, computed in any non-empty window, is window-sound for its value. */
  ghost predicate ScoresSound(moves: seq<int>, score: (int, Bound, Bound) -> real, value: int -> real) {
    forall m, alpha, beta :: m in moves && Lt(alpha, beta) ==>
      WindowSound(Fin(score(m, alpha, beta)), Fin(value(m)), alpha, beta)
  }

  /**
   * The loop invariant of the move loop: `best` is the true best of the
   * moves already searched, `maxScore` the computed one. Above the
   * original alpha the two agree; otherwise the computed one lies between
   * the true one and alpha.
   */
  predicate LoopInvariant(alpha0: Bound, beta: Bound, maxScore: Bound, best: Bound) {
    && (Lt(alpha0, best) ==> maxScore == best)
    && (Le(best, alpha0) ==> Le(best, maxScore) && Le(maxScore, alpha0))
    && Lt(best, beta)
    && !maxScore.PosInf? && !best.PosInf?
  }

  lemma MaxAssociative(a: Bound, b: Bound, c: Bound)
    ensures Max(a, Max(b, c)) == Max(Max(a, b), c)
  {
  }

  /**
   * The move loop, started in any state satisfying the invariant with its
   * alpha the original alpha raised to the running maximum, is window-sound
   * for the true best of the searched and the remaining moves.
   */
  lemma {:induction false} MoveLoopBounds(moves: seq<int>, score: (int, Bound, Bound) -> real, value: int -> real,
                                          alpha0: Bound, beta: Bound, maxScore: Bound, best: Bound)
    requires Lt(alpha0, beta) && LoopInvariant(alpha0, beta, maxScore, best)
    requires ScoresSound(moves, score, value)
    ensures WindowSound(MoveLoop(moves, score, Max(alpha0, maxScore), beta, maxScore),
                        Max(best, Best(moves, value)), alpha0, beta)
  {
    if moves != [] {
      var alpha := Max(alpha0, maxScore);
      var m := moves[0];
      var x := Fin(score(m, alpha, beta));
      var t := Fin(value(m));
      assert WindowSound(x, t, alpha, beta);
      MaxAssociative(best, t, Best(moves[1..], value));
      if !Le(beta, Max(alpha, x)) {
        assert Max(alpha, x) == Max(alpha0, Max(maxScore, x));
        assert LoopInvariant(alpha0, beta, Max(maxScore, x), Max(best, t));
        assert ScoresSound(moves[1..], score, value) by {
          assert forall m' :: m' in moves[1..] ==> m' in moves;
        }
        MoveLoopBounds(moves[1..], score, value, alpha0, beta, Max(maxScore, x), Max(best, t));
      }
    }
  }

  /** Alpha-beta search in a non-empty window is window-sound against the unpruned value. */
  lemma {:induction false} NegamaxBounds(g: Game, s: BoardState, depth: nat, alpha: Bound, beta: Bound)
    requires Lt(alpha, beta)
    ensures WindowSound(Fin(Negamax(g, s, depth, alpha, beta)), Fin(Minimax(g, s, depth)), alpha, beta)
    decreases depth, PassRank(g, s)
  {
    var moves := g.moves(s);
    if depth == 0 || (moves == [] && g.moves(g.pass(s)) == []) {
    } else if moves == [] {
      var t := g.pass(s);
      NegamaxBounds(g, t, depth, Neg(beta), Neg(alpha));
      WindowSoundNegated(Fin(Negamax(g, t, depth, Neg(beta), Neg(alpha))), Fin(Minimax(g, t, depth)), alpha, beta);
    } else {
      ChildrenSound(g, s, depth);
      MoveLoopBounds(moves, ChildScores(g, s, depth), MoveValues(g, s, depth), alpha, beta, NegInf, NegInf);
    }
  }

  /** Each child's score, in any non-empty window, is window-sound for the move's unpruned value. */
  lemma ChildrenSound(g: Game, s: BoardState, depth: nat)
    requires depth >= 1
    ensures ScoresSound(g.moves(s), ChildScores(g, s, depth), MoveValues(g, s, depth))
    decreases depth, 0
  {
    forall m, alpha, beta | m in g.moves(s) && Lt(alpha, beta)
      ensures WindowSound(Fin(ChildScores(g, s, depth)(m, alpha, beta)), Fin(MoveValues(g, s, depth)(m)), alpha, beta)
    {
      var child := g.play(s, m);
      NegamaxBounds(g, child, depth - 1, Neg(beta), Neg(alpha));
      WindowSoundNegated(Fin(Negamax(g, child, depth - 1, Neg(beta), Neg(alpha))), Fin(Minimax(g, child, depth - 1)),
                         alpha, beta);
    }
  }

  /** With the full window the pruned search computes exactly the unpruned value. */
  lemma NegamaxExact(g: Game, s: BoardState, depth: nat)
    ensures Negamax(g, s, depth, NegInf, PosInf) == Minimax(g, s, depth)
  {
    NegamaxBounds(g, s, depth, NegInf, PosInf);
  }

  /**
   * The search on the rules of this model, case by case: the static score
   * at depth 0, even when the game is over; the final score of the
   * position itself when neither side can move; the negated search of the
   * passed position at the same depth when only the side to move is stuck.
   */
  lemma NegamaxCases(s: BoardState, depth: nat, w: Weights, alpha: Bound, beta: Bound)
    ensures depth == 0 ==> Negamax(Othello(w), s, depth, alpha, beta) == Evaluate(s, w)
    ensures depth > 0 && LegalMoves(s) == [] && LegalMoves(MakeMove(None, s).value) == [] ==>
              Negamax(Othello(w), s, depth, alpha, beta) == EvaluateFinal(s)
    ensures depth > 0 && LegalMoves(s) == [] && LegalMoves(MakeMove(None, s).value) != [] ==>
              Negamax(Othello(w), s, depth, alpha, beta) ==
              -Negamax(Othello(w), MakeMove(None, s).value, depth, Neg(beta), Neg(alpha))
  {
  }

  /**
   * The root loop: each move is scored in the window (alpha, +infinity); a
   * strictly better score restarts the list of best moves and raises
   * alpha, an equal score joins the list. Returns the best score, the list,
   * and the score computed for each move of `moves`, in order.
   */
  function RootLoop(moves: seq<int>, score: (int, Bound, Bound) -> real,
                    bestScore: Bound, bestMoves: seq<int>, alpha: Bound): (r: (Bound, seq<int>, seq<real>))
    ensures |r.2| == |moves|
  {
    if moves == [] then (bestScore, bestMoves, [])
    else
      var m := moves[0];
      var x := Fin(score(m, alpha, PosInf));
      var rest :=
        if Lt(bestScore, x) then RootLoop(moves[1..], score, x, [m], Max(alpha, x))
        else if x == bestScore then RootLoop(moves[1..], score, bestScore, bestMoves + [m], alpha)
        else RootLoop(moves[1..], score, bestScore, bestMoves, alpha);
      (rest.0, rest.1, [x.v] + rest.2)
  }

  /** The moves the root loop keeps as equally best. */
  function Candidates(g: Game, s: BoardState, depth: nat): seq<int>
    requires depth >= 1
  {
    RootLoop(g.moves(s), ChildScores(g, s, depth), NegInf, [], NegInf).1
  }

  /** The root decision of the search: no move when there is none, otherwise the candidate `pick` selects. */
  function Choose(g: Game, s: BoardState, depth: nat, pick: nat): (r: Option<int>)
    requires depth >= 1
    ensures r.None? <==> g.moves(s) == []
    ensures r.Some? ==> r.value in g.moves(s) && r.value in Candidates(g, s, depth)
  {
    if g.moves(s) == [] then None
    else
      var candidates := Candidates(g, s, depth);
      CandidatesMeaning(g, s, depth);
      var m := candidates[pick % |candidates|];
      assert m in candidates;
      Some(m)
  }

  /**
   * The look-ahead strategy: no move when there is no legal move,
   * otherwise one of the candidates, the one the random draw `pick`
   * selects.
   */
  function ChooseMove(s: BoardState, depth: nat, w: Weights, pick: nat): (r: Option<int>)
    requires depth >= 1
    ensures r.None? <==> LegalMoves(s) == []
    ensures r.Some? ==> r.value in LegalMoves(s) && r.value in Candidates(Othello(w), s, depth)
  {
    assert Othello(w).moves(s) == LegalMoves(s);
    Choose(Othello(w), s, depth, pick)
  }

  /**
   * What the root loop keeps, with `done` the moves already scored:
   * `bestScore` is their best true value and alpha equals it, every move of
   * `done` reaching it is kept, and only moves of `done` are kept. When the
   * scores are `exact`, every kept move reaches the best.
   */
  predicate RootInvariant(done: seq<int>, value: int -> real, exact: bool,
                          bestScore: Bound, bestMoves: seq<int>, alpha: Bound) {
    && bestScore == Best(done, value)
    && alpha == bestScore
    && (forall i :: 0 <= i < |done| && Fin(value(done[i])) == bestScore ==> done[i] in bestMoves)
    && (forall i :: 0 <= i < |bestMoves| ==> bestMoves[i] in done)
    && (exact ==> forall i :: 0 <= i < |bestMoves| ==> Fin(value(bestMoves[i])) == bestScore)
    && (done != [] ==> bestMoves != [])
  }

  /** Scores that are the true values, whatever the window. */
  ghost predicate ScoresExact(moves: seq<int>, score: (int, Bound, Bound) -> real, value: int -> real) {
    forall m, alpha, beta :: m in moves ==> score(m, alpha, beta) == value(m)
  }

  /**
   * A move scored while alpha is the true best so far gets its true value
   * when that beats alpha, and a score between its value and alpha
   * otherwise.
   */
  lemma RootScoreBounds(x: Bound, t: Bound, alpha: Bound)
    requires !alpha.PosInf? && x.Fin? && t.Fin? && WindowSound(x, t, alpha, PosInf)
    ensures Lt(alpha, x) ==> x == t && Max(alpha, x) == x
    ensures x == alpha ==> t == x || Lt(t, alpha)
    ensures Lt(x, alpha) ==> Lt(t, alpha)
  {
  }

  lemma {:induction false} RootLoopMeaning(done: seq<int>, moves: seq<int>, score: (int, Bound, Bound) -> real,
                                           value: int -> real, exact: bool,
                                           bestScore: Bound, bestMoves: seq<int>, alpha: Bound)
    requires ScoresSound(moves, score, value)
    requires exact ==> ScoresExact(moves, score, value)
    requires RootInvariant(done, value, exact, bestScore, bestMoves, alpha)
    ensures var (b, kept, _) := RootLoop(moves, score, bestScore, bestMoves, alpha);
            RootInvariant(done + moves, value, exact, b, kept, b)
    decreases |moves|
  {
    if moves == [] {
      assert done + moves == done;
    } else {
      var m, rest := moves[0], moves[1..];
      var done' := done + [m];
      assert done + moves == done' + rest;
      assert forall m' :: m' in rest ==> m' in moves;
      assert ScoresSound(rest, score, value);
      assert exact ==> ScoresExact(rest, score, value);
      BestAppend(done, m, value);
      BestMeaning(done, value);
      var x, t := Fin(score(m, alpha, PosInf)), Fin(value(m));
      assert WindowSound(x, t, alpha, PosInf);
      RootScoreBounds(x, t, alpha);
      assert forall i :: 0 <= i < |done| ==> done'[i] == done[i];
      assert done'[|done|] == m;
      if Lt(bestScore, x) {
        RootLoopMeaning(done', rest, score, value, exact, x, [m], Max(alpha, x));
      } else if x == bestScore {
        RootLoopMeaning(done', rest, score, value, exact, bestScore, bestMoves + [m], alpha);
      } else {
        RootLoopMeaning(done', rest, score, value, exact, bestScore, bestMoves, alpha);
      }
    }
  }

  /**
   * The root loop's list against the scores it computed: no computed score
   * exceeds the best score `b`, every move whose computed score is `b` is
   * kept, and every kept move was computed at `b`.
   */
  predicate TopKept(moves: seq<int>, scores: seq<real>, b: Bound, kept: seq<int>) {
    && |scores| == |moves|
    && (forall i :: 0 <= i < |moves| ==> Le(Fin(scores[i]), b))
    && (forall i :: 0 <= i < |moves| && Fin(scores[i]) == b ==> moves[i] in kept)
    && (forall k :: 0 <= k < |kept| ==> ScoredAt(moves, scores, b, kept[k]))
  }

  /** Move `x` appears among `moves` with computed score `b`. */
  predicate ScoredAt(moves: seq<int>, scores: seq<real>, b: Bound, x: int) {
    exists i :: 0 <= i < |moves| && i < |scores| && moves[i] == x && Fin(scores[i]) == b
  }

  /** A score above the best restarts the list with the new move. */
  lemma TopKeptAbove(done: seq<int>, doneScores: seq<real>, b: Bound, kept: seq<int>, m: int, y: real)
    requires TopKept(done, doneScores, b, kept) && Lt(b, Fin(y))
    ensures TopKept(done + [m], doneScores + [y], Fin(y), [m])
  {
    var done', scores' := done + [m], doneScores + [y];
    assert forall i :: 0 <= i < |done| ==> scores'[i] == doneScores[i];
    assert done'[|done|] == m && scores'[|done|] == y;
  }

  /** A score equal to the best appends the move to the list. */
  lemma TopKeptTie(done: seq<int>, doneScores: seq<real>, b: Bound, kept: seq<int>, m: int, y: real)
    requires TopKept(done, doneScores, b, kept) && Fin(y) == b
    ensures TopKept(done + [m], doneScores + [y], b, kept + [m])
  {
    var done', scores', kept' := done + [m], doneScores + [y], kept + [m];
    assert forall i :: 0 <= i < |done| ==> done'[i] == done[i] && scores'[i] == doneScores[i];
    assert done'[|done|] == m && scores'[|done|] == y;
    forall k | 0 <= k < |kept'|
      ensures ScoredAt(done', scores', b, kept'[k])
    {
      if k < |kept| {
        var i := KeptWitness(done, doneScores, b, kept, k);
        assert done'[i] == kept'[k] && scores'[i] == doneScores[i];
      } else {
        assert done'[|done|] == kept'[k];
      }
    }
  }

  /** A score below the best leaves the list alone. */
  lemma TopKeptBelow(done: seq<int>, doneScores: seq<real>, b: Bound, kept: seq<int>, m: int, y: real)
    requires TopKept(done, doneScores, b, kept) && Lt(Fin(y), b)
    ensures TopKept(done + [m], doneScores + [y], b, kept)
  {
    var done', scores' := done + [m], doneScores + [y];
    assert forall i :: 0 <= i < |done| ==> done'[i] == done[i] && scores'[i] == doneScores[i];
    assert done'[|done|] == m && scores'[|done|] == y;
    assert Le(Fin(y), b) && Fin(y) != b;
    forall i | 0 <= i < |done'| && Fin(scores'[i]) == b
      ensures done'[i] in kept
    {
      assert i < |done|;
    }
    forall k | 0 <= k < |kept|
      ensures ScoredAt(done', scores', b, kept[k])
    {
      var i := KeptWitness(done, doneScores, b, kept, k);
      assert done'[i] == kept[k] && scores'[i] == doneScores[i];
    }
  }

  /** The position of a kept move among the scored moves. */
  lemma KeptWitness(moves: seq<int>, scores: seq<real>, b: Bound, kept: seq<int>, k: int) returns (i: int)
    requires TopKept(moves, scores, b, kept) && 0 <= k < |kept|
    ensures 0 <= i < |moves| && i < |scores| && moves[i] == kept[k] && Fin(scores[i]) == b
  {
    assert ScoredAt(moves, scores, b, kept[k]);
    i :| 0 <= i < |moves| && i < |scores| && moves[i] == kept[k] && Fin(scores[i]) == b;
  }

  /** One step of the root loop keeps the list in agreement with the computed scores. */
  lemma TopKeptStep(done: seq<int>, doneScores: seq<real>, bestScore: Bound, bestMoves: seq<int>, m: int, y: real)
    requires TopKept(done, doneScores, bestScore, bestMoves)
    ensures var x := Fin(y);
            TopKept(done + [m], doneScores + [y],
                    if Lt(bestScore, x) then x else bestScore,
                    if Lt(bestScore, x) then [m] else if x == bestScore then bestMoves + [m] else bestMoves)
  {
    var x := Fin(y);
    if Lt(bestScore, x) {
      TopKeptAbove(done, doneScores, bestScore, bestMoves, m, y);
    } else if x == bestScore {
      TopKeptTie(done, doneScores, bestScore, bestMoves, m, y);
    } else {
      TopKeptBelow(done, doneScores, bestScore, bestMoves, m, y);
    }
  }

  lemma {:induction false} RootLoopTies(done: seq<int>, doneScores: seq<real>, moves: seq<int>,
                                        score: (int, Bound, Bound) -> real,
                                        bestScore: Bound, bestMoves: seq<int>, alpha: Bound)
    requires TopKept(done, doneScores, bestScore, bestMoves)
    ensures var (b, kept, xs) := RootLoop(moves, score, bestScore, bestMoves, alpha);
            TopKept(done + moves, doneScores + xs, b, kept)
    decreases |moves|
  {
    if moves == [] {
      assert done + moves == done;
      assert doneScores + [] == doneScores;
    } else {
      var m, rest := moves[0], moves[1..];
      var x := Fin(score(m, alpha, PosInf));
      var done', scores' := done + [m], doneScores + [x.v];
      assert done + moves == done' + rest;
      TopKeptStep(done, doneScores, bestScore, bestMoves, m, x.v);
      var b, kept, a :=
        if Lt(bestScore, x) then x else bestScore,
        if Lt(bestScore, x) then [m] else if x == bestScore then bestMoves + [m] else bestMoves,
        if Lt(bestScore, x) then Max(alpha, x) else alpha;
      RootLoopTies(done', scores', rest, score, b, kept, a);
      var tail := RootLoop(rest, score, b, kept, a);
      assert RootLoop(moves, score, bestScore, bestMoves, alpha) == (tail.0, tail.1, [x.v] + tail.2);
      ConcatAssociative(doneScores, [x.v], tail.2);
    }
  }

  lemma ConcatAssociative<T>(a: seq<T>, b: seq<T>, c: seq<T>)
    ensures a + (b + c) == (a + b) + c
  {
  }

  /**
   * Whatever the depth, the root keeps exactly the moves whose computed
   * score is the best computed score, and that best score is the best
   * unpruned value of a move.
   */
  lemma CandidatesAreTop(g: Game, s: BoardState, depth: nat)
    requires depth >= 1
    ensures var (b, kept, scores) := RootLoop(g.moves(s), ChildScores(g, s, depth), NegInf, [], NegInf);
            && kept == Candidates(g, s, depth)
            && b == Best(g.moves(s), MoveValues(g, s, depth))
            && TopKept(g.moves(s), scores, b, kept)
  {
    var moves := g.moves(s);
    assert [] + moves == moves;
    CandidatesMeaning(g, s, depth);
    RootLoopTies([], [], moves, ChildScores(g, s, depth), NegInf, [], NegInf);
    var xs := RootLoop(moves, ChildScores(g, s, depth), NegInf, [], NegInf).2;
    assert [] + xs == xs;
  }

  /** At depth 1 the search scores every move by its true value, whatever the window. */
  lemma DepthOneExact(g: Game, s: BoardState)
    ensures ScoresExact(g.moves(s), ChildScores(g, s, 1), MoveValues(g, s, 1))
  {
    forall m, alpha, beta | m in g.moves(s)
      ensures ChildScores(g, s, 1)(m, alpha, beta) == MoveValues(g, s, 1)(m)
    {
      var child := g.play(s, m);
      assert Negamax(g, child, 0, Neg(beta), Neg(alpha)) == g.eval(child) == Minimax(g, child, 0);
    }
  }

  /**
   * The candidates: non-empty when there are moves, drawn from the moves,
   * including every move of best unpruned value; at depth 1 they are
   * exactly the moves of best value. The best score of the root loop is
   * the best unpruned value.
   */
  lemma CandidatesMeaning(g: Game, s: BoardState, depth: nat)
    requires depth >= 1
    ensures var best := Best(g.moves(s), MoveValues(g, s, depth));
            && (g.moves(s) != [] ==> Candidates(g, s, depth) != [])
            && (forall m :: m in Candidates(g, s, depth) ==> m in g.moves(s))
            && RootLoop(g.moves(s), ChildScores(g, s, depth), NegInf, [], NegInf).0 == best
            && (forall m :: m in g.moves(s) && Fin(MoveValues(g, s, depth)(m)) == best ==> m in Candidates(g, s, depth))
            && (depth == 1 ==> forall m :: m in Candidates(g, s, depth) ==> Fin(MoveValues(g, s, depth)(m)) == best)
  {
    var moves := g.moves(s);
    assert [] + moves == moves;
    ChildrenSound(g, s, depth);
    if depth == 1 {
      DepthOneExact(g, s);
    }
    RootLoopMeaning([], moves, ChildScores(g, s, depth), MoveValues(g, s, depth), depth == 1, NegInf, [], NegInf);
  }

  /** One ply deep, a move's value is the negated static score of the position it leads to. */
  lemma OnePlyValue(s: BoardState, w: Weights, m: int)
    requires m in LegalMoves(s)
    ensures MoveValues(Othello(w), s, 1)(m) == -Evaluate(Play(s, m), w)
  {
    var g := Othello(w);
    assert g.play(s, m) == Play(s, m);
    assert Minimax(g, Play(s, m), 0) == Evaluate(Play(s, m), w);
  }

  /** A move whose value no other move exceeds has the best value; and no move exceeds the best. */
  lemma BestIsMaximum(moves: seq<int>, value: int -> real, m: int)
    requires m in moves
    ensures (forall x :: x in moves ==> value(x) <= value(m)) <==> Fin(value(m)) == Best(moves, value)
  {
    BestMeaning(moves, value);
    var i :| 0 <= i < |moves| && Best(moves, value) == Fin(value(moves[i]));
    var j :| 0 <= j < |moves| && moves[j] == m;
    assert Le(Fin(value(moves[j])), Best(moves, value));
    if Fin(value(m)) == Best(moves, value) {
      forall x | x in moves
        ensures value(x) <= value(m)
      {
        var k :| 0 <= k < |moves| && moves[k] == x;
        assert Le(Fin(value(moves[k])), Best(moves, value));
      }
    }
    if forall x :: x in moves ==> value(x) <= value(m) {
      assert moves[i] in moves;
    }
  }

  /**
   * One ply deep the root decision picks a move of greatest value, and
   * every move of greatest value is a candidate.
   */
  lemma ChooseOnePly(g: Game, s: BoardState, pick: nat)
    ensures var r, value := Choose(g, s, 1, pick), MoveValues(g, s, 1);
            r.Some? ==> forall x :: x in g.moves(s) ==> value(x) <= value(r.value)
    ensures var value := MoveValues(g, s, 1);
            forall m :: m in g.moves(s) && (forall x :: x in g.moves(s) ==> value(x) <= value(m))
              ==> m in Candidates(g, s, 1)
  {
    var moves, value := g.moves(s), MoveValues(g, s, 1);
    CandidatesMeaning(g, s, 1);
    forall m | m in moves
      ensures (forall x :: x in moves ==> value(x) <= value(m)) <==> Fin(value(m)) == Best(moves, value)
    {
      BestIsMaximum(moves, value, m);
    }
  }

  /**
   * With a search depth of 1 the strategy picks a legal move whose
   * resulting position has the lowest static score for the opponent, and
   * every such move is a candidate.
   */
  lemma ChooseMoveOnePly(s: BoardState, w: Weights, pick: nat)
    ensures var r := ChooseMove(s, 1, w, pick);
            r.Some? ==> forall x :: x in LegalMoves(s) ==> Evaluate(Play(s, r.value), w) <= Evaluate(Play(s, x), w)
    ensures forall m :: m in LegalMoves(s) && (forall x :: x in LegalMoves(s) ==> Evaluate(Play(s, m), w) <= Evaluate(Play(s, x), w))
              ==> m in Candidates(Othello(w), s, 1)
  {
    var g := Othello(w);
    assert g.moves(s) == LegalMoves(s);
    ChooseOnePly(g, s, pick);
    forall x | x in LegalMoves(s)
      ensures MoveValues(g, s, 1)(x) == -Evaluate(Play(s, x), w)
    {
      OnePlyValue(s, w, x);
    }
  }
}
