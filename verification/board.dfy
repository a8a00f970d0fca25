/**
 * The board value: two piece masks and the side to move.
 *
 * A mask is the set of squares (0 = top-left, 63 = bottom-right, row-major,
 * 8 columns) on which that colour has a piece. The constructor stores its
 * arguments verbatim, so an arbitrary BoardState may have overlapping or
 * out-of-range masks; `Valid` names the invariant that every reachable
 * state keeps.
 */
module Board {
  import opened Wrappers

  /** The two sides. */
  datatype Player = Black | White

  /** The other side. */
  function Toggle(p: Player): (q: Player)
    ensures q != p
  {
    if p == Black then White else Black
  }

  lemma ToggleInvolution(p: Player)
    ensures Toggle(Toggle(p)) == p
  {
  }

  datatype BoardState = BoardState(
    user: string,
    black: set<int>,
    white: set<int>,
    next: Player,
    sessionId: string)

  /** Starting layout: black on 28 and 35, white on 27 and 36. */
  const DefaultBlack: set<int> := {28, 35}
  const DefaultWhite: set<int> := {27, 36}

  predicate IsSquare(x: int) {
    0 <= x < 64
  }

  /** Every square lies on the board and no square holds two pieces. */
  predicate Valid(s: BoardState) {
    && (forall x :: x in s.black ==> IsSquare(x))
    && (forall x :: x in s.white ==> IsSquare(x))
    && s.black !! s.white
  }

  /**
   * The constructor: masks and side to move are stored without any check;
   * a missing session id is replaced by `freshId`, which stands for the
   * generated identifier.
   */
  function Create(user: string, black: set<int>, white: set<int>, next: Player,
                  sessionId: Option<string>, freshId: string): (s: BoardState)
    ensures s.black == black && s.white == white && s.next == next && s.user == user
    ensures sessionId.Some? ==> s.sessionId == sessionId.value
    ensures sessionId.None? ==> s.sessionId == freshId
  {
    BoardState(user, black, white, next,
               if sessionId.Some? then sessionId.value else freshId)
  }

  /** The constructor called with every default: the canonical start, black to move. */
  function Initial(user: string, freshId: string): (s: BoardState)
    ensures Valid(s)
    ensures s.next == Black
    ensures s.black == {28, 35} && s.white == {27, 36}
    ensures s.user == user && s.sessionId == freshId
  {
    Create(user, DefaultBlack, DefaultWhite, Black, None, freshId)
  }

  /** The pieces of the side to move. */
  function Mover(s: BoardState): set<int> {
    if s.next == Black then s.black else s.white
  }

  /** The pieces of the side not to move. */
  function Opponent(s: BoardState): set<int> {
    if s.next == Black then s.white else s.black
  }

  /** The same board with the other side to move; metadata is copied. */
  function Toggled(s: BoardState): (t: BoardState)
    ensures Mover(t) == Opponent(s) && Opponent(t) == Mover(s)
    ensures t.black == s.black && t.white == s.white
    ensures t.user == s.user && t.sessionId == s.sessionId
  {
    s.(next := Toggle(s.next))
  }

  lemma ToggledTwice(s: BoardState)
    ensures Toggled(Toggled(s)) == s
  {
  }

  /**
   * The board after the side to move ends up with `mover` and the other
   * side with `opponent`; the side to move changes and metadata is copied.
   */
  function AfterTurn(s: BoardState, mover: set<int>, opponent: set<int>): (t: BoardState)
    ensures Opponent(t) == mover && Mover(t) == opponent
    ensures t.next == Toggle(s.next)
    ensures t.user == s.user && t.sessionId == s.sessionId
  {
    if s.next == Black then BoardState(s.user, mover, opponent, White, s.sessionId)
    else BoardState(s.user, opponent, mover, Black, s.sessionId)
  }
}
