# Othello engine and move-selection strategies, modelled in Dafny

This project models the game-state engine of a console Othello (Reversi)
program and its automated players:

- **Board**: the immutable `BoardState`, which holds a black and a white piece
  mask, the side to move, and the user name and session id carried along as
  metadata. The canonical start has black on 28 and 35 and white on 27 and
  36, with black to move. Squares are numbered 0 (top-left) to 63
  (bottom-right) row by row.
- **MoveRules**: legal-move enumeration under the sandwich rule. A square is
  legal when it is empty and, in one of the eight compass directions N, NE,
  E, SE, S, SW, W, NW, a run of one or more opponent pieces is closed by a
  piece of the side to move.
- **Transition**: `MakeMove`. A pass toggles the side to move. A placement
  outside 0..63 or on a square that is not legal is refused with one of two
  errors. Otherwise the placed piece and every bracketed opponent piece join
  the mover.
- **Evaluation**: the static evaluator. It is a weighted sum of mobility,
  corners, the neighbours of empty corners, edges and piece count, plus the
  ±1000/0 score of a finished game.
- **NegamaxSearch**: the alpha-beta negamax search and its root decision.
  The root keeps every move tied for the best score and picks one of them
  with a random draw.
- **MonteCarlo**: the Monte Carlo tree search. It covers selection (an
  unvisited child first, then a UCT rule), expansion, random playout,
  backpropagation, and the final choice of the most visited root child.
- **Strangle** and **RandomStrategy**: the two simple players. Strangle plays
  a move leaving the fewest replies, random draw among ties. RandomStrategy
  plays any legal move.
- **Notation**: the square notation (`d3`) of the console front end and its
  sorted move listing.
- **Scenarios**: concrete positions taken from the repository's tests.
  These are the starting moves of both sides, captures along a row, a
  column and a diagonal, the refused moves, and the effect of the openings.

Bit masks are modelled as `set<int>` and the 64-bit operations on them as
set operations. Scores are exact `real`s. The infinities of the search
window are the `NegInf`/`PosInf` cases of a `Bound` datatype. Everything
random (`random.choice`, the playout draws, the generated session id) is a
parameter. The UCT arithmetic is a function parameter as well. The search
is stated over a `Game` record, and the tree over a `Rules` record, holding
the move generator, the transition and the evaluators. The Othello
instances `Othello(w)` and `OthelloRules()` plug in the functions of this
model.

The properties proved against independent reference definitions are:

- **Legality** against `Brackets`, a capture stated as "the leading opponent
  run of the ray has length at least one and is closed by a mover piece".
- **Flips** against the same reference: a direction flips exactly its
  bracketed run.
- **The search** against the unpruned `Minimax`. In any non-empty window
  alpha-beta returns the minimax value when it lies inside the window, and a
  bound on the correct side otherwise. On the full window it is exact.
- **The root decision**: its kept moves are exactly those computed at the best
  score. That best score is the best minimax value. One ply deep, the
  choice maximises the value.
- **The tree** keeps its arena invariant through expansion and
  backpropagation. The playout always ends in a finished game.
- **Notation**: parsing inverts formatting.

## Model

| member | source | states |
|---|---|---|
| Board.Toggle | make_move.py:66-67 | the other side is never the same side |
| Board.ToggleInvolution | make_move.py:66-67 | toggling twice gives the original side back |
| Board.Create | board_state.py:23-45 | the constructor stores masks, side and user verbatim; a missing session id is replaced by a generated one, a given one is kept |
| Board.Initial | board_state.py:20-28 | the default board is valid, black holds 28 and 35, white holds 27 and 36, black is to move, and the generated session id is used |
| Board.Toggled | make_move.py:19-26 | a pass swaps mover and opponent while both masks, user and session id are unchanged |
| Board.ToggledTwice | make_move.py:19-26 | passing twice restores the original state |
| Board.AfterTurn | make_move.py:50-63 | the mover's new pieces end up with the side that moved, the opponent's with the other side, the side to move toggles and metadata is copied |
| Geometry.CoordinatesOfSquare | legal_moves.py:56-57 | row x/8 and column x%8 of a square are on the board and recombine to the square |
| Geometry.DirectionsAreUnits | legal_moves.py:60-69 | the eight scan directions are unit steps |
| Geometry.Ray | legal_moves.py:94-97 | the squares walked from a neighbour until the board edge are all board squares |
| Geometry.RayIsBeyond | legal_moves.py:94-104 | every square of a ray lies beyond its starting point in the walking direction |
| Geometry.RayAvoidsOrigin | make_move.py:100-111 | a scan never revisits the square it starts from, so a placement never flips itself |
| MoveRules.RunLength | legal_moves.py:97-104 | the length of the opponent run at the head of a ray: every square before it is an opponent piece and the square at it is not |
| MoveRules.ScanRayMeaning | legal_moves.py:94-114 | the scan loop answers true exactly when the opponent run at the head of the ray is closed by a mover piece and at least one opponent piece was crossed |
| MoveRules.CheckDirectionBrackets | legal_moves.py:78-114 | a direction captures exactly when its ray brackets a non-empty opponent run |
| MoveRules.AnyDirectionMeaning | legal_moves.py:71-75 | the direction loop returns true exactly when some direction captures |
| MoveRules.LegalFrom | legal_moves.py:33-39 | the scan from `pos` lists exactly the empty legal squares from `pos` on, in increasing order, and is empty exactly when there is none |
| MoveRules.LegalMoves | legal_moves.py:4-41 | the legal moves are exactly the empty board squares where the mover captures, strictly ascending, and empty exactly when no empty square is legal |
| MoveRules.CaptureNeedsAdjacentOpponent | legal_moves.py:97-111 | a capturing direction starts with an opponent piece on the neighbouring square |
| MoveRules.LegalByDirection | legal_moves.py:71-73 | one capturing direction makes the square legal |
| MoveRules.LegalNeedsAdjacentOpponent | legal_moves.py:44-75 | a legal square has an opponent piece on one of its eight neighbours, each an on-board square in one of the eight directions |
| MoveRules.NotLegalUnlessDirection | legal_moves.py:44-75 | a square whose only on-board neighbour held by the opponent lies in a non-capturing direction is not legal |
| MoveRules.NoPiecesNoMoves | legal_moves.py:106-114 | a side with no piece on the board has no legal move |
| MoveRules.NoOpponentNoMoves | legal_moves.py:94-111 | with no opponent piece on the board there is no legal move |
| Transition.FlipsRayMeaning | make_move.py:100-123 | the flip scan yields the collected path plus the opponent run exactly when the run is closed by a mover piece and something was collected, and nothing otherwise |
| Transition.FlipsRayBrackets | make_move.py:92-123 | from an empty path a ray flips its bracketed opponent run when it brackets and nothing otherwise; the flips are opponent pieces on the ray |
| Transition.FlipsInDirectionMeaning | make_move.py:92-123 | a direction flips something exactly when the legality check accepts it, and only opponent pieces on its ray |
| Transition.UnionFlipsMeaning | make_move.py:85-89 | the union over directions is non-empty exactly when some direction captures, holds only opponent pieces and never the placed square |
| Transition.FlipsMaskMeaning | make_move.py:70-89 | the flip mask is non-empty exactly for legal squares, is a subset of the opponent's pieces and excludes the placed square |
| Transition.MakeMove | make_move.py:5-63 | a pass toggles the side only; a square outside 0..63 is refused as out of range and an in-range square that is not legal as illegal; otherwise the mover gains the placed piece and the flips, the opponent loses the flips, the side toggles and metadata is kept |
| Transition.PassTwiceRestores | make_move.py:19-26 | a pass always succeeds and two passes give back the original state |
| Transition.PlayOccupiesOneSquare | make_move.py:44-48 | a placement fills exactly the previously empty target square and changes no other square's occupancy |
| Transition.PlayPreservesValid | make_move.py:44-63 | a legal move keeps both masks on the board and disjoint |
| Transition.PlayCounts | make_move.py:44-48 | on a valid board the mover gains one piece plus the flips (at least one), the opponent loses the flips, and the total grows by one |
| Evaluation.EvaluateFinal | strategy_negamax.py:188-213 | the final score is 1000, -1000 or 0; positive exactly when the mover has more pieces and negative exactly when fewer |
| Evaluation.FeaturesOfToggled | strategy_negamax.py:124-183 | with the other side to move every feature is seen from the other side: mobilities swap, differences negate, the occupied count stays |
| Evaluation.ScoreNegated | strategy_negamax.py:143-183 | the weighted sum of the negated features is the negated sum |
| Evaluation.EvaluateAntisymmetric | strategy_negamax.py:106-185 | on the same board the score for the other side to move is the negated score |
| Evaluation.EvaluateFinalAntisymmetric | strategy_negamax.py:188-213 | the final score negates when the other side is to move |
| Evaluation.AdjacencyVanishes | strategy_negamax.py:154-170 | with all four corners occupied the corner-neighbour feature is zero |
| Evaluation.OccupiedCornerIgnored | strategy_negamax.py:154-170 | while one corner is occupied, the pieces on its three neighbours do not change the corner-neighbour feature, whatever the other corners hold |
| Evaluation.EmptyCornerCounts | strategy_negamax.py:163-170 | while a corner is empty, an opponent piece on one of its neighbours adds one to the feature and a mover piece subtracts one |
| Evaluation.AdjacencyIgnoredWhenCornersTaken | strategy_negamax.py:154-170 | once all four corners are occupied the corner-adjacency weight does not affect the score |
| NegamaxSearch.BestMeaning | strategy_negamax.py:91-103 | the best value bounds every move's value and is the value of one of them |
| NegamaxSearch.MoveLoopBounds | strategy_negamax.py:91-103 | the move loop with beta cutoff is window-sound for the best true value of the moves |
| NegamaxSearch.NegamaxBounds | strategy_negamax.py:58-103 | in any non-empty window the pruned search equals the unpruned value when that lies inside the window, and lies between the value and the window edge otherwise |
| NegamaxSearch.ChildrenSound | strategy_negamax.py:92-94 | every child's negated search score is window-sound for the move's unpruned value |
| NegamaxSearch.NegamaxExact | strategy_negamax.py:58-103 | with the full window the pruned search computes exactly the unpruned negamax value |
| NegamaxSearch.NegamaxCases | strategy_negamax.py:72-89 | depth 0 gives the static score even at game end; with no moves for either side the final score; with no move only for the mover the negated search after a pass at the same depth |
| NegamaxSearch.RootLoopMeaning | strategy_negamax.py:42-53 | the root loop's best score is the best true value of the moves, every move of that value is kept, only moves are kept, and with exact scores only moves of that value |
| NegamaxSearch.RootLoopTies | strategy_negamax.py:42-53 | the root loop keeps exactly the moves whose computed score equals its best score, and no computed score exceeds it |
| NegamaxSearch.CandidatesAreTop | strategy_negamax.py:36-53 | at any depth the kept moves are exactly the moves computed at the best score, and that score is the best unpruned value |
| NegamaxSearch.CandidatesMeaning | strategy_negamax.py:36-55 | the candidates are non-empty when there are moves, are moves, include every move of best unpruned value, and at depth 1 are exactly those |
| NegamaxSearch.Choose | strategy_negamax.py:36-55 | no move exactly when there is no move; otherwise a move among the candidates |
| NegamaxSearch.ChooseMove | strategy_negamax.py:18-55 | no move exactly when there is no legal move; otherwise a legal move among the tied best candidates |
| NegamaxSearch.DepthOneExact | strategy_negamax.py:44-47 | one ply deep every move's computed score is its true value whatever the window |
| NegamaxSearch.OnePlyValue | strategy_negamax.py:44-47 | one ply deep a move's value is the negated static score of the position it leads to |
| NegamaxSearch.BestIsMaximum | strategy_negamax.py:46-53 | a move's value is the best exactly when no move's value exceeds it |
| NegamaxSearch.ChooseOnePly | strategy_negamax.py:42-55 | one ply deep the chosen move has the greatest value and every move of greatest value is a candidate |
| NegamaxSearch.ChooseMoveOnePly | strategy_negamax.py:18-55 | at depth 1 the chosen legal move leads to the position with the lowest static score for the opponent, and every such move is a candidate |
| MonteCarlo.MovesIncludingPass | strategy_mcts.py:96-100 | the move list holds exactly the legal placements, or only a pass when there is none |
| MonteCarlo.MovesIncludingPassAccepted | strategy_mcts.py:96-100 | the transition accepts every move of that list |
| MonteCarlo.FullBoardIsOver | strategy_mcts.py:129-135 | a board with every square occupied is a finished game |
| MonteCarlo.GameOverEitherSide | strategy_mcts.py:129-135 | whether the game is over does not depend on the side to move |
| MonteCarlo.Outcome | strategy_mcts.py:119-126 | the playout result is 0 exactly for equal piece counts and 1 exactly when the root player has more pieces, otherwise -1 |
| MonteCarlo.PlayFillsOneEmpty | strategy_mcts.py:115-117 | a legal move fills one empty square, so the playout loop makes progress |
| MonteCarlo.Simulate | strategy_mcts.py:103-126 | the playout terminates in a finished game, never empties an occupied square, and reports the outcome for the root player |
| MonteCarlo.Expand | strategy_mcts.py:66-71 | expansion pops the last untried move, adds the position it leads to as a new last child without statistics, changes no other node and keeps the tree invariant |
| MonteCarlo.PathReachesRoot | strategy_mcts.py:88-93 | following parent links from any node reaches the root |
| MonteCarlo.Backpropagate | strategy_mcts.py:88-93 | every node on the path from the leaf to the root gets one visit and the result added, and no other node changes |
| MonteCarlo.BackpropagateKeepsTree | strategy_mcts.py:88-93 | backpropagation keeps the tree invariant and credits the root |
| MonteCarlo.FirstUnvisited | strategy_mcts.py:77-79 | the first child without visits is found, and none is reported only when every child has been visited |
| MonteCarlo.BestChild | strategy_mcts.py:73-86 | the selected child is a child, and the first unvisited one whenever some child is unvisited |
| MonteCarlo.Select | strategy_mcts.py:32-33 | selection ends at a node with an untried move or no children, and stays at the root when the root has either |
| MonteCarlo.MostVisited | strategy_mcts.py:46-47 | the first child with the largest visit count |
| MonteCarlo.Explore | strategy_mcts.py:29-43 | one round keeps the tree invariant and the root position, adds one root visit, and gives a root that is not over and has an untried move a child |
| MonteCarlo.Search | strategy_mcts.py:25-43 | after the rounds the root holds the position and one visit per round, and has a child once a round ran on an unfinished game |
| MonteCarlo.RootChildAllowed | strategy_mcts.py:66-71 | every root child is reached by a move the root position offers |
| MonteCarlo.OfferedMoveIsLegal | strategy_mcts.py:96-100 | with a legal move available every offered move is a legal placement |
| MonteCarlo.MostVisitedMove | strategy_mcts.py:46-47 | the move of the first most visited root child, or none without children |
| MonteCarlo.ChooseMove | strategy_mcts.py:10-47 | no move exactly when there is no legal move or no round is run; otherwise a legal move |
| Strangle.FewestReplies | strategy_strangle.py:27-42 | the loop's least count bounds every move's count and is attained, and its list holds exactly the moves attaining it |
| Strangle.Replies | strategy_strangle.py:32-34 | for a legal move, the number of legal replies in the position it leads to |
| Strangle.Ties | strategy_strangle.py:23-42 | the tie list is non-empty and holds exactly the legal moves after which the other side has the fewest replies |
| Strangle.ChooseMove | strategy_strangle.py:8-44 | no move exactly when there is no legal move; otherwise a legal move leaving no more replies than any other legal move |
| RandomStrategy.PickFrom | strategy_random.py:17-21 | no pick from an empty list, otherwise an element of the list |
| RandomStrategy.EveryElementPicked | strategy_random.py:21 | every element of the list is selected by some draw |
| RandomStrategy.ChooseMove | strategy_random.py:7-21 | no move exactly when there is no legal move, otherwise a legal move the transition accepts |
| RandomStrategy.EveryMoveReachable | strategy_random.py:21 | every legal move is chosen by some draw |
| Notation.ToNotation | othello.py:85-89 | a square's notation is a column letter a..h followed by a row digit 1..8 |
| Notation.FromNotation | othello.py:92-103 | a string not two characters long is an invalid format, a non-digit row is refused by the integer conversion, a column or row outside the board is out of bounds; accepted exactly for a..h followed by 1..8, giving a board square |
| Notation.PositionRoundTrip | othello.py:85-103 | parsing the notation of a square gives the square back |
| Notation.NotationRoundTrip | othello.py:85-103 | every accepted string is the notation of the square it parses to |
| Notation.NotationInjective | othello.py:85-89 | distinct squares have distinct notations |
| Notation.Insert | othello.py:109 | inserting into a sorted list keeps it sorted and adds exactly that string |
| Notation.SortStrings | othello.py:109 | the sort returns a sorted permutation of its input |
| Notation.JoinLayout | othello.py:109 | joining two-character notations with ", " puts notation k at offset 4k with a separator after every notation but the last |
| Notation.Notations | othello.py:108 | the listing converts every move, in order, to its notation |
| Notation.FormatMoves | othello.py:106-109 | the listing is empty exactly when there is no move |
| Notation.FormatMovesMeaning | othello.py:106-109 | the listing holds every move's notation once per occurrence, in string order, at offsets 0, 4, 8, ... separated by ", " |
| Notation.NotationExamples | othello.py:92-103 | d3 and e6 are squares 19 and 44; i1, a9 and a0 are out of bounds, ax is not a number and d10 has an invalid format |
| Notation.FormatOrdersByLetter | othello.py:106-109 | the listing orders by notation, not by square: moves 12 and 19 are listed as "d3, e2" |
| Scenarios.BlackStartMoves | test/test_legal_moves.py:14-22 | on the default board `Board.Initial` black may play exactly d3, c4, f5 and e6 (19, 26, 37, 44) |
| Scenarios.WhiteStartMoves | test/test_legal_moves.py:24-32 | on the starting board with white to move, white may play exactly 20, 29, 34 and 43 |
| Scenarios.SwappedStartMoves | test/test_legal_moves.py:93-108 | with the centre colours swapped black has legal moves, exactly 20, 29, 34 and 43 |
| Scenarios.OwnPiecesOnly | test/test_legal_moves.py:110-123 | with black on 0 and 2 and no white piece, square 1 is not legal and there is no legal move at all |
| Scenarios.HorizontalCapture | test/test_legal_moves.py:49-61 | black on 0 and white on 1: square 2 is legal for black |
| Scenarios.HorizontalPlay | make_move.py:44-63 | playing 2 there leaves black with exactly 0, 1, 2 and white with nothing |
| Scenarios.VerticalCapture | test/test_legal_moves.py:63-76 | black on 0 and white on 8: square 16 is legal for black |
| Scenarios.DiagonalCapture | test/test_legal_moves.py:78-91 | black on 0 and white on 9: square 18 is legal for black |
| Scenarios.SouthwardCapture | test/test_legal_moves.py:173-181 | black on 16 and white on 8: square 0 is legal for black |
| Scenarios.RunCapture | test/test_legal_moves.py:140-152 | black on 0 and white on 1 and 2: square 3 is legal and turns both white pieces black |
| Scenarios.StartRejects | test/test_make_move.py:26-38 | on the default board the corner 0 is refused as illegal and -1 and 64 as out of range |
| Scenarios.BlackOpening | test/test_make_move.py:40-55 | black's 19 on the default board takes 19 and 27 for black, removes 27 from white and hands the move to white |
| Scenarios.WhiteOpening | test/test_make_move.py:70-85 | white's 20 at the start takes 20 and 28 for white, removes 28 from black and hands the move to black |

## Left out

- The console front end (`othello.py` apart from the notation helpers, `display_board.py`) and the weight-tuning script (`train.py`): input/output and offline weight tuning, not game logic.
- Bit masks are modelled as sets of squares. Complementing the occupied mask within 64 bits is membership in neither set. Counting bits is set cardinality, which agrees on boards whose masks hold only squares 0..63 (`Board.Valid`).
- Python floats are modelled as exact reals, so rounding is not modelled. The evaluator's repeated addition of the corner-adjacency weight becomes one multiplication. `float('-inf')`/`float('inf')` become the `Bound` cases.
- Evaluation.FeaturesOf: the evaluator's feature extraction and weighted sum carry no contract of their own; they are stated through the antisymmetry and corner lemmas.
- MonteCarlo.BestChild: the UCT formula (square root and logarithm of visit counts) is the parameter `uct`. Only the rule that an unvisited child is taken first is stated; the choice among visited children is left to the parameter.
- MonteCarlo.Simulate: the uniform distribution of `random.choice` is not modelled. The draws are a parameter, and every draw sequence is covered.
- RandomStrategy.ChooseMove, Strangle.ChooseMove and NegamaxSearch.ChooseMove: `random.choice` is the draw parameter `pick`, so uniformity is not stated. `EveryMoveReachable` states that every legal move can be chosen.
- Board.Create: `uuid.uuid4()` is the parameter `freshId`. Uniqueness of generated ids is outside the model.
- NegamaxSearch.ChooseMove: requires a depth of at least 1. With depth 0 the source searches the children at depth -1, which never reaches the depth-0 base case.
- NegamaxSearch.CandidatesMeaning: at depth 2 or more it states only that the candidates include every move of best unpruned value. A move whose pruned score equals alpha may have a lower true value, so the root can also keep such a move. `NegamaxSearch.CandidatesAreTop` states exactly which moves are kept in terms of the computed scores.
- MonteCarlo.Search: node values are integers, the sums of playout results -1, 0 and 1, which the source accumulates in floats exactly. Each node's value is taken from the root player's perspective, as in the source.
- Notation.FromNotation: a row character counts as a digit only for ASCII `0`..`9`. Python's `int()` also accepts other Unicode decimal digits.
- Notation.ToNotation: requires a board square, because only legal moves are formatted.
- `test_no_legal_moves` and `test_must_sandwich_pieces` in `test/test_legal_moves.py` make no assertion about the moves, so there is nothing to state for them. `test_valid_move_returns_new_state` is about object identity, which immutable values make moot.
- Behaviours of the program that the model keeps as they are:
  - `Transition.MakeMove` accepts a pass in any position, as make_move.py:19-26 does, even when the mover has a legal move.
  - make_move raises `ValueError` both for a square outside 0..63 and for an illegal square (make_move.py:28-33). The model keeps `OutOfRange` and `IllegalMove` apart.
  - The Monte Carlo player returns no move not only when there is no legal move but also after zero explorations, since the root then has no child (strategy_mcts.py:28-47).
  - At depth 1 the negamax root scores each move by the negated static score of the position it leads to, which is evaluated for the opponent (strategy_negamax.py:46). `NegamaxSearch.ChooseMoveOnePly` states it that way.
