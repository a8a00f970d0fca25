/**
 * The Monte Carlo tree search strategy.
 *
 * The search tree is an arena: a sequence of nodes in which a node refers
 * to its parent and children by index, the root is node 0, and every node
 * comes after its parent. Operations take a tree and return the updated
 * tree. The UCT formula is abstracted into a function parameter and the
 * random playout choices into a stream of draws.
 */
module MonteCarlo {
  import opened Wrappers
  import opened Board
  import opened MoveRules
  import opened Transition

  /** Each square as a placement. */
  function Placements(squares: seq<int>): (r: seq<Option<int>>)
    ensures |r| == |squares|
    ensures forall m :: Some(m) in r <==> m in squares
    ensures None !in r
  {
    if squares == [] then [] else [Some(squares[0])] + Placements(squares[1..])
  }

  /** The legal moves as moves of the transition; a lone pass when there is none. */
  function MovesIncludingPass(s: BoardState): (r: seq<Option<int>>)
    ensures |r| > 0
    ensures forall m :: Some(m) in r <==> m in LegalMoves(s)
    ensures None in r <==> LegalMoves(s) == []
  {
    var moves := LegalMoves(s);
    if moves != [] then Placements(moves) else [None]
  }

  /** The transition accepts every move of the list. */
  lemma MovesIncludingPassAccepted(s: BoardState, m: Option<int>)
    requires m in MovesIncludingPass(s)
    ensures MakeMove(m, s).Ok?
  {
  }

  /** The game is over when the side to move has no move and, after a pass, the other side has none either. */
  predicate IsGameOver(s: BoardState) {
    LegalMoves(s) == [] && LegalMoves(MakeMove(None, s).value) == []
  }

  /** On a board with every square occupied neither side can move, so the game is over. */
  lemma FullBoardIsOver(s: BoardState)
    requires forall x :: IsSquare(x) ==> x in s.black + s.white
    ensures IsGameOver(s)
  {
    assert forall x :: IsSquare(x) ==> !IsEmptySquare(x, Mover(s), Opponent(s));
    var t := MakeMove(None, s).value;
    assert forall x :: IsSquare(x) ==> !IsEmptySquare(x, Mover(t), Opponent(t));
  }

  /** Whether the game is over does not depend on which side is to move. */
  lemma GameOverEitherSide(s: BoardState)
    ensures IsGameOver(s) <==> IsGameOver(Toggled(s))
  {
    ToggledTwice(s);
  }

  /** The position after a move the transition accepts (and the same position otherwise). */
  function Advance(m: Option<int>, s: BoardState): (t: BoardState)
    ensures MakeMove(m, s).Ok? ==> MakeMove(m, s) == Ok(t)
  {
    match MakeMove(m, s)
    case Ok(t) => t
    case Err(_) => s
  }

  /** The result of a finished playout for `root`: 0 for a draw, 1 if `root` has more pieces, -1 otherwise. */
  function Outcome(s: BoardState, root: Player): (r: int)
    ensures r == 1 || r == 0 || r == -1
    ensures r == 0 <==> |s.black| == |s.white|
    ensures r == 1 <==> (if root == Black then |s.black| > |s.white| else |s.white| > |s.black|)
  {
    var blackCount, whiteCount := |s.black|, |s.white|;
    if blackCount == whiteCount then 0
    else
      var winner := if blackCount > whiteCount then Black else White;
      assert winner == root <==> (if root == Black then blackCount > whiteCount else whiteCount > blackCount);
      if winner == root then 1 else -1
  }

  /** The empty squares of the board. */
  function Empty(s: BoardState): set<int> {
    set x | 0 <= x < 64 && x !in s.black + s.white
  }

  /** A legal move fills one empty square and empties none. */
  lemma PlayFillsOneEmpty(s: BoardState, m: int)
    requires m in LegalMoves(s)
    ensures Empty(Play(s, m)) == Empty(s) - {m}
    ensures |Empty(Play(s, m))| == |Empty(s)| - 1
  {
    PlayOccupiesOneSquare(s, m);
    assert m in Empty(s);
  }

  /**
   * A random playout: the side to move plays the legal move the draw
   * selects, or passes when it has none, until two passes follow each
   * other. Returns the outcome for `root` and the final position, at which
   * the game is over and every square occupied at the start still is.
   */
  method Simulate(s: BoardState, root: Player, draws: nat -> nat) returns (r: int, last: BoardState)
    ensures IsGameOver(last)
    ensures s.black + s.white <= last.black + last.white
    ensures r == Outcome(last, root)
  {
    var state := s;
    var passes := 0;
    var step := 0;
    while passes < 2
      invariant 0 <= passes <= 2
      invariant s.black + s.white <= state.black + state.white
      invariant passes >= 1 ==> LegalMoves(Toggled(state)) == []
      invariant passes == 2 ==> LegalMoves(state) == []
      decreases |Empty(state)|, 2 - passes
    {
      var moves := LegalMoves(state);
      if moves == [] {
        ToggledTwice(state);
        state := MakeMove(None, state).value;
        passes := passes + 1;
        continue;
      }
      passes := 0;
      var move := moves[draws(step) % |moves|];
      PlayFillsOneEmpty(state, move);
      state := MakeMove(Some(move), state).value;
      step := step + 1;
    }
    r := Outcome(state, root);
    last := state;
  }

  /** The moves of a position (with a lone pass when there is none) and the transition the tree is built with. */
  datatype Rules = Rules(moves: BoardState -> seq<Option<int>>, advance: (Option<int>, BoardState) -> BoardState)

  /** The rules of this model. */
  function OthelloRules(): Rules {
    Rules(MovesIncludingPass, Advance)
  }

  /**
   * A search-tree node: its position, its parent and the move that led to
   * it (none for the root), its children, the moves not yet expanded, and
   * its visit count and summed playout results.
   */
  datatype Node = Node(
    state: BoardState,
    parent: Option<nat>,
    move: Option<int>,
    children: seq<nat>,
    untried: seq<Option<int>>,
    visits: nat,
    value: int)

  /** A fresh node: no children, every move of the position untried, no visits. */
  function NewNode(rules: Rules, state: BoardState, parent: Option<nat>, move: Option<int>): Node {
    Node(state, parent, move, [], rules.moves(state), 0, 0)
  }

  /**
   * The shape of the arena at node j: only node 0 lacks a parent; every
   * other node comes after its parent and was reached from the parent's
   * position by one of its moves; children come after the node and name
   * it as parent; untried moves are moves of the position, and untried
   * moves plus children account for all of them.
   */
  predicate NodeOk(rules: Rules, tree: seq<Node>, j: nat)
    requires j < |tree|
  {
    var n := tree[j];
    && (j == 0 <==> n.parent.None?)
    && (n.parent.Some? ==>
          var p := n.parent.value;
          && p < j
          && n.move in rules.moves(tree[p].state)
          && n.state == rules.advance(n.move, tree[p].state))
    && (forall k :: 0 <= k < |n.children| ==> j < n.children[k] < |tree| && tree[n.children[k]].parent == Some(j))
    && (forall k :: 0 <= k < |n.untried| ==> n.untried[k] in rules.moves(n.state))
    && |n.untried| + |n.children| == |rules.moves(n.state)|
  }

  predicate IsTree(rules: Rules, tree: seq<Node>) {
    |tree| > 0 && forall j :: 0 <= j < |tree| ==> NodeOk(rules, tree, j)
  }

  /** The node without its statistics. */
  function Shape(n: Node): Node {
    n.(visits := 0, value := 0)
  }

  /** The arena shape ignores visit counts and values. */
  lemma ShapeSuffices(rules: Rules, tree: seq<Node>, t: seq<Node>)
    requires |t| == |tree| && forall j :: 0 <= j < |tree| ==> Shape(t[j]) == Shape(tree[j])
    ensures IsTree(rules, t) <==> IsTree(rules, tree)
  {
    forall j | 0 <= j < |tree|
      ensures NodeOk(rules, t, j) <==> NodeOk(rules, tree, j)
    {
      assert forall k :: 0 <= k < |tree| ==> t[k].state == tree[k].state && t[k].parent == tree[k].parent;
    }
  }

  /**
   * Expansion of node i: its last untried move is removed and played, and
   * the resulting position becomes a new last node, a child of i with no
   * statistics. Returns the new arena and the new node's index.
   */
  function Expand(rules: Rules, tree: seq<Node>, i: nat): (r: (seq<Node>, nat))
    requires IsTree(rules, tree) && i < |tree| && tree[i].untried != []
    ensures var (t, c) := r;
            var n, m := tree[i], tree[i].untried[|tree[i].untried| - 1];
            && IsTree(rules, t) && c == |tree| && |t| == |tree| + 1
            && t[c] == NewNode(rules, rules.advance(m, n.state), Some(i), m)
            && m in rules.moves(n.state)
            && t[i] == n.(untried := n.untried[..|n.untried| - 1], children := n.children + [c])
            && forall j :: 0 <= j < |tree| && j != i ==> t[j] == tree[j]
  {
    var n := tree[i];
    var m := n.untried[|n.untried| - 1];
    var t := tree[i := n.(untried := n.untried[..|n.untried| - 1], children := n.children + [|tree|])]
             + [NewNode(rules, rules.advance(m, n.state), Some(i), m)];
    assert NodeOk(rules, tree, i);
    ExpandKeepsTree(rules, tree, i, t);
    (t, |tree|)
  }

  lemma ExpandKeepsTree(rules: Rules, tree: seq<Node>, i: nat, t: seq<Node>)
    requires IsTree(rules, tree) && i < |tree| && tree[i].untried != []
    requires var n := tree[i];
             var m := n.untried[|n.untried| - 1];
             t == tree[i := n.(untried := n.untried[..|n.untried| - 1], children := n.children + [|tree|])]
                  + [NewNode(rules, rules.advance(m, n.state), Some(i), m)]
    ensures IsTree(rules, t)
  {
    var c := |tree|;
    assert NodeOk(rules, tree, i);
    forall j | 0 <= j < |t|
      ensures NodeOk(rules, t, j)
    {
      if j == c {
      } else if j == i {
      } else {
        assert NodeOk(rules, tree, j);
        assert t[j] == tree[j];
      }
    }
  }

  /** Every parent comes before its child. */
  predicate ParentsFirst(tree: seq<Node>) {
    forall j :: 0 <= j < |tree| && tree[j].parent.Some? ==> tree[j].parent.value < j
  }

  lemma TreeParentsFirst(rules: Rules, tree: seq<Node>)
    requires IsTree(rules, tree)
    ensures ParentsFirst(tree)
  {
    forall j | 0 <= j < |tree| && tree[j].parent.Some?
      ensures tree[j].parent.value < j
    {
      assert NodeOk(rules, tree, j);
    }
  }

  /** The nodes from j up to the root, following parent links. */
  function Path(tree: seq<Node>, j: nat): (p: set<nat>)
    requires ParentsFirst(tree) && j < |tree|
    ensures j in p && forall k :: k in p ==> k <= j
    decreases j
  {
    {j} + if tree[j].parent.None? then {} else Path(tree, tree[j].parent.value)
  }

  /** In a tree every path ends at the root. */
  lemma {:induction false} PathReachesRoot(rules: Rules, tree: seq<Node>, j: nat)
    requires IsTree(rules, tree) && j < |tree|
    ensures (TreeParentsFirst(rules, tree); 0 in Path(tree, j))
    decreases j
  {
    TreeParentsFirst(rules, tree);
    assert NodeOk(rules, tree, j);
    if j != 0 {
      PathReachesRoot(rules, tree, tree[j].parent.value);
    }
  }

  /** A node with one more visit and `result` added to its value. */
  function Credit(n: Node, result: int): Node {
    n.(visits := n.visits + 1, value := n.value + result)
  }

  /**
   * Backpropagation: every node on the path from `leaf` to the root gets
   * one more visit and `result` added to its value; no other node changes.
   */
  method Backpropagate(tree: seq<Node>, leaf: nat, result: int) returns (t: seq<Node>)
    requires ParentsFirst(tree) && leaf < |tree|
    ensures |t| == |tree|
    ensures forall j :: 0 <= j < |tree| ==> t[j] == if j in Path(tree, leaf) then Credit(tree[j], result) else tree[j]
  {
    t := tree;
    var node: Option<nat> := Some(leaf);
    while node.Some?
      invariant |t| == |tree|
      invariant node.Some? ==> node.value < |tree| && Path(tree, node.value) <= Path(tree, leaf)
      invariant forall j :: 0 <= j < |tree| ==>
                  t[j] == if j in Path(tree, leaf) && !(node.Some? && j in Path(tree, node.value))
                          then Credit(tree[j], result) else tree[j]
      decreases if node.Some? then node.value + 1 else 0
    {
      var i := node.value;
      assert t[i] == tree[i];
      t := t[i := Credit(t[i], result)];
      node := tree[i].parent;
    }
  }

  /** Backpropagation keeps the arena a tree and gives the root one more visit. */
  lemma BackpropagateKeepsTree(rules: Rules, tree: seq<Node>, leaf: nat, result: int, t: seq<Node>)
    requires IsTree(rules, tree) && leaf < |tree|
    requires (TreeParentsFirst(rules, tree);
              && |t| == |tree|
              && forall j :: 0 <= j < |tree| ==> t[j] == if j in Path(tree, leaf) then Credit(tree[j], result) else tree[j])
    ensures IsTree(rules, t)
    ensures t[0] == Credit(tree[0], result)
  {
    ShapeSuffices(rules, tree, t);
    PathReachesRoot(rules, tree, leaf);
  }

  /** The position in `kids` of the first node without visits, if any. */
  function FirstUnvisited(tree: seq<Node>, kids: seq<nat>): (r: Option<nat>)
    requires forall q :: 0 <= q < |kids| ==> kids[q] < |tree|
    ensures r.Some? ==> r.value < |kids| && tree[kids[r.value]].visits == 0
                        && forall q :: 0 <= q < r.value ==> tree[kids[q]].visits > 0
    ensures r.None? ==> forall q :: 0 <= q < |kids| ==> tree[kids[q]].visits > 0
  {
    if kids == [] then None
    else if tree[kids[0]].visits == 0 then Some(0)
    else match FirstUnvisited(tree, kids[1..])
      case None => None
      case Some(q) => Some(q + 1)
  }

  /**
   * The child of node i that selection descends to: the first child
   * without visits when there is one, otherwise the child the UCT rule
   * `uct` ranks best.
   */
  function BestChild(tree: seq<Node>, i: nat, uct: (seq<Node>, nat) -> nat): (c: nat)
    requires i < |tree| && tree[i].children != []
    requires forall q :: 0 <= q < |tree[i].children| ==> tree[i].children[q] < |tree|
    ensures c in tree[i].children
    ensures (exists q :: 0 <= q < |tree[i].children| && tree[tree[i].children[q]].visits == 0) ==>
              exists p :: 0 <= p < |tree[i].children| && tree[i].children[p] == c && tree[c].visits == 0
                && forall q :: 0 <= q < p ==> tree[tree[i].children[q]].visits > 0
  {
    var kids := tree[i].children;
    match FirstUnvisited(tree, kids)
    case Some(p) => kids[p]
    case None => kids[uct(tree, i) % |kids|]
  }

  /**
   * Selection: starting at the root, descend to the best child while the
   * node has children and no untried move. The node reached has an
   * untried move or no children; selection stays at the root when the
   * root has an untried move or no children.
   */
  method Select(rules: Rules, tree: seq<Node>, uct: (seq<Node>, nat) -> nat) returns (node: nat)
    requires IsTree(rules, tree)
    ensures node < |tree|
    ensures tree[node].untried != [] || tree[node].children == []
    ensures (tree[0].untried != [] || tree[0].children == []) ==> node == 0
  {
    node := 0;
    while tree[node].untried == [] && tree[node].children != []
      invariant node < |tree|
      invariant (tree[0].untried != [] || tree[0].children == []) ==> node == 0
      decreases |tree| - node
    {
      assert NodeOk(rules, tree, node);
      var c := BestChild(tree, node, uct);
      var q :| 0 <= q < |tree[node].children| && tree[node].children[q] == c;
      node := c;
    }
  }

  /** The position in `kids` of the first node with the most visits. */
  method MostVisited(tree: seq<Node>, kids: seq<nat>) returns (r: Option<nat>)
    requires forall q :: 0 <= q < |kids| ==> kids[q] < |tree|
    ensures r.None? <==> kids == []
    ensures r.Some? ==> r.value < |kids|
                        && (forall q :: 0 <= q < |kids| ==> tree[kids[q]].visits <= tree[kids[r.value]].visits)
                        && (forall q :: 0 <= q < r.value ==> tree[kids[q]].visits < tree[kids[r.value]].visits)
  {
    if kids == [] {
      return None;
    }
    var best := 0;
    for q := 1 to |kids|
      invariant best < q
      invariant forall q' :: 0 <= q' < q ==> tree[kids[q']].visits <= tree[kids[best]].visits
      invariant forall q' :: 0 <= q' < best ==> tree[kids[q']].visits < tree[kids[best]].visits
    {
      if tree[kids[q]].visits > tree[kids[best]].visits {
        best := q;
      }
    }
    r := Some(best);
  }

  /**
   * One round of the search: selection, expansion of the selected node
   * unless its game is over, a playout from the node reached scored for
   * `root`, and backpropagation of that result. The root gains one visit
   * and keeps its position and its children; a root with untried moves
   * whose game is not over gains a child.
   */
  method Explore(tree: seq<Node>, root: Player, uct: (seq<Node>, nat) -> nat, draws: nat -> nat)
    returns (t: seq<Node>)
    requires IsTree(OthelloRules(), tree)
    ensures IsTree(OthelloRules(), t) && t[0].state == tree[0].state && t[0].visits == tree[0].visits + 1
    ensures tree[0].children != [] ==> t[0].children != []
    ensures tree[0].untried != [] && !IsGameOver(tree[0].state) ==> t[0].children != []
  {
    var rules := OthelloRules();
    t := tree;
    var node := Select(rules, t, uct);
    if !IsGameOver(t[node].state) {
      assert NodeOk(rules, t, node);
      var expanded := Expand(rules, t, node);
      t, node := expanded.0, expanded.1;
    }
    var result, _ := Simulate(t[node].state, root, draws);
    TreeParentsFirst(rules, t);
    var u := Backpropagate(t, node, result);
    BackpropagateKeepsTree(rules, t, node, result, u);
    t := u;
  }

  /**
   * The search loop: `explorations` rounds of selection, expansion of the
   * selected node unless its game is over, a playout from the node reached
   * (draws of round k come from `draws(k, _)`) scored for the side to move
   * at the root, and backpropagation of that result. The root then has one
   * visit per round, and a child as soon as one round has run on a position
   * that is not over.
   */
  method Search(s: BoardState, explorations: nat, uct: (seq<Node>, nat) -> nat, draws: (nat, nat) -> nat)
    returns (tree: seq<Node>)
    ensures IsTree(OthelloRules(), tree) && tree[0].state == s && tree[0].visits == explorations
    ensures explorations == 0 ==> tree[0].children == []
    ensures explorations > 0 && !IsGameOver(s) ==> tree[0].children != []
  {
    var rules := OthelloRules();
    tree := [NewNode(rules, s, None, None)];
    assert NodeOk(rules, tree, 0);
    for k := 0 to explorations
      invariant IsTree(rules, tree) && tree[0].state == s && tree[0].visits == k
      invariant k == 0 ==> tree == [NewNode(rules, s, None, None)]
      invariant k > 0 && !IsGameOver(s) ==> tree[0].children != []
    {
      tree := Explore(tree, s.next, uct, step => draws(k, step));
    }
  }


  predicate RootChildrenInTree(tree: seq<Node>) {
    |tree| > 0 && forall q :: 0 <= q < |tree[0].children| ==> tree[0].children[q] < |tree|
  }

  /** Every child of the root is a node of the tree, reached by a move the root position offers. */
  lemma RootChildAllowed(rules: Rules, tree: seq<Node>)
    requires IsTree(rules, tree)
    ensures RootChildrenInTree(tree)
    ensures forall q :: 0 <= q < |tree[0].children| ==>
              tree[tree[0].children[q]].move in rules.moves(tree[0].state)
  {
    assert NodeOk(rules, tree, 0);
    forall q | 0 <= q < |tree[0].children|
      ensures tree[tree[0].children[q]].move in rules.moves(tree[0].state)
    {
      assert NodeOk(rules, tree, tree[0].children[q]);
    }
  }

  /** Where a legal move exists the move list offers no pass, so every offered move is a legal placement. */
  lemma OfferedMoveIsLegal(s: BoardState, m: Option<int>)
    requires m in MovesIncludingPass(s) && LegalMoves(s) != []
    ensures m.Some? && m.value in LegalMoves(s)
  {
  }

  /** The move of the first root child with the most visits, or none when the root has no child. */
  method MostVisitedMove(tree: seq<Node>) returns (r: Option<int>)
    requires RootChildrenInTree(tree)
    ensures tree[0].children == [] ==> r.None?
    ensures tree[0].children != [] ==>
              var kids := tree[0].children;
              exists p :: 0 <= p < |kids| && r == tree[kids[p]].move
                && (forall q :: 0 <= q < |kids| ==> tree[kids[q]].visits <= tree[kids[p]].visits)
                && (forall q :: 0 <= q < p ==> tree[kids[q]].visits < tree[kids[p]].visits)
  {
    var kids := tree[0].children;
    var best := MostVisited(tree, kids);
    match best
    case None => r := None;
    case Some(p) => r := tree[kids[p]].move;
  }

  /**
   * The search strategy: no move when there is no legal move or no round
   * is run; otherwise the legal move of the most visited root child.
   */
  method ChooseMove(s: BoardState, explorations: nat, uct: (seq<Node>, nat) -> nat, draws: (nat, nat) -> nat)
    returns (r: Option<int>)
    ensures r.None? <==> LegalMoves(s) == [] || explorations == 0
    ensures r.Some? ==> r.value in LegalMoves(s)
  {
    if LegalMoves(s) == [] {
      return None;
    }
    var tree := Search(s, explorations, uct, draws);
    RootChildAllowed(OthelloRules(), tree);
    r := MostVisitedMove(tree);
    if explorations > 0 {
      var kids := tree[0].children;
      var p :| 0 <= p < |kids| && r == tree[kids[p]].move;
      OfferedMoveIsLegal(s, r);
    }
  }
}
