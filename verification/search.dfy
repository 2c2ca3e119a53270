/**
 * The search driver (`MCTS`): playouts from the root, the move choice by
 * visit count, and re-rooting after a move.
 *
 * The policy/value function is a parameter. So is the square root applied
 * to a parent's visit count in the exploration term, given as `sqrt`: the
 * model does not fix how reals are rounded.
 */
module Search {
  import opened Results
  import opened Board
  import opened Game
  import opened Tree

  /** The policy/value function: `(action, prior)` pairs and a value estimate for a state. */
  type Policy = Game -> (seq<(int, real)>, real)

  datatype Mcts = Mcts(root: Node, cPuct: real, nPlayout: nat, policy: Policy)

  datatype SearchError =
    | Rules(e: GameError)   // a move of the descent was rejected by `do_move`
    | NoLegalMoves          // `max` over an empty set of root children

  /** `MCTS(policy_value_fn, c_puct, n_playout)`: a root with prior 1.0 and no statistics. */
  function NewMcts(policy: Policy, cPuct: real, nPlayout: nat): (m: Mcts)
    ensures m.root == Fresh(1.0) && m.cPuct == cPuct && m.nPlayout == nPlayout && m.policy == policy
  {
    Mcts(Fresh(1.0), cPuct, nPlayout, policy)
  }

  // ---------------------------------------------------------------------
  // The value a leaf is scored with

  /**
   * The value of the state reached at the leaf, from the point of view of
   * the player to move there: the policy's estimate while the game goes on,
   * 0 for a finished game without a winner, and +1 or -1 as the winner is or
   * is not the player to move.
   */
  function LeafValue(g: Game, estimate: real): (v: real)
    requires Is3x3(g.board)
    ensures g.winner.Some? ==> (v == 1.0 <==> g.winner.value == g.currentPlayer)
    ensures g.winner.Some? ==> (v == -1.0 <==> g.winner.value != g.currentPlayer)
    ensures g.winner.None? && IsFull(g.board) ==> v == 0.0
    ensures g.winner.None? && !IsFull(g.board) ==> v == estimate
    ensures -1.0 <= estimate <= 1.0 ==> -1.0 <= v <= 1.0
  {
    var (end, winner) := GameEnd(g);
    if !end then estimate
    else if winner.None? then 0.0
    else if winner.value == g.currentPlayer then 1.0 else -1.0
  }

  /** The error the leaf scoring raises as written: the game has no `current_player_id`. */
  datatype AttributeError = MissingCurrentPlayerId

  /**
   * The leaf scoring as written: the winning branch reads an attribute the
   * game object does not have, so it raises instead of yielding a value.
   */
  function LeafValueAsWritten(g: Game, estimate: real): (r: Result<real, AttributeError>)
    requires Is3x3(g.board)
    ensures r.Err? <==> g.winner.Some?
    ensures r.Ok? ==> r.value == LeafValue(g, estimate)
  {
    var (end, winner) := GameEnd(g);
    if !end then Ok(estimate)
    else if winner.None? then Ok(0.0)
    else Err(MissingCurrentPlayerId)
  }

  /** A game won by player 1, player 2 to move: the state right after player 1's winning move. */
  const WonByPlayerOne := Game([[1, 1, 1], [2, 2, 0], [0, 0, 0]],
                               [Placeholder, Placed(Pos(0, 0)), Placed(Pos(0, 1)), Placed(Pos(0, 2))],
                               [Placeholder, Placeholder, Placed(Pos(1, 0)), Placed(Pos(1, 1))],
                               2, Some(1))

  /** On that state the written scoring raises; the intended one scores -1 for the player to move. */
  lemma LeafValueAsWrittenCounterexample(g: Game)
    requires g == WonByPlayerOne
    ensures WellFormed(g)
    ensures LeafValueAsWritten(g, 0.0) == Err(MissingCurrentPlayerId)
    ensures LeafValue(g, 0.0) == -1.0
  {
    assert GameEnd(g) == (true, Some(1));
  }

  /**
   * After a move that wins the game, the intended leaf value is -1 for the
   * player now to move, so the node the mover's move leads to is updated
   * with +1: a win counts for the player who made it.
   */
  lemma WinningMoveScoresForMover(g: Game, a: int, estimate: real)
    requires WellFormed(g) && g.winner.None?
    requires DoMove(g, a).Ok? && DoMove(g, a).value.winner.Some?
    ensures -LeafValue(DoMove(g, a).value, estimate) == 1.0
  {
    DoMoveTurnAndWinner(g, a);
  }

  // ---------------------------------------------------------------------
  // playout

  /**
   * The step of `playout` after the descent: with `g` the state at the leaf
   * reached by `path`, expand the leaf with the policy's priors unless the
   * game has ended, then back up the negated leaf value along the path.
   */
  function Evaluate(root: Node, path: seq<int>, g: Game, policy: Policy): (r: Node)
    requires ValidPath(root, path) && WellFormed(g)
    ensures r.visits == root.visits + 1
    ensures ValidPath(r, path)
  {
    ExpandAndBackup(root, path, !GameEnd(g).0, policy(g).0, -LeafValue(g, policy(g).1))
  }

  /**
   * The effect of a completed playout on the tree: every node on the path,
   * root included, gains one visit and is updated with the leaf value,
   * negated once per level; the nodes above the leaf keep their children's
   * actions; every node off the path is unchanged.
   */
  lemma EvaluateEffect(root: Node, path: seq<int>, g: Game, policy: Policy, q: seq<int>)
    requires ValidPath(root, path) && WellFormed(g)
    ensures ValidPath(root, q) ==> ValidPath(Evaluate(root, path, g, policy), q)
    ensures ValidPath(root, q) && IsPrefix(q, path) ==>
      Stats(NodeAt(Evaluate(root, path, g, policy), q))
        == Stats(Update(NodeAt(root, q), Alternate(|path| - |q|, -LeafValue(g, policy(g).1))))
    ensures ValidPath(root, q) && IsPrefix(q, path) && |q| < |path| ==>
      NodeAt(Evaluate(root, path, g, policy), q).children.Keys == NodeAt(root, q).children.Keys
    ensures ValidPath(root, q) && !IsPrefix(q, path) ==>
      NodeAt(Evaluate(root, path, g, policy), q) == NodeAt(root, q)
  {
    ExpandAndBackupEffect(root, path, !GameEnd(g).0, policy(g).0, -LeafValue(g, policy(g).1), q);
  }

  /**
   * The leaf a playout reaches gains the policy's actions as children unless
   * the game there has ended, in which case its children stay as they were.
   */
  lemma EvaluateExpandsLeaf(root: Node, path: seq<int>, g: Game, policy: Policy)
    requires ValidPath(root, path) && WellFormed(g)
    ensures !GameEnd(g).0 ==>
      NodeAt(Evaluate(root, path, g, policy), path).children.Keys
        == NodeAt(root, path).children.Keys + ActionsOf(policy(g).0)
    ensures GameEnd(g).0 ==>
      NodeAt(Evaluate(root, path, g, policy), path).children.Keys == NodeAt(root, path).children.Keys
  {
    ExpandAndBackupLeaf(root, path, !GameEnd(g).0, policy(g).0, -LeafValue(g, policy(g).1));
  }

  /** The `k`-th action of `path` was chosen by `select` at the node it leaves. */
  predicate SelectedAt(m: Mcts, path: seq<int>, k: int, sqrt: nat -> real)
    requires 0 <= k < |path|
  {
    && ValidPath(m.root, path[..k])
    && IsBestChild(NodeAt(m.root, path[..k]), path[k], m.cPuct, sqrt(NodeAt(m.root, path[..k]).visits))
  }

  /** Extending a descent by one more selected action keeps the earlier choices. */
  lemma DescentExtend(m: Mcts, path: seq<int>, a: int, sqrt: nat -> real)
    requires ValidPath(m.root, path)
    requires forall k :: 0 <= k < |path| ==> SelectedAt(m, path, k, sqrt)
    requires IsBestChild(NodeAt(m.root, path), a, m.cPuct, sqrt(NodeAt(m.root, path).visits))
    ensures forall k :: 0 <= k < |path| + 1 ==> SelectedAt(m, path + [a], k, sqrt)
  {
    forall k | 0 <= k < |path| + 1
      ensures SelectedAt(m, path + [a], k, sqrt)
    {
      assert (path + [a])[..k] == path[..k];
      if k < |path| {
        assert (path + [a])[k] == path[k];
        assert SelectedAt(m, path, k, sqrt);
      } else {
        assert path[..k] == path;
      }
    }
  }

  /**
   * `playout`: from the root, move to the best-scoring child while the node
   * has children, playing each chosen action on the state; at the leaf,
   * evaluate and back up. A move `do_move` rejects ends the playout with that
   * error before anything in the tree changes. On success the tree gains
   * exactly one visit on every node of the path, only the leaf gains
   * children, and nothing off the path changes.
   */
  method Playout(m: Mcts, state: Game, sqrt: nat -> real) returns (r: Result<Node, GameError>, path: seq<int>)
    requires WellFormed(state)
    ensures ValidPath(m.root, path)
    ensures forall k :: 0 <= k < |path| ==> SelectedAt(m, path, k, sqrt)
    ensures r.Err? ==> |path| > 0 && Play(state, path) == Err(r.error) && Play(state, path[..|path| - 1]).Ok?
    ensures r.Ok? ==> IsLeaf(NodeAt(m.root, path)) && Play(state, path).Ok?
    ensures r.Ok? ==> r.value == Evaluate(m.root, path, Play(state, path).value, m.policy)
    ensures r.Ok? ==> r.value.visits == m.root.visits + 1
    ensures r.Ok? ==> forall q :: ValidPath(m.root, q) && IsPrefix(q, path) ==>
      ValidPath(r.value, q) && NodeAt(r.value, q).visits == NodeAt(m.root, q).visits + 1
    ensures r.Ok? ==> forall q :: ValidPath(m.root, q) && IsPrefix(q, path) && |q| < |path| ==>
      NodeAt(r.value, q).children.Keys == NodeAt(m.root, q).children.Keys
    ensures r.Ok? ==> var g := Play(state, path).value;
      NodeAt(r.value, path).children.Keys == if GameEnd(g).0 then {} else ActionsOf(m.policy(g).0)
    ensures r.Ok? ==> forall q :: ValidPath(m.root, q) && !IsPrefix(q, path) ==>
      ValidPath(r.value, q) && NodeAt(r.value, q) == NodeAt(m.root, q)
  {
    var node := m.root;
    var g := state;
    path := [];
    assert Play(state, []) == Ok(state);
    while !IsLeaf(node)
      invariant ValidPath(m.root, path) && node == NodeAt(m.root, path)
      invariant WellFormed(g) && Play(state, path) == Ok(g)
      invariant forall k :: 0 <= k < |path| ==> SelectedAt(m, path, k, sqrt)
      decreases node
    {
      var a, child := Select(node, m.cPuct, sqrt(node.visits));
      PathExtend(m.root, path, a);
      DescentExtend(m, path, a, sqrt);
      PlayAppend(state, path, a);
      var next := DoMove(g, a);
      assert (path + [a])[..|path|] == path;
      path := path + [a];
      if next.Err? {
        r := Err(next.error);
        return;
      }
      node := child;
      g := next.value;
    }
    r := Ok(Evaluate(m.root, path, g, m.policy));
    forall q | ValidPath(m.root, q)
      ensures ValidPath(r.value, q)
      ensures IsPrefix(q, path) ==> NodeAt(r.value, q).visits == NodeAt(m.root, q).visits + 1
      ensures IsPrefix(q, path) && |q| < |path| ==> NodeAt(r.value, q).children.Keys == NodeAt(m.root, q).children.Keys
      ensures !IsPrefix(q, path) ==> NodeAt(r.value, q) == NodeAt(m.root, q)
    {
      EvaluateEffect(m.root, path, g, m.policy, q);
    }
    EvaluateExpandsLeaf(m.root, path, g, m.policy);
  }

  // ---------------------------------------------------------------------
  // get_move

  /** Action `a` is a child of the root with the most visits. */
  predicate IsMostVisited(n: Node, a: int) {
    a in n.children && forall b :: b in n.children ==> n.children[b].visits <= n.children[a].visits
  }

  /**
   * `t'` is the tree one successful playout from `state` makes of the tree
   * of `m`: the descent `path` picks a best-scoring child at every step down
   * to a leaf, `do_move` accepts every action on it, and the leaf is
   * evaluated.
   */
  predicate PlayoutStep(m: Mcts, state: Game, sqrt: nat -> real, path: seq<int>, t': Node)
    requires WellFormed(state)
  {
    && ValidPath(m.root, path)
    && (forall k :: 0 <= k < |path| ==> SelectedAt(m, path, k, sqrt))
    && IsLeaf(NodeAt(m.root, path))
    && Play(state, path).Ok?
    && t' == Evaluate(m.root, path, Play(state, path).value, m.policy)
  }

  /**
   * `path` is a playout from `state` on the tree of `m` that `do_move`
   * stops: a best-scoring descent whose moves are all accepted except the
   * last, which raises `e`.
   */
  predicate PlayoutFails(m: Mcts, state: Game, sqrt: nat -> real, path: seq<int>, e: GameError)
    requires WellFormed(state)
  {
    && ValidPath(m.root, path)
    && (forall k :: 0 <= k < |path| ==> SelectedAt(m, path, k, sqrt))
    && |path| > 0
    && Play(state, path[..|path| - 1]).Ok?
    && Play(state, path) == Err(e)
  }

  /**
   * `get_move`: run `n_playout` playouts, each on its own copy of the state,
   * then return the root child with the most visits. The tree keeps every
   * completed playout's statistics: `trees` lists the tree before and after
   * each completed playout, with `paths` the descents taken. A rejected move
   * in a playout ends the search with that error, and `failed` is the
   * descent of that playout on the last tree; a root with no children
   * after the playouts is the error `max` raises on an empty sequence.
   */
  method GetMove(m: Mcts, state: Game, sqrt: nat -> real)
    returns (r: Result<int, SearchError>, m': Mcts, ghost trees: seq<Node>, ghost paths: seq<seq<int>>,
             ghost failed: seq<int>)
    requires WellFormed(state)
    ensures m' == m.(root := m'.root)
    ensures r.Ok? || r == Err(NoLegalMoves) <==> m'.root.visits == m.root.visits + m.nPlayout
    ensures r.Ok? ==> IsMostVisited(m'.root, r.value)
    ensures r == Err(NoLegalMoves) ==> IsLeaf(m'.root)
    ensures r.Err? && r.error.Rules? ==> m'.root.visits < m.root.visits + m.nPlayout
    ensures forall q :: ValidPath(m.root, q) ==>
      ValidPath(m'.root, q) && NodeAt(m'.root, q).visits >= NodeAt(m.root, q).visits
    ensures |trees| == |paths| + 1 && trees[0] == m.root && trees[|paths|] == m'.root
    ensures r.Ok? || r == Err(NoLegalMoves) <==> |paths| == m.nPlayout
    ensures forall i :: 0 <= i < |paths| ==> PlayoutStep(m.(root := trees[i]), state, sqrt, paths[i], trees[i + 1])
    ensures r.Err? && r.error.Rules? ==> PlayoutFails(m', state, sqrt, failed, r.error.e)
  {
    m' := m;
    failed := [];
    trees := [m.root];
    paths := [];
    var i := 0;
    while i < m.nPlayout
      invariant 0 <= i <= m.nPlayout
      invariant m' == m.(root := m'.root)
      invariant m'.root.visits == m.root.visits + i
      invariant forall q :: ValidPath(m.root, q) ==>
        ValidPath(m'.root, q) && NodeAt(m'.root, q).visits >= NodeAt(m.root, q).visits
      invariant |paths| == i && |trees| == i + 1 && trees[0] == m.root && trees[i] == m'.root
      invariant forall j :: 0 <= j < i ==> PlayoutStep(m.(root := trees[j]), state, sqrt, paths[j], trees[j + 1])
    {
      var outcome, path := Playout(m', state, sqrt);
      if outcome.Err? {
        r := Err(Rules(outcome.error));
        failed := path;
        assert PlayoutFails(m', state, sqrt, failed, outcome.error);
        return;
      }
      assert PlayoutStep(m', state, sqrt, path, outcome.value);
      forall q | ValidPath(m.root, q)
        ensures ValidPath(outcome.value, q) && NodeAt(outcome.value, q).visits >= NodeAt(m.root, q).visits
      {
        assert ValidPath(m'.root, q);
        if IsPrefix(q, path) {
          assert NodeAt(outcome.value, q).visits == NodeAt(m'.root, q).visits + 1;
        } else {
          assert NodeAt(outcome.value, q) == NodeAt(m'.root, q);
        }
      }
      trees := trees + [outcome.value];
      paths := paths + [path];
      m' := m'.(root := outcome.value);
      i := i + 1;
    }
    if IsLeaf(m'.root) {
      r := Err(NoLegalMoves);
      return;
    }
    var a := ArgMax(m'.root.children, (c: Node) => c.visits as real);
    r := Ok(a);
  }

  // ---------------------------------------------------------------------
  // update_with_move

  /**
   * `update_with_move`: the child reached by the move becomes the root,
   * keeping its subtree; a move the tree has not explored starts over from
   * a fresh root with prior 1.0.
   */
  function UpdateWithMove(m: Mcts, move: int): (r: Mcts)
    ensures r == m.(root := r.root)
    ensures move !in m.root.children ==> r.root == Fresh(1.0)
  {
    if move in m.root.children then m.(root := m.root.children[move]) else m.(root := Fresh(1.0))
  }

  /**
   * Re-rooting on an explored move keeps that subtree intact: a path from the
   * new root is valid exactly when the move followed by it is valid from the
   * old root, and it reaches the same node.
   */
  lemma UpdateWithMoveKeepsSubtree(m: Mcts, move: int, q: seq<int>)
    requires move in m.root.children
    ensures ValidPath(UpdateWithMove(m, move).root, q) <==> ValidPath(m.root, [move] + q)
    ensures ValidPath(m.root, [move] + q) ==> NodeAt(UpdateWithMove(m, move).root, q) == NodeAt(m.root, [move] + q)
  {
    assert ([move] + q)[0] == move;
    assert ([move] + q)[1..] == q;
  }
}
