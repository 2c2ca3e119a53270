/**
 * The search tree's nodes (`TreeNode`): visit count, running mean value Q,
 * prior P and children keyed by action id.
 *
 * The tree is an immutable value. A node is addressed by the sequence of
 * actions leading to it from the root, so the parent pointer the class
 * keeps is not needed: the root is the node at the empty path (`is_root`),
 * and walking parents up to the root is walking the prefixes of a path.
 */
module Tree {

  datatype Node = Node(visits: nat, q: real, p: real, children: map<int, Node>)

  /** `TreeNode(parent, prior_p)`: no visits, Q 0, the given prior and no children. */
  function Fresh(prior: real): (n: Node)
    ensures n.visits == 0 && n.q == 0.0 && n.p == prior && IsLeaf(n)
  {
    Node(0, 0.0, prior, map[])
  }

  /** `is_leaf`: the node has no children. */
  predicate IsLeaf(n: Node) {
    n.children == map[]
  }

  /** A node is a leaf exactly when no non-empty path leads from it. */
  lemma LeafIffNoPaths(n: Node)
    ensures IsLeaf(n) ==> forall q :: ValidPath(n, q) ==> q == []
    ensures !IsLeaf(n) ==> exists q :: ValidPath(n, q) && q != []
  {
    if !IsLeaf(n) {
      assert n.children.Keys != {};
      HasMember(n.children.Keys);
      var a :| a in n.children.Keys;
      assert [a][1..] == [];
      assert ValidPath(n, [a]) && [a] != [];
    }
  }

  /** The statistics of a node, without its children. */
  function Stats(n: Node): (nat, real, real) {
    (n.visits, n.q, n.p)
  }

  // ---------------------------------------------------------------------
  // Paths

  /** Every action of `path` names a child, starting at `t`. */
  predicate ValidPath(t: Node, path: seq<int>)
    decreases |path|
  {
    |path| == 0 || (path[0] in t.children && ValidPath(t.children[path[0]], path[1..]))
  }

  /** The node reached from `t` by following `path`. */
  function NodeAt(t: Node, path: seq<int>): Node
    requires ValidPath(t, path)
    decreases |path|
  {
    if |path| == 0 then t else NodeAt(t.children[path[0]], path[1..])
  }

  predicate IsPrefix(a: seq<int>, b: seq<int>) {
    |a| <= |b| && b[..|a|] == a
  }

  /** Following `path` and then one more action `a` of the reached node. */
  lemma {:induction false} PathExtend(t: Node, path: seq<int>, a: int)
    requires ValidPath(t, path) && a in NodeAt(t, path).children
    ensures ValidPath(t, path + [a])
    ensures NodeAt(t, path + [a]) == NodeAt(t, path).children[a]
    decreases |path|
  {
    if |path| == 0 {
      assert path + [a] == [a];
      assert [a][1..] == [];
    } else {
      assert (path + [a])[1..] == path[1..] + [a];
      PathExtend(t.children[path[0]], path[1..], a);
    }
  }

  // ---------------------------------------------------------------------
  // expand

  /** The actions listed in `(action, prior)` pairs. */
  function ActionsOf(priors: seq<(int, real)>): set<int> {
    set i | 0 <= i < |priors| :: priors[i].0
  }

  /** The prior of the first pair that lists action `a`. */
  function FirstPrior(priors: seq<(int, real)>, a: int): real
    requires a in ActionsOf(priors)
    decreases |priors|
  {
    if priors[0].0 == a then priors[0].1
    else
      assert a in ActionsOf(priors[1..]) by {
        var i :| 0 <= i < |priors| && priors[i].0 == a;
        assert priors[1..][i - 1].0 == a;
      }
      FirstPrior(priors[1..], a)
  }

  /**
   * `expand`: walk the pairs in order and add a fresh child for each action
   * not already present. The node's own statistics and its existing children
   * are untouched; each new child has 0 visits, Q 0 and the prior of the
   * first pair that named it.
   */
  function Expand(n: Node, priors: seq<(int, real)>): (r: Node)
    ensures Stats(r) == Stats(n)
    ensures r.children.Keys == n.children.Keys + ActionsOf(priors)
    ensures forall a :: a in n.children ==> r.children[a] == n.children[a]
    ensures forall a :: a in r.children && a !in n.children ==> r.children[a] == Fresh(FirstPrior(priors, a))
    decreases |priors|
  {
    if |priors| == 0 then n
    else
      var (a, prob) := priors[0];
      var n' := if a in n.children then n else n.(children := n.children[a := Fresh(prob)]);
      assert ActionsOf(priors) == {a} + ActionsOf(priors[1..]) by {
        forall x | x in ActionsOf(priors) ensures x in {a} + ActionsOf(priors[1..]) {
          var i :| 0 <= i < |priors| && priors[i].0 == x;
          if i > 0 { assert priors[1..][i - 1].0 == x; }
        }
        forall x | x in ActionsOf(priors[1..]) ensures x in ActionsOf(priors) {
          var i :| 0 <= i < |priors[1..]| && priors[1..][i].0 == x;
          assert priors[i + 1].0 == x;
        }
      }
      Expand(n', priors[1..])
  }

  /** Expanding a second time with the same pairs changes nothing. */
  lemma ExpandIdempotent(n: Node, priors: seq<(int, real)>)
    ensures Expand(Expand(n, priors), priors) == Expand(n, priors)
  {
    var once := Expand(n, priors);
    var twice := Expand(once, priors);
    assert twice.children.Keys == once.children.Keys;
    assert twice.children == once.children;
  }

  // ---------------------------------------------------------------------
  // update

  /**
   * `update`: one more visit, and Q moves to the running mean. Stated as the
   * running sum: the new Q times the new count is the old Q times the old
   * count plus the value.
   */
  function Update(n: Node, v: real): (r: Node)
    ensures r.visits == n.visits + 1
    ensures r.q * (r.visits as real) == n.q * (n.visits as real) + v
    ensures r.p == n.p && r.children == n.children
  {
    var visits := n.visits + 1;
    var q := n.q + (v - n.q) / (visits as real);
    assert q * (visits as real) == n.q * (visits as real) + (v - n.q);
    n.(visits := visits, q := q)
  }

  /** The updated Q lies between the old Q and the value. */
  lemma UpdateMovesTowardValue(n: Node, v: real)
    ensures n.q <= v ==> n.q <= Update(n, v).q <= v
    ensures v <= n.q ==> v <= Update(n, v).q <= n.q
  {
    var k := (n.visits + 1) as real;
    if n.q <= v {
      DivShrinks(v - n.q, k);
    } else {
      DivShrinks(n.q - v, k);
      assert (v - n.q) / k == -((n.q - v) / k);
    }
  }

  lemma DivShrinks(x: real, k: real)
    requires 0.0 <= x && 1.0 <= k
    ensures 0.0 <= x / k <= x
  {
    assert (x / k) * k == x;
    assert x - x / k == (x / k) * (k - 1.0);
    assert (x / k) * (k - 1.0) >= 0.0;
  }

  /** When Q and the value both lie in [-1, 1], so does the updated Q. */
  lemma UpdateStaysInRange(n: Node, v: real)
    requires -1.0 <= n.q <= 1.0 && -1.0 <= v <= 1.0
    ensures -1.0 <= Update(n, v).q <= 1.0
  {
    UpdateMovesTowardValue(n, v);
  }

  function Sum(vs: seq<real>): real
    decreases |vs|
  {
    if |vs| == 0 then 0.0 else vs[0] + Sum(vs[1..])
  }

  /** `update` applied with each value in turn. */
  function UpdateAll(n: Node, vs: seq<real>): Node
    decreases |vs|
  {
    if |vs| == 0 then n else UpdateAll(Update(n, vs[0]), vs[1..])
  }

  /** After updates with `vs`, the count grew by |vs| and the running sum by Sum(vs). */
  lemma {:induction false} UpdateAllRunningSum(n: Node, vs: seq<real>)
    ensures UpdateAll(n, vs).visits == n.visits + |vs|
    ensures UpdateAll(n, vs).q * ((n.visits + |vs|) as real) == n.q * (n.visits as real) + Sum(vs)
    decreases |vs|
  {
    if |vs| > 0 {
      UpdateAllRunningSum(Update(n, vs[0]), vs[1..]);
    }
  }

  /** After k >= 1 updates of a fresh node, Q is the arithmetic mean of the k values. */
  lemma MeanOfUpdates(prior: real, vs: seq<real>)
    requires |vs| > 0
    ensures UpdateAll(Fresh(prior), vs).visits == |vs|
    ensures UpdateAll(Fresh(prior), vs).q == Sum(vs) / (|vs| as real)
  {
    UpdateAllRunningSum(Fresh(prior), vs);
  }

  // ---------------------------------------------------------------------
  // update_recursive

  /** The value a node `d` levels above the updated node receives: (-1)^d * v. */
  function Alternate(d: nat, v: real): real {
    if d % 2 == 0 then v else -v
  }

  /**
   * `update_recursive(v)` on the node at `path`: that node is updated with
   * v, its parent with -v, and so on up to the root, which receives
   * (-1)^|path| * v. (The class recurses to the parent before updating the
   * node itself; the nodes' updates are independent, so the order does not
   * show in the result.)
   */
  function Backup(t: Node, path: seq<int>, v: real): (r: Node)
    requires ValidPath(t, path)
    ensures Stats(r) == Stats(Update(t, Alternate(|path|, v)))
    ensures r.children.Keys == t.children.Keys
    ensures ValidPath(r, path)
    decreases |path|
  {
    if |path| == 0 then Update(t, v)
    else
      var a := path[0];
      var child := Backup(t.children[a], path[1..], v);
      Update(t.(children := t.children[a := child]), Alternate(|path|, v))
  }

  /**
   * The effect of `update_recursive` on every node: the tree keeps its shape;
   * each node on the path (each prefix `q` of `path`) gets one more visit and
   * is updated with (-1)^(|path| - |q|) * v; every node off the path is
   * exactly as before.
   */
  lemma {:induction false} BackupEffect(t: Node, path: seq<int>, v: real, q: seq<int>)
    requires ValidPath(t, path)
    ensures ValidPath(Backup(t, path, v), q) <==> ValidPath(t, q)
    ensures ValidPath(t, q) && IsPrefix(q, path) ==>
      && Stats(NodeAt(Backup(t, path, v), q)) == Stats(Update(NodeAt(t, q), Alternate(|path| - |q|, v)))
      && NodeAt(Backup(t, path, v), q).children.Keys == NodeAt(t, q).children.Keys
    ensures ValidPath(t, q) && !IsPrefix(q, path) ==> NodeAt(Backup(t, path, v), q) == NodeAt(t, q)
    decreases |path|
  {
    var r := Backup(t, path, v);
    if |q| > 0 && |path| > 0 {
      var a := path[0];
      if q[0] == a {
        BackupEffect(t.children[a], path[1..], v, q[1..]);
        if IsPrefix(q, path) {
          assert IsPrefix(q[1..], path[1..]);
        }
        if IsPrefix(q[1..], path[1..]) {
          assert q == [a] + q[1..];
          assert IsPrefix(q, path);
        }
      } else {
        assert !IsPrefix(q, path);
      }
    } else if |q| > 0 {
      assert r.children == t.children;
    }
  }

  // ---------------------------------------------------------------------
  // Expansion below the root

  /** `expand` applied to the node at `path`, the rest of the tree kept. */
  function ExpandAt(t: Node, path: seq<int>, priors: seq<(int, real)>): (r: Node)
    requires ValidPath(t, path)
    ensures Stats(r) == Stats(t)
    ensures ValidPath(r, path)
    decreases |path|
  {
    if |path| == 0 then Expand(t, priors)
    else
      var a := path[0];
      t.(children := t.children[a := ExpandAt(t.children[a], path[1..], priors)])
  }

  /** Expansion keeps every path that existed and everything it reaches other than new children. */
  lemma {:induction false} ExpandKeepsPaths(n: Node, priors: seq<(int, real)>, q: seq<int>)
    requires ValidPath(n, q)
    ensures ValidPath(Expand(n, priors), q)
    ensures |q| > 0 ==> NodeAt(Expand(n, priors), q) == NodeAt(n, q)
  {
    if |q| > 0 {
      assert Expand(n, priors).children[q[0]] == n.children[q[0]];
    }
  }

  /**
   * The effect of expanding the node at `path`: the node there becomes its
   * expansion; the nodes above it keep their statistics and their children's
   * actions; every other node that existed is exactly as before.
   */
  lemma {:induction false} ExpandAtEffect(t: Node, path: seq<int>, priors: seq<(int, real)>, q: seq<int>)
    requires ValidPath(t, path)
    ensures ValidPath(ExpandAt(t, path, priors), path)
    ensures NodeAt(ExpandAt(t, path, priors), path) == Expand(NodeAt(t, path), priors)
    ensures ValidPath(t, q) ==> ValidPath(ExpandAt(t, path, priors), q)
    ensures ValidPath(t, q) && IsPrefix(q, path) ==>
      && Stats(NodeAt(ExpandAt(t, path, priors), q)) == Stats(NodeAt(t, q))
      && NodeAt(ExpandAt(t, path, priors), q).children.Keys >= NodeAt(t, q).children.Keys
    ensures ValidPath(t, q) && IsPrefix(q, path) && |q| < |path| ==>
      NodeAt(ExpandAt(t, path, priors), q).children.Keys == NodeAt(t, q).children.Keys
    ensures ValidPath(t, q) && !IsPrefix(q, path) ==> NodeAt(ExpandAt(t, path, priors), q) == NodeAt(t, q)
    decreases |path|
  {
    var r := ExpandAt(t, path, priors);
    if |path| > 0 {
      assert r.children.Keys == t.children.Keys;
    }
    if |path| == 0 {
      if ValidPath(t, q) {
        ExpandKeepsPaths(t, priors, q);
      }
    } else {
      var a := path[0];
      ExpandAtEffect(t.children[a], path[1..], priors, if |q| > 0 then q[1..] else []);
      if |q| > 0 && q[0] == a {
        if IsPrefix(q, path) {
          assert IsPrefix(q[1..], path[1..]);
        }
        if IsPrefix(q[1..], path[1..]) {
          assert q == [a] + q[1..];
          assert IsPrefix(q, path);
        }
      } else if |q| > 0 {
        assert !IsPrefix(q, path);
      }
    }
  }

  /** Nodes with the same statistics stay so under the same update. */
  lemma UpdateDependsOnStats(a: Node, b: Node, v: real)
    requires Stats(a) == Stats(b)
    ensures Stats(Update(a, v)) == Stats(Update(b, v))
  {
  }

  /**
   * The tree update a playout makes once its descent has reached the node at
   * `path`: expand that node with `priors` when `expand` holds, then back up
   * `v` along the path.
   */
  function ExpandAndBackup(t: Node, path: seq<int>, expand: bool, priors: seq<(int, real)>, v: real): (r: Node)
    requires ValidPath(t, path)
    ensures r.visits == t.visits + 1
    ensures ValidPath(r, path)
  {
    Backup(if expand then ExpandAt(t, path, priors) else t, path, v)
  }

  /**
   * The effect of that update on every node: each node on the path gets one
   * update with `v`, negated once per level between it and the reached node,
   * and the nodes above the reached one keep their children's actions; every
   * other node that existed is unchanged.
   */
  lemma ExpandAndBackupEffect(t: Node, path: seq<int>, expand: bool, priors: seq<(int, real)>, v: real, q: seq<int>)
    requires ValidPath(t, path)
    ensures ValidPath(t, q) ==> ValidPath(ExpandAndBackup(t, path, expand, priors, v), q)
    ensures ValidPath(t, q) && IsPrefix(q, path) ==>
      Stats(NodeAt(ExpandAndBackup(t, path, expand, priors, v), q))
        == Stats(Update(NodeAt(t, q), Alternate(|path| - |q|, v)))
    ensures ValidPath(t, q) && IsPrefix(q, path) && |q| < |path| ==>
      NodeAt(ExpandAndBackup(t, path, expand, priors, v), q).children.Keys == NodeAt(t, q).children.Keys
    ensures ValidPath(t, q) && !IsPrefix(q, path) ==>
      NodeAt(ExpandAndBackup(t, path, expand, priors, v), q) == NodeAt(t, q)
  {
    if expand {
      var e := ExpandAt(t, path, priors);
      ExpandAtEffect(t, path, priors, q);
      BackupEffect(e, path, v, q);
      if ValidPath(t, q) && IsPrefix(q, path) {
        UpdateDependsOnStats(NodeAt(e, q), NodeAt(t, q), Alternate(|path| - |q|, v));
      }
    } else {
      BackupEffect(t, path, v, q);
    }
  }

  /**
   * The reached node gains exactly the listed actions as children when it is
   * expanded, and keeps its children otherwise.
   */
  lemma ExpandAndBackupLeaf(t: Node, path: seq<int>, expand: bool, priors: seq<(int, real)>, v: real)
    requires ValidPath(t, path)
    ensures expand ==>
      NodeAt(ExpandAndBackup(t, path, expand, priors, v), path).children.Keys
        == NodeAt(t, path).children.Keys + ActionsOf(priors)
    ensures !expand ==>
      NodeAt(ExpandAndBackup(t, path, expand, priors, v), path).children.Keys == NodeAt(t, path).children.Keys
  {
    assert IsPrefix(path, path);
    if expand {
      var e := ExpandAt(t, path, priors);
      ExpandAtEffect(t, path, priors, path);
      BackupEffect(e, path, v, path);
    } else {
      BackupEffect(t, path, v, path);
    }
  }

  // ---------------------------------------------------------------------
  // get_score / select

  /**
   * `get_score`: Q + c_puct * P * s / (1 + n), where `s` stands for the
   * square root of the parent's visit count, shared by all siblings.
   */
  function Score(child: Node, cPuct: real, s: real): (r: real)
    ensures cPuct * child.p * s >= 0.0 ==> child.q <= r <= child.q + cPuct * child.p * s
  {
    BonusBound(cPuct * child.p * s, 1.0 + child.visits as real);
    child.q + cPuct * child.p * s / (1.0 + child.visits as real)
  }

  /**
   * With the same Q and prior and a non-negative exploration weight, the
   * less-visited child scores at least as high.
   */
  lemma ScoreFavoursFewerVisits(a: Node, b: Node, cPuct: real, s: real)
    requires a.q == b.q && a.p == b.p && cPuct * a.p * s >= 0.0
    requires a.visits <= b.visits
    ensures Score(b, cPuct, s) <= Score(a, cPuct, s)
  {
    var x := cPuct * a.p * s;
    var ka := 1.0 + a.visits as real;
    var kb := 1.0 + b.visits as real;
    assert cPuct * b.p * s == x;
    DivByLarger(x, ka, kb);
    assert Score(a, cPuct, s) == a.q + x / ka;
    assert Score(b, cPuct, s) == b.q + x / kb;
  }

  /**
   * With the same Q and visit count and a non-negative `c_puct * s`, the
   * child with the larger prior scores at least as high.
   */
  lemma ScoreFavoursLargerPrior(a: Node, b: Node, cPuct: real, s: real)
    requires a.q == b.q && a.visits == b.visits && cPuct * s >= 0.0
    requires a.p <= b.p
    ensures Score(a, cPuct, s) <= Score(b, cPuct, s)
  {
    var k := 1.0 + a.visits as real;
    var xa := cPuct * a.p * s;
    var xb := cPuct * b.p * s;
    WeightMonotone(cPuct, s, a.p, b.p);
    DivMonotone(xa, xb, k);
    assert Score(a, cPuct, s) == a.q + xa / k;
    assert Score(b, cPuct, s) == b.q + xb / k;
  }

  /** Scaling by `c` and `s` with a non-negative product keeps order. */
  lemma WeightMonotone(c: real, s: real, x: real, y: real)
    requires c * s >= 0.0 && x <= y
    ensures c * x * s <= c * y * s
  {
    assert c * y * s - c * x * s == (c * s) * (y - x);
    assert (c * s) * (y - x) >= 0.0;
  }

  /** Dividing a non-negative number by a larger divisor gives no more. */
  lemma DivByLarger(x: real, k1: real, k2: real)
    requires 0.0 <= x && 0.0 < k1 <= k2
    ensures x / k2 <= x / k1
  {
  }

  /** The exploration bonus of `get_score` lies between 0 and its weight when the weight is non-negative. */
  lemma BonusBound(x: real, k: real)
    requires 1.0 <= k
    ensures 0.0 <= x ==> 0.0 <= x / k <= x
  {
    if 0.0 <= x {
      DivShrinks(x, k);
    }
  }

  /** Division by a positive divisor keeps order. */
  lemma DivMonotone(x: real, y: real, k: real)
    requires x <= y && 0.0 < k
    ensures x / k <= y / k
  {
    assert y / k - x / k == (y - x) / k;
  }

  /** Action `a` is a child of `n` with a score no sibling exceeds. */
  predicate IsBestChild(n: Node, a: int, cPuct: real, s: real) {
    a in n.children && forall b :: b in n.children ==> Score(n.children[b], cPuct, s) <= Score(n.children[a], cPuct, s)
  }

  /**
   * The key of a non-empty map whose entry maximises `key`: Python's `max`
   * over the entries. Later entries replace the current best only when
   * strictly greater; which of several equal maxima is returned depends on the
   * order the keys are visited in.
   */
  method ArgMax(m: map<int, Node>, key: Node -> real) returns (a: int)
    requires m != map[]
    ensures a in m
    ensures forall b :: b in m ==> key(m[b]) <= key(m[a])
  {
    var rest := m.Keys;
    assert |rest| > 0;
    HasMember(rest);
    a :| a in rest;
    rest := rest - {a};
    while |rest| > 0
      invariant rest <= m.Keys && a in m
      invariant forall b :: b in m && b !in rest ==> key(m[b]) <= key(m[a])
      decreases rest
    {
      HasMember(rest);
      var b :| b in rest;
      if key(m[b]) > key(m[a]) {
        a := b;
      }
      rest := rest - {b};
    }
  }

  /** A set of positive size has a member. */
  lemma HasMember(s: set<int>)
    requires |s| > 0
    ensures exists x :: x in s
  {
    if forall x :: x !in s {
      assert false;
    }
  }

  /**
   * `select`: a child of a non-leaf node whose score is at least every
   * sibling's, returned with its action.
   */
  method Select(n: Node, cPuct: real, s: real) returns (a: int, child: Node)
    requires !IsLeaf(n)
    ensures IsBestChild(n, a, cPuct, s)
    ensures child == n.children[a]
  {
    a := ArgMax(n.children, (c: Node) => Score(c, cPuct, s));
    child := n.children[a];
  }
}
