/**
 Finite directed graphs as the analyses see them: an adjacency table from a
 node to the ordered list of its neighbours. A node without an entry has no
 neighbours, as in a SecondaryMap read at an index that was never written.
 */
module Graphs {
  import opened Options

  type Node = nat
  type Adj = map<Node, seq<Node>>

  function Out(a: Adj, u: Node): seq<Node> {
    if u in a then a[u] else []
  }

  predicate Edge(a: Adj, u: Node, v: Node) {
    v in Out(a, u)
  }

  /** `p` lists the nodes visited after `u` on a walk from `u` to `v`. */
  ghost predicate Path(a: Adj, u: Node, p: seq<Node>, v: Node)
    decreases |p|
  {
    if |p| == 0 then u == v else Edge(a, u, p[0]) && Path(a, p[0], p[1..], v)
  }

  ghost predicate Reach(a: Adj, u: Node, v: Node) {
    exists p :: Path(a, u, p, v)
  }

  ghost predicate Closed(a: Adj, s: set<Node>) {
    forall u, v :: u in s && Edge(a, u, v) ==> v in s
  }

  /** `r` lists every edge of `a` backwards. */
  ghost predicate Inverse(a: Adj, r: Adj) {
    forall u, v :: Edge(a, u, v) <==> Edge(r, v, u)
  }

  ghost function Universe(a: Adj): set<Node> {
    a.Keys + (set u, v | u in a && v in a[u] :: v)
  }

  lemma EdgeInUniverse(a: Adj, u: Node, v: Node)
    requires Edge(a, u, v)
    ensures u in Universe(a) && v in Universe(a)
  {
  }

  lemma {:induction false} PathConcat(a: Adj, u: Node, p: seq<Node>, v: Node, q: seq<Node>, w: Node)
    requires Path(a, u, p, v) && Path(a, v, q, w)
    ensures Path(a, u, p + q, w)
    decreases |p|
  {
    if |p| == 0 {
      assert p + q == q;
    } else {
      PathConcat(a, p[0], p[1..], v, q, w);
      assert (p + q)[1..] == p[1..] + q;
    }
  }

  lemma PathSnoc(a: Adj, u: Node, p: seq<Node>, v: Node, w: Node)
    requires Path(a, u, p, v) && Edge(a, v, w)
    ensures Path(a, u, p + [w], w)
  {
    assert Path(a, v, [w], w);
    PathConcat(a, u, p, v, [w], w);
  }

  /** A nonempty walk ends with an edge. */
  lemma {:induction false} PathUnsnoc(a: Adj, u: Node, p: seq<Node>, v: Node) returns (w: Node)
    requires Path(a, u, p, v) && |p| > 0
    ensures p[|p| - 1] == v && Path(a, u, p[..|p| - 1], w) && Edge(a, w, v)
    ensures w == u || w in p[..|p| - 1]
    decreases |p|
  {
    if |p| == 1 {
      w := u;
      assert Path(a, p[0], p[1..], v);
    } else {
      w := PathUnsnoc(a, p[0], p[1..], v);
      assert p[1..][..|p| - 2] == p[..|p| - 1][1..];
    }
  }

  lemma ReachRefl(a: Adj, u: Node)
    ensures Reach(a, u, u)
  {
    assert Path(a, u, [], u);
  }

  lemma ReachEdge(a: Adj, u: Node, v: Node)
    requires Edge(a, u, v)
    ensures Reach(a, u, v)
  {
    assert Path(a, u, [v], v);
  }

  lemma ReachTrans(a: Adj, u: Node, v: Node, w: Node)
    requires Reach(a, u, v) && Reach(a, v, w)
    ensures Reach(a, u, w)
  {
    var p :| Path(a, u, p, v);
    var q :| Path(a, v, q, w);
    PathConcat(a, u, p, v, q, w);
  }

  lemma ReachSnoc(a: Adj, u: Node, v: Node, w: Node)
    requires Reach(a, u, v) && Edge(a, v, w)
    ensures Reach(a, u, w)
  {
    ReachEdge(a, v, w);
    ReachTrans(a, u, v, w);
  }

  lemma ReachCons(a: Adj, u: Node, v: Node, w: Node)
    requires Edge(a, u, v) && Reach(a, v, w)
    ensures Reach(a, u, w)
  {
    ReachEdge(a, u, v);
    ReachTrans(a, u, v, w);
  }

  /** A walk that starts inside a set and ends outside it takes an edge out of it. */
  lemma {:induction false} PathCrossing(a: Adj, s: set<Node>, u: Node, p: seq<Node>, v: Node)
    returns (x: Node, y: Node, px: seq<Node>, py: seq<Node>)
    requires Path(a, u, p, v) && u in s && v !in s
    ensures x in s && y !in s && Edge(a, x, y)
    ensures Path(a, u, px, x) && Path(a, y, py, v) && p == px + [y] + py
    decreases |p|
  {
    if p[0] in s {
      x, y, px, py := PathCrossing(a, s, p[0], p[1..], v);
      px := [p[0]] + px;
      assert px[1..] + [y] + py == p[1..];
    } else {
      x, y, px, py := u, p[0], [], p[1..];
    }
  }

  lemma ReachCrossing(a: Adj, s: set<Node>, u: Node, v: Node) returns (x: Node, y: Node)
    requires Reach(a, u, v) && u in s && v !in s
    ensures x in s && y !in s && Edge(a, x, y) && Reach(a, u, x) && Reach(a, y, v)
  {
    var p :| Path(a, u, p, v);
    var px, py;
    x, y, px, py := PathCrossing(a, s, u, p, v);
  }

  lemma ReachClosed(a: Adj, s: set<Node>, u: Node, v: Node)
    requires Closed(a, s) && u in s && Reach(a, u, v)
    ensures v in s
  {
    if v !in s {
      var x, y := ReachCrossing(a, s, u, v);
    }
  }

  lemma ReachInUniverse(a: Adj, u: Node, v: Node)
    requires Reach(a, u, v)
    ensures v == u || v in Universe(a)
  {
    forall x, y | Edge(a, x, y) ensures y in Universe(a) { EdgeInUniverse(a, x, y); }
    ReachClosed(a, Universe(a) + {u}, u, v);
  }

  lemma {:induction false} PathReverse(a: Adj, r: Adj, u: Node, p: seq<Node>, v: Node)
    requires Inverse(a, r) && Path(a, u, p, v)
    ensures Reach(r, v, u)
    decreases |p|
  {
    if |p| == 0 {
      ReachRefl(r, u);
    } else {
      PathReverse(a, r, p[0], p[1..], v);
      ReachSnoc(r, v, p[0], u);
    }
  }

  /** Reachability in the reversed graph is reachability read backwards. */
  lemma ReachReverse(a: Adj, r: Adj, u: Node, v: Node)
    requires Inverse(a, r)
    ensures Reach(a, u, v) <==> Reach(r, v, u)
  {
    if Reach(a, u, v) {
      var p :| Path(a, u, p, v);
      PathReverse(a, r, u, p, v);
    }
    if Reach(r, v, u) {
      var p :| Path(r, v, p, u);
      PathReverse(r, a, v, p, u);
    }
  }

  /** Same strongly connected component. */
  ghost predicate Mutual(a: Adj, u: Node, v: Node) {
    Reach(a, u, v) && Reach(a, v, u)
  }

  lemma MutualTrans(a: Adj, u: Node, v: Node, w: Node)
    requires Mutual(a, u, v) && Mutual(a, v, w)
    ensures Mutual(a, u, w)
  {
    ReachTrans(a, u, v, w);
    ReachTrans(a, w, v, u);
  }

  /** Two nodes have the same component id exactly when they are in one component. */
  ghost predicate SameIffMutual(a: Adj, m: map<Node, nat>, b: Node, c: Node)
    requires b in m && c in m
  {
    m[b] == m[c] <==> Mutual(a, b, c)
  }

  /** `b` lies on a cycle. */
  ghost predicate OnCycle(a: Adj, b: Node) {
    exists v :: Edge(a, b, v) && Reach(a, v, b)
  }

  /** Some edge of `e` leads from component `s` to component `t`. */
  ghost predicate LinkedBy(m: map<Node, nat>, e: set<(Node, Node)>, s: nat, t: nat) {
    exists u, v :: (u, v) in e && u in m && v in m && m[u] == s && m[v] == t
  }

  lemma LinkedByMore(m: map<Node, nat>, e: set<(Node, Node)>, u: Node, v: Node, s: nat, t: nat)
    requires u in m && v in m
    ensures LinkedBy(m, e + {(u, v)}, s, t) <==> LinkedBy(m, e, s, t) || (m[u] == s && m[v] == t)
  {
    if LinkedBy(m, e, s, t) {
      var x, y :| (x, y) in e && x in m && y in m && m[x] == s && m[y] == t;
      assert (x, y) in e + {(u, v)};
    }
    if m[u] == s && m[v] == t {
      assert (u, v) in e + {(u, v)};
    }
  }

  lemma DistinctMutualOnCycle(a: Adj, b: Node, c: Node)
    requires b != c && Mutual(a, b, c)
    ensures OnCycle(a, b)
  {
    var p :| Path(a, b, p, c);
    assert Path(a, p[0], p[1..], c);
    ReachTrans(a, p[0], c, b);
  }

  lemma {:induction false} PathEnd(a: Adj, x: Node, p: seq<Node>, y: Node)
    requires Path(a, x, p, y)
    ensures y == x || y in p
    decreases |p|
  {
    if |p| > 0 {
      PathEnd(a, p[0], p[1..], y);
    }
  }

  lemma SubsetSize<T>(s: set<T>, t: set<T>)
    requires s <= t
    ensures |s| <= |t|
    ensures |s| == |t| ==> s == t
  {
    assert s + (t - s) == t;
    assert |t| == |s| + |t - s|;
  }

  function Reversed<T(!new)>(s: seq<T>): (r: seq<T>)
    ensures |r| == |s| && forall i :: 0 <= i < |s| ==> r[i] == s[|s| - 1 - i]
    ensures forall x :: x in r <==> x in s
  {
    var r := seq(|s|, i requires 0 <= i < |s| => s[|s| - 1 - i]);
    assert forall i :: 0 <= i < |s| ==> s[i] == r[|s| - 1 - i];
    r
  }

  function Elems<T>(s: seq<T>): set<T> {
    set x | x in s
  }

  lemma PrefixElems<T>(s: seq<T>, n: nat)
    requires n <= |s|
    ensures forall i :: 0 <= i < n ==> s[i] in s[..n]
  {
    assert forall i :: 0 <= i < n ==> s[..n][i] == s[i];
  }

  lemma {:induction false} NoDupSize<T>(s: seq<T>)
    requires NoDup(s)
    ensures |Elems(s)| == |s|
  {
    if |s| == 0 {
      assert Elems(s) == {};
    } else {
      var k := |s| - 1;
      NoDupSize(s[..k]);
      assert s == s[..k] + [s[k]];
      assert Elems(s) == Elems(s[..k]) + {s[k]};
    }
  }
}
