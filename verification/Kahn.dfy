/**
 Ordered sets of indices: what iterating over a BTreeSet yields.
 */
module OrderedSets {
  import opened Graphs
  import opened Options

  predicate Ascending(s: seq<nat>) {
    forall i, j :: 0 <= i < j < |s| ==> s[i] < s[j]
  }

  predicate IsLeast(m: nat, s: set<nat>) {
    m in s && forall x :: x in s ==> m <= x
  }

  lemma LeastExists(s: set<nat>)
    requires s != {}
    ensures exists m :: IsLeast(m, s)
  {
    var m :| m in s;
    if !IsLeast(m, s) {
      var x :| x in s && x < m;
      var rest := set y | y in s && y < m;
      assert x in rest && m !in rest;
      assert rest < s;
      LeastExists(rest);
      var k :| IsLeast(k, rest);
      forall y | y in s ensures k <= y {
        assert y in rest || m <= y;
      }
      assert IsLeast(k, s);
    }
  }

  function Least(s: set<nat>): (m: nat)
    requires s != {}
    ensures IsLeast(m, s)
  {
    LeastExists(s);
    var m :| IsLeast(m, s);
    m
  }

  /** The first `n` indices. */
  function Below(n: nat): (r: set<nat>)
    ensures forall s :: s in r <==> 0 <= s < n
  {
    if n == 0 then {} else Below(n - 1) + {n - 1}
  }

  lemma AscendingCons(m: nat, rest: seq<nat>, s: set<nat>)
    requires IsLeast(m, s) && Ascending(rest)
    requires forall x :: x in rest <==> x in s && x != m
    ensures Ascending([m] + rest)
    ensures forall x :: x in [m] + rest <==> x in s
  {
    var r := [m] + rest;
    forall i, j | 0 <= i < j < |r| ensures r[i] < r[j] {
      assert r[j] == rest[j - 1] && rest[j - 1] in rest;
    }
  }

  /** The elements of a BTreeSet in iteration order. */
  function Listing(s: set<nat>): (r: seq<nat>)
    ensures Ascending(r) && forall x :: x in r <==> x in s
  {
    if s == {} then [] else
      var m := Least(s);
      var rest := Listing(s - {m});
      AscendingCons(m, rest, s);
      [m] + rest
  }
}

/**
 Kahn's topological sort with an ordered ready set, as used for the components
 of a control flow graph (crates/codegen/src/cfg_scc.rs) and of a call graph
 (crates/codegen/src/analysis/func_behavior.rs,
 crates/codegen/src/isa/evm/mem_effects.rs).
 */
module Kahn {
  import opened Graphs
  import opened Options
  import opened OrderedSets

  ghost function Preds(nodes: set<Node>, succs: Adj, s: Node): set<Node> {
    set p | p in nodes && s in Out(succs, p)
  }

  /** A finite DAG: `rank` grows along every edge. */
  ghost predicate IsDag(nodes: set<Node>, succs: Adj, rank: map<Node, int>) {
    && nodes <= rank.Keys
    && (forall s :: s in nodes ==> NoDup(Out(succs, s)))
    && (forall s, t :: s in nodes && t in Out(succs, s) ==> t in nodes && rank[s] < rank[t])
  }

  ghost predicate CountsPreds(nodes: set<Node>, succs: Adj, gone: set<Node>, indegree: map<Node, nat>) {
    && nodes <= indegree.Keys
    && (forall s :: s in nodes ==> indegree[s] == Waiting(nodes, succs, gone, s))
  }

  /** How many predecessors of `s` are still to come. */
  ghost function Waiting(nodes: set<Node>, succs: Adj, gone: set<Node>, s: Node): nat {
    |Preds(nodes, succs, s) - gone|
  }

  /** A ready node is listed no later than another one that was ready with it. */
  predicate Before(key: map<Node, nat>, s: Node, t: Node)
    requires s in key && t in key
  {
    key[s] < key[t] || (key[s] == key[t] && s <= t)
  }

  /** `topo[i]` has all its predecessors listed before it, and comes first in
      the key order among the unlisted nodes of which this is true. */
  ghost predicate GreedyAt(nodes: set<Node>, succs: Adj, key: map<Node, nat>, topo: seq<Node>, i: nat)
    requires i < |topo| && nodes <= key.Keys
  {
    && topo[i] in nodes && topo[i] !in topo[..i]
    && Preds(nodes, succs, topo[i]) <= Elems(topo[..i])
    && (forall t :: t in nodes && t !in topo[..i] && Preds(nodes, succs, t) <= Elems(topo[..i])
                    ==> Before(key, topo[i], t))
  }

  ghost predicate IsGreedy(nodes: set<Node>, succs: Adj, key: map<Node, nat>, topo: seq<Node>)
    requires nodes <= key.Keys
  {
    forall i :: 0 <= i < |topo| ==> GreedyAt(nodes, succs, key, topo, i)
  }

  ghost predicate ReadyIs(nodes: set<Node>, succs: Adj, topo: seq<Node>, ready: set<Node>) {
    forall s :: s in ready <==> s in nodes && s !in topo && Preds(nodes, succs, s) <= Elems(topo)
  }

  /** Some missing node is always ready: among the missing ones the one of least
      rank has all its predecessors listed. */
  lemma NeverStuck(nodes: set<Node>, succs: Adj, rank: map<Node, int>, topo: seq<Node>)
    requires IsDag(nodes, succs, rank)
    ensures nodes <= Elems(topo)
         || exists t :: t in nodes && t !in topo && Preds(nodes, succs, t) <= Elems(topo)
  {
    var missing := nodes - Elems(topo);
    if missing != {} {
      var s :| s in missing;
      var t := LeastRank(missing, rank, s);
      forall p | p in Preds(nodes, succs, t) ensures p in Elems(topo) {
        assert rank[p] < rank[t];
        assert p in nodes && p !in missing;
      }
      assert t in nodes && t !in topo && Preds(nodes, succs, t) <= Elems(topo);
    } else {
      forall s | s in nodes ensures s in Elems(topo) { assert s !in missing; }
    }
  }

  lemma LeastRank(s: set<Node>, rank: map<Node, int>, x: Node) returns (m: Node)
    requires x in s && s <= rank.Keys
    ensures m in s && forall y :: y in s ==> rank[m] <= rank[y]
    decreases |s|
  {
    var below := set y | y in s && rank[y] < rank[x];
    if below == {} {
      m := x;
      forall y | y in s ensures rank[m] <= rank[y] {
        assert y in below <==> rank[y] < rank[x];
      }
    } else {
      var y :| y in below;
      assert x in s && x !in below;
      assert below < s;
      SubsetSize(below, s);
      m := LeastRank(below, rank, y);
    }
  }

  /** Positions in a list without repetitions. */
  ghost predicate GoesForward(topo: seq<Node>, s: Node, t: Node) {
    exists i, j :: 0 <= i < j < |topo| && topo[i] == s && topo[j] == t
  }

  lemma GreedyGoesForward(nodes: set<Node>, succs: Adj, key: map<Node, nat>, topo: seq<Node>, s: Node, t: Node)
    requires nodes <= key.Keys && IsGreedy(nodes, succs, key, topo)
    requires s in nodes && t in topo && t in Out(succs, s)
    ensures GoesForward(topo, s, t)
  {
    var j :| 0 <= j < |topo| && topo[j] == t;
    assert GreedyAt(nodes, succs, key, topo, j);
    assert s in Preds(nodes, succs, t);
    assert s in topo[..j];
    var i :| 0 <= i < j && topo[..j][i] == s;
    assert topo[i] == s;
  }

  lemma UnlistedSuccessors(nodes: set<Node>, succs: Adj, key: map<Node, nat>, topo: seq<Node>, s: Node)
    requires nodes <= key.Keys && IsGreedy(nodes, succs, key, topo)
    requires s in nodes && s !in topo
    ensures forall t :: t in Out(succs, s) ==> t !in topo
  {
    forall t | t in Out(succs, s) ensures t !in topo {
      if t in topo {
        GreedyGoesForward(nodes, succs, key, topo, s, t);
      }
    }
  }

  lemma GreedyExtends(nodes: set<Node>, succs: Adj, key: map<Node, nat>, topo: seq<Node>, s: Node)
    requires nodes <= key.Keys && IsGreedy(nodes, succs, key, topo)
    requires s in nodes && s !in topo && Preds(nodes, succs, s) <= Elems(topo)
    requires forall t :: t in nodes && t !in topo && Preds(nodes, succs, t) <= Elems(topo) ==> Before(key, s, t)
    ensures IsGreedy(nodes, succs, key, topo + [s])
  {
    var topo' := topo + [s];
    forall i | 0 <= i < |topo'| ensures GreedyAt(nodes, succs, key, topo', i) {
      if i < |topo| {
        assert GreedyAt(nodes, succs, key, topo, i);
        assert topo'[..i] == topo[..i];
      } else {
        assert topo'[..i] == topo;
      }
    }
  }

  /** `ready.pop_first()`: the ready node that comes first in the key order. */
  function First(ready: set<Node>, key: map<Node, nat>): (s: Node)
    requires ready != {} && ready <= key.Keys
    ensures s in ready && forall t :: t in ready ==> Before(key, s, t)
  {
    FirstExists(ready, key);
    var s :| s in ready && forall t :: t in ready ==> Before(key, s, t);
    s
  }

  lemma FirstExists(ready: set<Node>, key: map<Node, nat>)
    requires ready != {} && ready <= key.Keys
    ensures exists s :: s in ready && forall t :: t in ready ==> Before(key, s, t)
  {
    var s :| s in ready;
    if exists t :: t in ready && !Before(key, s, t) {
      var t :| t in ready && !Before(key, s, t);
      var smaller := set t | t in ready && !Before(key, s, t);
      assert t in smaller && s !in smaller;
      assert smaller < ready;
      FirstExists(smaller, key);
      var m :| m in smaller && forall t :: t in smaller ==> Before(key, m, t);
      forall t | t in ready ensures Before(key, m, t) {
        if t !in smaller { assert Before(key, s, t); }
      }
    }
  }

  /** Removing one listed predecessor from the count of `t`. */
  lemma OnePredGone(nodes: set<Node>, succs: Adj, gone: set<Node>, s: Node, t: Node)
    requires s in nodes && s !in gone
    ensures Waiting(nodes, succs, gone, t) ==
            Waiting(nodes, succs, gone + {s}, t) + (if t in Out(succs, s) then 1 else 0)
  {
    var left := Preds(nodes, succs, t) - gone;
    assert Preds(nodes, succs, t) - (gone + {s}) == left - {s};
  }

  method TopoSort(nodes: set<Node>, succs: Adj, key: map<Node, nat>, indegree0: map<Node, nat>, ghost rank: map<Node, int>)
    returns (topo: seq<Node>)
    requires IsDag(nodes, succs, rank) && nodes <= key.Keys
    requires CountsPreds(nodes, succs, {}, indegree0)
    ensures NoDup(topo) && Elems(topo) == nodes && IsGreedy(nodes, succs, key, topo)
  {
    hide Waiting, Preds, GreedyAt;
    var indegree := indegree0;
    var ready := set s | s in nodes && indegree[s] == 0;
    topo := [];
    ReadyAtStart(nodes, succs, indegree0, ready);
    while ready != {}
      invariant NoDup(topo) && Elems(topo) <= nodes
      invariant CountsPreds(nodes, succs, Elems(topo), indegree)
      invariant ReadyIs(nodes, succs, topo, ready)
      invariant IsGreedy(nodes, succs, key, topo)
      decreases nodes - Elems(topo)
    {
      var s := First(ready, key);
      GreedyExtends(nodes, succs, key, topo, s);
      UnlistedSuccessors(nodes, succs, key, topo, s);
      assert ready - {s} + {s} == ready;
      ready, indegree := Release(nodes, succs, topo, s, ready - {s}, indegree, rank);
      ElemsSnoc(topo, s);
      topo := topo + [s];
    }
    NeverStuck(nodes, succs, rank, topo);
  }

  lemma ReadyAtStart(nodes: set<Node>, succs: Adj, indegree: map<Node, nat>, ready: set<Node>)
    requires CountsPreds(nodes, succs, {}, indegree)
    requires ready == set s | s in nodes && indegree[s] == 0
    ensures ReadyIs(nodes, succs, [], ready) && Elems<Node>([]) == {}
  {
    forall s | s in nodes ensures s in ready <==> Preds(nodes, succs, s) <= {} {
      assert Preds(nodes, succs, s) - {} == Preds(nodes, succs, s);
    }
    assert Elems<Node>([]) == {};
  }

  lemma ElemsSnoc<T>(s: seq<T>, x: T)
    ensures Elems(s + [x]) == Elems(s) + {x}
  {
  }

  /** Lowers the counts of the successors of `s` and makes ready those that
      reach zero. */
  method Release(nodes: set<Node>, succs: Adj, ghost topo: seq<Node>, s: Node,
                 ready0: set<Node>, indegree0: map<Node, nat>, ghost rank: map<Node, int>)
    returns (ready: set<Node>, indegree: map<Node, nat>)
    requires IsDag(nodes, succs, rank) && s in nodes && s !in topo
    requires CountsPreds(nodes, succs, Elems(topo), indegree0)
    requires ReadyIs(nodes, succs, topo, ready0 + {s}) && s !in ready0
    requires forall t :: t in Out(succs, s) ==> t !in topo
    ensures CountsPreds(nodes, succs, Elems(topo + [s]), indegree)
    ensures ReadyIs(nodes, succs, topo + [s], ready)
  {
    hide Waiting, Preds;
    var out := Out(succs, s);
    ready, indegree := ready0, indegree0;
    var k := 0;
    while k < |out|
      invariant 0 <= k <= |out| && nodes <= indegree.Keys
      invariant forall t :: t in nodes ==> LoweredBy(indegree0, indegree, t, t in out[..k])
      invariant forall t :: t in ready <==> t in ready0 || (t in nodes && t in out[..k] && indegree[t] == 0)
    {
      var t := out[k];
      OnePredGone(nodes, succs, Elems(topo), s, t);
      assert t !in out[..k];
      assert out[..k + 1] == out[..k] + [t];
      assert LoweredBy(indegree0, indegree, t, false);
      indegree := indegree[t := indegree[t] - 1];
      if indegree[t] == 0 {
        ready := ready + {t};
      }
      k := k + 1;
    }
    assert out[..k] == out;
    AllLowered(nodes, succs, topo, s, ready0, indegree0, ready, indegree);
  }

  ghost predicate LoweredBy(indegree0: map<Node, nat>, indegree: map<Node, nat>, t: Node, once: bool) {
    t in indegree0 && t in indegree && indegree[t] + (if once then 1 else 0) == indegree0[t]
  }

  lemma AllLowered(nodes: set<Node>, succs: Adj, topo: seq<Node>, s: Node,
                   ready0: set<Node>, indegree0: map<Node, nat>, ready: set<Node>, indegree: map<Node, nat>)
    requires s in nodes && s !in topo && nodes <= indegree.Keys
    requires s !in Out(succs, s)
    requires CountsPreds(nodes, succs, Elems(topo), indegree0)
    requires ReadyIs(nodes, succs, topo, ready0 + {s}) && s !in ready0
    requires forall t :: t in Out(succs, s) ==> t !in topo
    requires forall t :: t in nodes ==> LoweredBy(indegree0, indegree, t, t in Out(succs, s))
    requires forall t :: t in ready <==> t in ready0 || (t in nodes && t in Out(succs, s) && indegree[t] == 0)
    ensures CountsPreds(nodes, succs, Elems(topo + [s]), indegree)
    ensures ReadyIs(nodes, succs, topo + [s], ready)
  {
    hide Waiting;
    var gone := Elems(topo);
    ElemsSnoc(topo, s);
    forall t | t in nodes ensures indegree[t] == Waiting(nodes, succs, gone + {s}, t) {
      assert LoweredBy(indegree0, indegree, t, t in Out(succs, s));
      OnePredGone(nodes, succs, gone, s, t);
    }
    forall t ensures t in ready <==> t in nodes && t !in topo + [s] && Preds(nodes, succs, t) <= gone + {s} {
      if t in nodes && t != s {
        assert LoweredBy(indegree0, indegree, t, t in Out(succs, s));
        NowReady(nodes, succs, gone, s, t);
        assert t in ready0 + {s} <==> t !in topo && Preds(nodes, succs, t) <= gone;
      }
    }
  }

  lemma NowReady(nodes: set<Node>, succs: Adj, gone: set<Node>, s: Node, t: Node)
    ensures Preds(nodes, succs, t) <= gone + {s} <==> Waiting(nodes, succs, gone + {s}, t) == 0
    ensures Preds(nodes, succs, t) <= gone + {s} && t !in Out(succs, s) ==> Preds(nodes, succs, t) <= gone
  {
    var left := Preds(nodes, succs, t) - (gone + {s});
    assert left == {} <==> |left| == 0;
    assert s in Preds(nodes, succs, t) ==> t in Out(succs, s);
    assert s !in Preds(nodes, succs, t) && Preds(nodes, succs, t) <= gone + {s} ==> Preds(nodes, succs, t) <= gone;
  }

  /** Counts, for every node, the nodes that list it as a successor. */
  method CountIndegrees(order: seq<Node>, succs: Adj) returns (indegree: map<Node, nat>)
    requires NoDup(order) && forall s :: s in order ==> NoDup(Out(succs, s))
    requires forall s, t :: s in order && t in Out(succs, s) ==> t in order
    ensures CountsPreds(Elems(order), succs, {}, indegree)
  {
    hide Waiting;
    indegree := map s | s in order :: 0;
    assert order[..0] == [];
    forall t ensures Waiting(Elems(order[..0]), succs, {}, t) == 0 { NoPreds(succs, t); }
    var k := 0;
    while k < |order|
      invariant 0 <= k <= |order|
      invariant indegree.Keys == Elems(order)
      invariant forall t :: t in order ==> indegree[t] == Waiting(Elems(order[..k]), succs, {}, t)
    {
      var s := order[k];
      indegree := CountOne(order, succs, s, indegree);
      assert order[..k + 1] == order[..k] + [s];
      forall t ensures Waiting(Elems(order[..k + 1]), succs, {}, t) ==
                       Waiting(Elems(order[..k]), succs, {}, t) + (if t in Out(succs, s) then 1 else 0) {
        assert s !in order[..k];
        OneMorePred(order[..k], succs, s, t);
      }
      k := k + 1;
    }
    assert order[..k] == order;
  }

  method CountOne(order: seq<Node>, succs: Adj, s: Node, indegree0: map<Node, nat>) returns (indegree: map<Node, nat>)
    requires NoDup(Out(succs, s)) && indegree0.Keys == Elems(order)
    requires forall t :: t in Out(succs, s) ==> t in order
    ensures indegree.Keys == Elems(order)
    ensures forall t :: t in order ==> indegree[t] == indegree0[t] + (if t in Out(succs, s) then 1 else 0)
  {
    var out := Out(succs, s);
    indegree := indegree0;
    var j := 0;
    while j < |out|
      invariant 0 <= j <= |out| && indegree.Keys == Elems(order)
      invariant forall t :: t in order ==> indegree[t] == indegree0[t] + (if t in out[..j] then 1 else 0)
    {
      assert out[j] in out;
      assert out[j] !in out[..j];
      assert out[..j + 1] == out[..j] + [out[j]];
      indegree := indegree[out[j] := indegree[out[j]] + 1];
      j := j + 1;
    }
    assert out[..j] == out;
  }

  lemma NoPreds(succs: Adj, t: Node)
    ensures Waiting(Elems([]), succs, {}, t) == 0
  {
    assert Preds(Elems([]), succs, t) == {};
  }

  lemma OneMorePred(done: seq<Node>, succs: Adj, s: Node, t: Node)
    requires s !in done
    ensures Waiting(Elems(done + [s]), succs, {}, t) ==
            Waiting(Elems(done), succs, {}, t) + (if t in Out(succs, s) then 1 else 0)
  {
    var before := Preds(Elems(done), succs, t);
    var after := Preds(Elems(done + [s]), succs, t);
    assert before - {} == before && after - {} == after;
    assert after == if t in Out(succs, s) then before + {s} else before;
  }
}
