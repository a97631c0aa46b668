/**
 Memory effects of functions, propagated from callees to callers over the
 components of the call graph (crates/codegen/src/analysis/func_behavior.rs,
 crates/codegen/src/isa/evm/mem_effects.rs).
 */
module FuncEffects {
  import opened Graphs
  import opened Options
  import opened OrderedSets
  import opened CallGraphs
  import Kahn

  /** The bits an effect summary can have. */
  datatype Effect = MemRead | MemWrite | NoReturn | StaticArena | Scratch | DynFrame | HeapMeta

  type Effects = set<Effect>

  /** What a function does itself, and what is known of its body. */
  datatype LocalFacts = LocalFacts(isExternal: bool, hasBody: bool, localMem: Effects)

  /** Unknown code may do both. */
  function OwnEffects(l: LocalFacts): Effects {
    if l.isExternal || !l.hasBody then {MemRead, MemWrite} else l.localMem
  }

  type Own = map<FuncRef, Effects>

  /** Some function that `f` reaches through calls has effect `e` itself. */
  ghost predicate InClosure(a: Adj, own: Own, f: FuncRef, e: Effect) {
    exists h :: Reach(a, f, h) && h in own && e in own[h]
  }

  ghost predicate IsClosure(a: Adj, own: Own, f: FuncRef, es: Effects) {
    forall e :: e in es <==> InClosure(a, own, f, e)
  }

  /** A module: its functions, all callees among them. */
  ghost predicate WholeModule(g: CallGraph, own: Own) {
    && (forall f :: f in g.funcs <==> f in own)
    && (forall u, v :: u in own && Edge(g.callees, u, v) ==> v in own)
  }

  lemma StaysInModule(g: CallGraph, own: Own, f: FuncRef, h: FuncRef)
    requires WholeModule(g, own) && f in own && Reach(g.callees, f, h)
    ensures h in own
  {
    ReachClosed(g.callees, own.Keys, f, h);
  }

  // ----- the condensation of the call graph

  ghost predicate Links(g: CallGraph, sccs: CallGraphSccs, own: Own, s: SccRef, t: SccRef) {
    exists u, v :: u in own && v in own && Edge(g.callees, u, v)
                   && u in sccs.sccMap && v in sccs.sccMap && sccs.sccMap[u] == s && sccs.sccMap[v] == t
  }

  ghost predicate SuccsOf(g: CallGraph, sccs: CallGraphSccs, own: Own, succs: Adj, s: SccRef) {
    NoDup(Out(succs, s)) && forall t :: t in Out(succs, s) <==> s != t && Links(g, sccs, own, s, t)
  }

  ghost predicate IsCondensation(g: CallGraph, sccs: CallGraphSccs, own: Own, nodes: set<SccRef>, succs: Adj) {
    && (forall s :: s in nodes <==> exists f :: f in own && f in sccs.sccMap && sccs.sccMap[f] == s)
    && (forall s {:trigger SuccsOf(g, sccs, own, succs, s)} :: s in nodes ==> SuccsOf(g, sccs, own, succs, s))
  }

  // ----- building it

  type Rows = map<SccRef, set<SccRef>>

  function Row(rows: Rows, s: SccRef): set<SccRef> {
    if s in rows then rows[s] else {}
  }

  /** The links seen so far come from the calls `e`. */
  ghost predicate RowsOk(m: map<FuncRef, SccRef>, e: set<(Node, Node)>, rows: Rows) {
    forall s, t :: t in Row(rows, s) <==> s != t && LinkedBy(m, e, s, t)
  }

  lemma RowStep(m: map<FuncRef, SccRef>, e: set<(Node, Node)>, rows: Rows, u: FuncRef, v: FuncRef)
    requires RowsOk(m, e, rows) && u in m && v in m
    ensures RowsOk(m, e + {(u, v)}, if m[u] == m[v] then rows else rows[m[u] := Row(rows, m[u]) + {m[v]}])
  {
    var e' := e + {(u, v)};
    forall s, t ensures LinkedBy(m, e', s, t) <==> LinkedBy(m, e, s, t) || (m[u] == s && m[v] == t) {
      LinkedByMore(m, e, u, v, s, t);
    }
    hide LinkedBy;
  }

  /** All calls of the functions in `fs`, and those from `f` to `upto`. */
  ghost predicate CallsOf(a: Adj, fs: seq<FuncRef>, f: FuncRef, upto: seq<FuncRef>, e: set<(Node, Node)>) {
    forall u: Node, v: Node :: (u, v) in e <==> (u in fs && Edge(a, u, v)) || (u == f && v in upto)
  }

  lemma CallStep(a: Adj, fs: seq<FuncRef>, f: FuncRef, upto: seq<FuncRef>, v: FuncRef, e: set<(Node, Node)>)
    requires CallsOf(a, fs, f, upto, e)
    ensures CallsOf(a, fs, f, upto + [v], e + {(f, v)})
  {
  }

  lemma CallsDone(a: Adj, fs: seq<FuncRef>, f: FuncRef, e: set<(Node, Node)>)
    requires CallsOf(a, fs, f, Out(a, f), e)
    ensures forall f' :: CallsOf(a, fs + [f], f', [], e)
  {
  }

  lemma RowsAreLinks(g: CallGraph, sccs: CallGraphSccs, own: Own, e: set<(Node, Node)>, rows: Rows, s: SccRef, t: SccRef)
    requires WholeModule(g, own) && DescribesSccs(g, sccs)
    requires RowsOk(sccs.sccMap, e, rows) && CallsOf(g.callees, g.funcs, 0, [], e)
    ensures t in Row(rows, s) <==> s != t && Links(g, sccs, own, s, t)
  {
    hide AssignedOk;
    var m := sccs.sccMap;
    if Links(g, sccs, own, s, t) {
      var u, v :| u in own && v in own && Edge(g.callees, u, v) && u in m && v in m && m[u] == s && m[v] == t;
      assert (u, v) in e;
    }
    if LinkedBy(m, e, s, t) {
      var u, v :| (u, v) in e && u in m && v in m && m[u] == s && m[v] == t;
      assert u in own && Edge(g.callees, u, v);
    }
  }

  /** The successor lists of the components, and the components themselves. */
  method BuildCondensation(g: CallGraph, sccs: CallGraphSccs, ghost own: Own) returns (nodes: set<SccRef>, succs: Adj)
    requires WholeModule(g, own) && DescribesSccs(g, sccs)
    ensures IsCondensation(g, sccs, own, nodes, succs)
  {
    hide AssignedOk, LinkedBy, Links, RowsOk, CallsOf;
    var m := sccs.sccMap;
    nodes := {};
    var rows: Rows := map[];
    ghost var e: set<(Node, Node)> := {};
    NoRows(g.callees, m);
    var k := 0;
    while k < |g.funcs|
      invariant 0 <= k <= |g.funcs|
      invariant RowsOk(m, e, rows) && forall f :: CallsOf(g.callees, g.funcs[..k], f, [], e)
      invariant forall s :: s in nodes <==> exists f :: f in g.funcs[..k] && f in m && m[f] == s
    {
      var f := g.funcs[k];
      assert f in g.funcs;
      rows, e := RowsOfFunc(g, sccs, own, f, rows, e, g.funcs[..k]);
      assert g.funcs[..k + 1] == g.funcs[..k] + [f];
      NodesStep(m, g.funcs[..k], f, nodes);
      nodes := nodes + {m[f]};
      k := k + 1;
    }
    assert g.funcs[..k] == g.funcs;
    succs := map s | s in nodes :: Listing(Row(rows, s));
    forall s | s in nodes ensures SuccsOf(g, sccs, own, succs, s) {
      forall t ensures t in Row(rows, s) <==> s != t && Links(g, sccs, own, s, t) {
        RowsAreLinks(g, sccs, own, e, rows, s, t);
      }
      AscendingNoDup(Out(succs, s));
    }
  }

  lemma AscendingNoDup(s: seq<nat>)
    requires Ascending(s)
    ensures NoDup(s)
  {
  }

  lemma NoRows(a: Adj, m: map<FuncRef, SccRef>)
    ensures RowsOk(m, {}, map[]) && forall f :: CallsOf(a, [], f, [], {})
  {
  }

  lemma NodesStep(m: map<FuncRef, SccRef>, fs: seq<FuncRef>, f: FuncRef, nodes: set<SccRef>)
    requires f in m && forall s :: s in nodes <==> exists h :: h in fs && h in m && m[h] == s
    ensures forall s :: s in nodes + {m[f]} <==> exists h :: h in fs + [f] && h in m && m[h] == s
  {
    forall s | s in nodes + {m[f]} ensures exists h :: h in fs + [f] && h in m && m[h] == s {
      if s in nodes {
        var h :| h in fs && h in m && m[h] == s;
        assert h in fs + [f];
      } else {
        assert f in fs + [f];
      }
    }
  }

  method RowsOfFunc(g: CallGraph, sccs: CallGraphSccs, ghost own: Own, f: FuncRef, rows0: Rows, ghost e0: set<(Node, Node)>, ghost fs: seq<FuncRef>)
    returns (rows: Rows, ghost e: set<(Node, Node)>)
    requires WholeModule(g, own) && DescribesSccs(g, sccs) && f in g.funcs
    requires RowsOk(sccs.sccMap, e0, rows0) && CallsOf(g.callees, fs, f, [], e0)
    ensures RowsOk(sccs.sccMap, e, rows) && forall f' :: CallsOf(g.callees, fs + [f], f', [], e)
  {
    hide AssignedOk, RowsOk, CallsOf;
    var m := sccs.sccMap;
    var callees := Out(g.callees, f);
    rows, e := rows0, e0;
    assert callees[..0] == [];
    var j := 0;
    while j < |callees|
      invariant 0 <= j <= |callees|
      invariant RowsOk(m, e, rows) && CallsOf(g.callees, fs, f, callees[..j], e)
    {
      var callee := callees[j];
      assert Edge(g.callees, f, callee);
      assert callee in g.funcs;
      assert callees[..j + 1] == callees[..j] + [callee];
      RowStep(m, e, rows, f, callee);
      CallStep(g.callees, fs, f, callees[..j], callee, e);
      if m[f] != m[callee] {
        rows := rows[m[f] := Row(rows, m[f]) + {m[callee]}];
      }
      e := e + {(f, callee)};
      j := j + 1;
    }
    assert callees[..j] == callees;
    CallsDone(g.callees, fs, f, e);
  }

  /** Calls between components lead to smaller references. */
  lemma CondensationIsDag(g: CallGraph, sccs: CallGraphSccs, own: Own, nodes: set<SccRef>, succs: Adj)
    requires WholeModule(g, own) && DescribesSccs(g, sccs) && IsCondensation(g, sccs, own, nodes, succs)
    ensures Kahn.IsDag(nodes, succs, map s | s in nodes :: -s)
  {
    hide Links, AssignedOk;
    forall s | s in nodes
      ensures NoDup(Out(succs, s)) && forall t :: t in Out(succs, s) ==> t in nodes && t < s
    {
      assert SuccsOf(g, sccs, own, succs, s);
      forall t | t in Out(succs, s) ensures t in nodes && t < s {
        LinkFalls(g, sccs, own, s, t);
      }
    }
  }

  lemma LinkFalls(g: CallGraph, sccs: CallGraphSccs, own: Own, s: SccRef, t: SccRef)
    requires WholeModule(g, own) && DescribesSccs(g, sccs) && Links(g, sccs, own, s, t)
    ensures t <= s && exists f :: f in own && f in sccs.sccMap && sccs.sccMap[f] == t
  {
    var u, v :| u in own && v in own && Edge(g.callees, u, v)
                && u in sccs.sccMap && v in sccs.sccMap && sccs.sccMap[u] == s && sccs.sccMap[v] == t;
    assert CalleesAssigned(g.callees, sccs.sccMap, u);
  }

  /** Components in topological order, callers first. */
  method TopoSortSccs(g: CallGraph, sccs: CallGraphSccs, ghost own: Own) returns (topo: seq<SccRef>, succs: Adj)
    requires WholeModule(g, own) && DescribesSccs(g, sccs)
    ensures IsCondensation(g, sccs, own, Elems(topo), succs) && NoDup(topo) && CallersFirst(topo, succs)
    ensures Kahn.IsGreedy(Elems(topo), succs, map s | s in Elems(topo) :: s, topo)
  {
    hide IsCondensation, AssignedOk, Kahn.IsGreedy;
    var nodes;
    nodes, succs := BuildCondensation(g, sccs, own);
    CondensationIsDag(g, sccs, own, nodes, succs);
    var order := Listing(nodes);
    AscendingNoDup(order);
    assert Elems(order) == nodes;
    var indegree := Kahn.CountIndegrees(order, succs);
    var key := map s | s in nodes :: s;
    topo := Kahn.TopoSort(nodes, succs, key, indegree, map s | s in nodes :: -s);
    GreedyCallersFirst(nodes, succs, key, topo);
  }

  ghost predicate ListedAfter(topo: seq<SccRef>, i: nat, t: SccRef) {
    exists j :: i < j < |topo| && topo[j] == t
  }

  ghost predicate CallersFirst(topo: seq<SccRef>, succs: Adj) {
    forall i, t {:trigger ListedAfter(topo, i, t)} :: 0 <= i < |topo| && t in Out(succs, topo[i]) ==> ListedAfter(topo, i, t)
  }

  lemma GreedyCallersFirst(nodes: set<SccRef>, succs: Adj, key: map<SccRef, nat>, topo: seq<SccRef>)
    requires nodes <= key.Keys && Kahn.IsGreedy(nodes, succs, key, topo)
    requires NoDup(topo) && Elems(topo) == nodes
    requires forall s, t :: s in nodes && t in Out(succs, s) ==> t in nodes
    ensures CallersFirst(topo, succs)
  {
    hide Kahn.IsGreedy;
    forall i: nat, t | i < |topo| && t in Out(succs, topo[i]) ensures ListedAfter(topo, i, t) {
      assert topo[i] in Elems(topo);
      assert t in Elems(topo);
      Kahn.GreedyGoesForward(nodes, succs, key, topo, topo[i], t);
      var i', j :| 0 <= i' < j < |topo| && topo[i'] == topo[i] && topo[j] == t;
      assert i' == i;
    }
  }

  // ----- the closure

  /** The members of component `s`. */
  function Components(sccs: CallGraphSccs, s: SccRef): set<FuncRef> {
    if s < |sccs.sccStore| then sccs.sccStore[s].components else {}
  }

  lemma ComponentsAre(g: CallGraph, sccs: CallGraphSccs, own: Own, nodes: set<SccRef>, succs: Adj, s: SccRef, f: FuncRef)
    requires WholeModule(g, own) && DescribesSccs(g, sccs) && IsCondensation(g, sccs, own, nodes, succs) && s in nodes
    ensures f in Components(sccs, s) <==> f in sccs.sccMap && sccs.sccMap[f] == s
    ensures f in Components(sccs, s) ==> f in own
  {
    var h :| h in own && h in sccs.sccMap && sccs.sccMap[h] == s;
    SccExact(g, sccs, h, f);
    if f in Components(sccs, s) { StaysInModule(g, own, h, f); }
    assert InfoOk(g.callees, sccs.sccMap, sccs.sccStore[s], s);
  }

  /** `mem` is known to be the closure for every member of component `s`. */
  ghost predicate SccClosed(g: CallGraph, sccs: CallGraphSccs, own: Own, s: SccRef, mem: Effects) {
    forall f :: f in Components(sccs, s) ==> IsClosure(g.callees, own, f, mem)
  }

  ghost predicate FromMembers(sccs: CallGraphSccs, own: Own, s: SccRef, e: Effect) {
    exists h :: h in Components(sccs, s) && h in own && e in own[h]
  }

  ghost predicate FromSuccs(succs: Adj, sccMem: map<SccRef, Effects>, s: SccRef, e: Effect) {
    exists t :: t in Out(succs, s) && t in sccMem && e in sccMem[t]
  }

  /** A member's own effects together with the closures of the called
      components are the closure of the component. */
  lemma ClosureStep(g: CallGraph, sccs: CallGraphSccs, own: Own, nodes: set<SccRef>, succs: Adj,
                    s: SccRef, sccMem: map<SccRef, Effects>, mem: Effects)
    requires WholeModule(g, own) && DescribesSccs(g, sccs) && IsCondensation(g, sccs, own, nodes, succs) && s in nodes
    requires forall t :: t in Out(succs, s) ==> t in nodes && t in sccMem && SccClosed(g, sccs, own, t, sccMem[t])
    requires forall e :: e in mem <==> FromMembers(sccs, own, s, e) || FromSuccs(succs, sccMem, s, e)
    ensures SccClosed(g, sccs, own, s, mem)
  {
    hide AssignedOk, Reach, FromMembers, FromSuccs, InClosure, IsCondensation, Components, SccClosed, IsClosure;
    forall f | f in Components(sccs, s) ensures IsClosure(g.callees, own, f, mem) {
      forall e ensures e in mem <==> InClosure(g.callees, own, f, e) {
        if FromMembers(sccs, own, s, e) { MemberInClosure(g, sccs, own, nodes, succs, s, f, e); }
        if FromSuccs(succs, sccMem, s, e) { SuccInClosure(g, sccs, own, nodes, succs, s, sccMem, f, e); }
        if InClosure(g.callees, own, f, e) { ClosureFrom(g, sccs, own, nodes, succs, s, sccMem, f, e); }
      }
      IsClosureIntro(g.callees, own, f, mem);
    }
    SccClosedIntro(g, sccs, own, s, mem);
  }

  lemma IsClosureIntro(a: Adj, own: Own, f: FuncRef, mem: Effects)
    requires forall e :: e in mem <==> InClosure(a, own, f, e)
    ensures IsClosure(a, own, f, mem)
  {
  }

  lemma SccClosedIntro(g: CallGraph, sccs: CallGraphSccs, own: Own, s: SccRef, mem: Effects)
    requires forall f :: f in Components(sccs, s) ==> IsClosure(g.callees, own, f, mem)
    ensures SccClosed(g, sccs, own, s, mem)
  {
  }

  lemma MembersMutual(g: CallGraph, sccs: CallGraphSccs, own: Own, nodes: set<SccRef>, succs: Adj, s: SccRef, f: FuncRef, h: FuncRef)
    requires WholeModule(g, own) && DescribesSccs(g, sccs) && IsCondensation(g, sccs, own, nodes, succs) && s in nodes
    requires f in Components(sccs, s) && h in Components(sccs, s)
    ensures Reach(g.callees, f, h)
  {
    hide Reach, AssignedOk;
    ComponentsAre(g, sccs, own, nodes, succs, s, f);
    SccExact(g, sccs, f, h);
  }

  lemma MemberInClosure(g: CallGraph, sccs: CallGraphSccs, own: Own, nodes: set<SccRef>, succs: Adj, s: SccRef, f: FuncRef, e: Effect)
    requires WholeModule(g, own) && DescribesSccs(g, sccs) && IsCondensation(g, sccs, own, nodes, succs) && s in nodes
    requires f in Components(sccs, s) && FromMembers(sccs, own, s, e)
    ensures InClosure(g.callees, own, f, e)
  {
    hide Reach, AssignedOk, IsCondensation;
    var h :| h in Components(sccs, s) && h in own && e in own[h];
    MembersMutual(g, sccs, own, nodes, succs, s, f, h);
  }

  lemma SuccInClosure(g: CallGraph, sccs: CallGraphSccs, own: Own, nodes: set<SccRef>, succs: Adj,
                      s: SccRef, sccMem: map<SccRef, Effects>, f: FuncRef, e: Effect)
    requires WholeModule(g, own) && DescribesSccs(g, sccs) && IsCondensation(g, sccs, own, nodes, succs) && s in nodes
    requires forall t :: t in Out(succs, s) ==> t in nodes && t in sccMem && SccClosed(g, sccs, own, t, sccMem[t])
    requires f in Components(sccs, s) && FromSuccs(succs, sccMem, s, e)
    ensures InClosure(g.callees, own, f, e)
  {
    hide Reach, AssignedOk, Components;
    var t :| t in Out(succs, s) && t in sccMem && e in sccMem[t];
    assert SuccsOf(g, sccs, own, succs, s);
    var u, v :| u in own && v in own && Edge(g.callees, u, v)
                && u in sccs.sccMap && v in sccs.sccMap && sccs.sccMap[u] == s && sccs.sccMap[v] == t;
    ComponentsAre(g, sccs, own, nodes, succs, s, u);
    ComponentsAre(g, sccs, own, nodes, succs, t, v);
    assert IsClosure(g.callees, own, v, sccMem[t]);
    var h :| Reach(g.callees, v, h) && h in own && e in own[h];
    MembersMutual(g, sccs, own, nodes, succs, s, f, u);
    ReachCons(g.callees, u, v, h);
    ReachTrans(g.callees, f, u, h);
  }

  lemma ClosureFrom(g: CallGraph, sccs: CallGraphSccs, own: Own, nodes: set<SccRef>, succs: Adj,
                    s: SccRef, sccMem: map<SccRef, Effects>, f: FuncRef, e: Effect)
    requires WholeModule(g, own) && DescribesSccs(g, sccs) && IsCondensation(g, sccs, own, nodes, succs) && s in nodes
    requires forall t :: t in Out(succs, s) ==> t in nodes && t in sccMem && SccClosed(g, sccs, own, t, sccMem[t])
    requires f in Components(sccs, s) && InClosure(g.callees, own, f, e)
    ensures FromMembers(sccs, own, s, e) || FromSuccs(succs, sccMem, s, e)
  {
    hide Reach, AssignedOk, Components;
    var a := g.callees;
    var h :| Reach(a, f, h) && h in own && e in own[h];
    if h !in Components(sccs, s) {
      var x, y := ReachCrossing(a, Components(sccs, s), f, h);
      ComponentsAre(g, sccs, own, nodes, succs, s, x);
      ComponentsAre(g, sccs, own, nodes, succs, s, y);
      assert y in own;
      var t := sccs.sccMap[y];
      assert Links(g, sccs, own, s, t);
      assert SuccsOf(g, sccs, own, succs, s);
      ComponentsAre(g, sccs, own, nodes, succs, t, y);
      assert IsClosure(a, own, y, sccMem[t]);
      assert InClosure(a, own, y, e);
    }
  }

  // ----- the two propagation passes

  method JoinMembers(sccs: CallGraphSccs, own: Own, s: SccRef) returns (mem: Effects)
    ensures forall e :: e in mem <==> FromMembers(sccs, own, s, e)
  {
    var comps := Listing(Components(sccs, s));
    mem := {};
    var k := 0;
    while k < |comps|
      invariant 0 <= k <= |comps|
      invariant forall e :: e in mem <==> exists h :: h in comps[..k] && h in own && e in own[h]
    {
      assert comps[..k + 1] == comps[..k] + [comps[k]];
      mem := mem + if comps[k] in own then own[comps[k]] else {};
      k := k + 1;
    }
    assert comps[..k] == comps;
    forall e ensures e in mem <==> FromMembers(sccs, own, s, e) {}
  }

  method JoinSuccs(succs: Adj, sccMem: map<SccRef, Effects>, s: SccRef, mem0: Effects) returns (mem: Effects)
    ensures forall e :: e in mem <==> e in mem0 || FromSuccs(succs, sccMem, s, e)
  {
    var out := Out(succs, s);
    mem := mem0;
    var k := 0;
    while k < |out|
      invariant 0 <= k <= |out|
      invariant forall e :: e in mem <==> e in mem0 || exists t :: t in out[..k] && t in sccMem && e in sccMem[t]
    {
      assert out[..k + 1] == out[..k] + [out[k]];
      mem := mem + if out[k] in sccMem then sccMem[out[k]] else {};
      k := k + 1;
    }
    assert out[..k] == out;
    forall e ensures e in mem <==> e in mem0 || FromSuccs(succs, sccMem, s, e) {}
  }

  /** The components listed from `k` on have their closures. */
  ghost predicate DoneFrom(g: CallGraph, sccs: CallGraphSccs, own: Own, topo: seq<SccRef>, k: nat, sccMem: map<SccRef, Effects>) {
    forall i {:trigger topo[i]} :: k <= i < |topo| ==> topo[i] in sccMem && SccClosed(g, sccs, own, topo[i], sccMem[topo[i]])
  }

  /** One more component, from the end of the topological order. */
  lemma DoneStep(g: CallGraph, sccs: CallGraphSccs, own: Own, topo: seq<SccRef>, succs: Adj, k: nat,
                 sccMem: map<SccRef, Effects>, mem: Effects)
    requires WholeModule(g, own) && DescribesSccs(g, sccs)
    requires IsCondensation(g, sccs, own, Elems(topo), succs) && NoDup(topo) && CallersFirst(topo, succs)
    requires k < |topo| && DoneFrom(g, sccs, own, topo, k + 1, sccMem)
    requires forall e :: e in mem <==> FromMembers(sccs, own, topo[k], e) || FromSuccs(succs, sccMem, topo[k], e)
    ensures DoneFrom(g, sccs, own, topo, k, sccMem[topo[k] := mem])
  {
    hide WholeModule, DescribesSccs, IsCondensation, SccClosed, FromMembers, FromSuccs;
    forall t | t in Out(succs, topo[k])
      ensures t in topo && t in sccMem && SccClosed(g, sccs, own, t, sccMem[t])
    {
      assert ListedAfter(topo, k, t);
    }
    ClosureStep(g, sccs, own, Elems(topo), succs, topo[k], sccMem, mem);
  }

  /** The analysis of `func_behavior.rs`, as far as memory effects go. */
  class FuncBehaviorAnalyzer {
    const locals: map<FuncRef, LocalFacts>
    /** The attributes computed so far, memory effects among them. */
    var attrs: map<FuncRef, Effects>

    function OwnOf(): Own {
      map f | f in locals :: OwnEffects(locals[f])
    }

    constructor (locals: map<FuncRef, LocalFacts>, attrs: map<FuncRef, Effects>)
      ensures this.locals == locals && this.attrs == attrs
    {
      this.locals, this.attrs := locals, attrs;
    }

    /** Gives every function exactly the memory effects of the functions it can
        reach through calls, and leaves its other attributes alone. */
    method PropagateMem(g: CallGraph, sccs: CallGraphSccs, topo: seq<SccRef>, succs: Adj)
      requires WholeModule(g, OwnOf()) && DescribesSccs(g, sccs)
      requires IsCondensation(g, sccs, OwnOf(), Elems(topo), succs) && NoDup(topo) && CallersFirst(topo, succs)
      requires attrs.Keys == locals.Keys
      requires forall f :: f in locals ==> locals[f].localMem <= {MemRead, MemWrite}
      modifies this`attrs
      ensures attrs.Keys == old(attrs).Keys
      ensures forall f :: f in attrs ==> MemIsClosure(g, OwnOf(), old(attrs)[f], attrs[f], f)
    {
      hide AssignedOk, Reach, IsCondensation, CallersFirst, SccClosed, WholeModule, DescribesSccs, FromMembers, FromSuccs, AttrsOk;
      var own := OwnOf();
      var sccMem: map<SccRef, Effects> := map[];
      var k := |topo|;
      assert topo[k..] == [];
      AttrsAtStart(g, own, sccs, attrs);
      while k > 0
        invariant 0 <= k <= |topo| && attrs.Keys == old(attrs).Keys
        invariant DoneFrom(g, sccs, own, topo, k, sccMem)
        invariant forall f :: f in attrs ==> AttrsOk(sccs, topo[k..], sccMem, old(attrs), attrs, f)
      {
        k := k - 1;
        var scc := topo[k];
        var mem := JoinMembers(sccs, own, scc);
        mem := JoinSuccs(succs, sccMem, scc, mem);
        DoneStep(g, sccs, own, topo, succs, k, sccMem, mem);
        ghost var sccMem0, attrs0 := sccMem, attrs;
        sccMem := sccMem[scc := mem];
        StoreMem(g, sccs, topo, succs, scc, mem);
        assert topo[k..] == [scc] + topo[k + 1..];
        forall f | f in attrs ensures AttrsOk(sccs, topo[k..], sccMem, old(attrs), attrs, f) {
          ComponentsAre(g, sccs, own, Elems(topo), succs, scc, f);
          AttrsStep(sccs, topo, k, sccMem0, mem, old(attrs), attrs0, attrs, f);
        }
      }
      assert topo[0..] == topo;
      forall f | f in attrs ensures MemIsClosure(g, own, old(attrs)[f], attrs[f], f) {
        AttrsAtEnd(g, sccs, own, topo, succs, sccMem, old(attrs), attrs, f);
      }
    }

    /** Replaces the memory bits of the members of `scc`. */
    method StoreMem(g: CallGraph, sccs: CallGraphSccs, ghost topo: seq<SccRef>, ghost succs: Adj, scc: SccRef, mem: Effects)
      requires WholeModule(g, OwnOf()) && DescribesSccs(g, sccs) && IsCondensation(g, sccs, OwnOf(), Elems(topo), succs)
      requires scc in topo && attrs.Keys == locals.Keys
      modifies this`attrs
      ensures attrs.Keys == old(attrs).Keys
      ensures forall f :: f in attrs ==>
                attrs[f] == if f in Components(sccs, scc) then old(attrs)[f] - {MemRead, MemWrite} + mem else old(attrs)[f]
    {
      hide AssignedOk, Reach, IsCondensation, WholeModule, DescribesSccs;
      var comps := Listing(Components(sccs, scc));
      forall f | f in comps ensures f in attrs {
        ComponentsAre(g, sccs, OwnOf(), Elems(topo), succs, scc, f);
      }
      AscendingNoDup(comps);
      var i := 0;
      while i < |comps|
        invariant 0 <= i <= |comps| && attrs.Keys == old(attrs).Keys
        invariant forall f :: f in attrs ==>
                    attrs[f] == if f in comps[..i] then old(attrs)[f] - {MemRead, MemWrite} + mem else old(attrs)[f]
      {
        var f := comps[i];
        assert f !in comps[..i];
        assert comps[..i + 1] == comps[..i] + [f];
        attrs := attrs[f := attrs[f] - {MemRead, MemWrite} + mem];
        i := i + 1;
      }
      assert comps[..i] == comps;
    }
  }

  /** The memory bits of `now` are the closure for `f`, the others are as before. */
  ghost predicate MemIsClosure(g: CallGraph, own: Own, before: Effects, now: Effects, f: FuncRef) {
    && (forall e :: e in {MemRead, MemWrite} ==> (e in now <==> InClosure(g.callees, own, f, e)))
    && now - {MemRead, MemWrite} == before - {MemRead, MemWrite}
  }

  /** `f` has the effects of its component if that is done, and its old
      attributes otherwise. */
  ghost predicate AttrsOk(sccs: CallGraphSccs, done: seq<SccRef>, sccMem: map<SccRef, Effects>,
                          attrs0: map<FuncRef, Effects>, attrs: map<FuncRef, Effects>, f: FuncRef)
  {
    && f in attrs0 && f in attrs && f in sccs.sccMap
    && (sccs.sccMap[f] !in done ==> attrs[f] == attrs0[f])
    && (sccs.sccMap[f] in done ==>
          sccs.sccMap[f] in sccMem && attrs[f] == attrs0[f] - {MemRead, MemWrite} + sccMem[sccs.sccMap[f]])
  }

  lemma AttrsAtStart(g: CallGraph, own: Own, sccs: CallGraphSccs, attrs: map<FuncRef, Effects>)
    requires WholeModule(g, own) && DescribesSccs(g, sccs) && attrs.Keys == own.Keys
    ensures forall f :: f in attrs ==> AttrsOk(sccs, [], map[], attrs, attrs, f)
  {
    hide AssignedOk;
  }

  lemma AttrsStep(sccs: CallGraphSccs, topo: seq<SccRef>, k: nat, sccMem: map<SccRef, Effects>, mem: Effects,
                  attrs0: map<FuncRef, Effects>, attrs1: map<FuncRef, Effects>, attrs: map<FuncRef, Effects>, f: FuncRef)
    requires k < |topo| && NoDup(topo) && f in attrs && f in attrs1
    requires AttrsOk(sccs, topo[k + 1..], sccMem, attrs0, attrs1, f)
    requires f in Components(sccs, topo[k]) <==> f in sccs.sccMap && sccs.sccMap[f] == topo[k]
    requires attrs[f] == if f in Components(sccs, topo[k]) then attrs1[f] - {MemRead, MemWrite} + mem else attrs1[f]
    ensures AttrsOk(sccs, topo[k..], sccMem[topo[k] := mem], attrs0, attrs, f)
  {
    assert topo[k..] == [topo[k]] + topo[k + 1..];
    assert topo[k] !in topo[k + 1..];
  }

  lemma AttrsAtEnd(g: CallGraph, sccs: CallGraphSccs, own: Own, topo: seq<SccRef>, succs: Adj, sccMem: map<SccRef, Effects>,
                   attrs0: map<FuncRef, Effects>, attrs: map<FuncRef, Effects>, f: FuncRef)
    requires WholeModule(g, own) && DescribesSccs(g, sccs) && IsCondensation(g, sccs, own, Elems(topo), succs)
    requires DoneFrom(g, sccs, own, topo, 0, sccMem) && f in own
    requires AttrsOk(sccs, topo, sccMem, attrs0, attrs, f)
    requires forall h :: h in own ==> own[h] <= {MemRead, MemWrite}
    ensures MemIsClosure(g, own, attrs0[f], attrs[f], f)
  {
    hide AssignedOk, Reach, DescribesSccs;
    var s := sccs.sccMap[f];
    assert s in Elems(topo);
    ComponentsAre(g, sccs, own, Elems(topo), succs, s, f);
    assert SccClosed(g, sccs, own, s, sccMem[s]);
    assert IsClosure(g.callees, own, f, sccMem[s]);
  }

  /** Some function that `f` reaches is unknown code or has effect `e` itself. */
  ghost predicate MayDo(g: CallGraph, locals: map<FuncRef, LocalFacts>, f: FuncRef, e: Effect) {
    exists h :: Reach(g.callees, f, h) && h in locals && (locals[h].isExternal || !locals[h].hasBody || e in locals[h].localMem)
  }

  /** Of the memory bits `now` has those some reached function may set, the other
      attributes are as before. */
  ghost predicate MemExact(g: CallGraph, locals: map<FuncRef, LocalFacts>, before: Effects, now: Effects, f: FuncRef) {
    && (MemRead in now <==> MayDo(g, locals, f, MemRead))
    && (MemWrite in now <==> MayDo(g, locals, f, MemWrite))
    && (forall e :: e != MemRead && e != MemWrite ==> (e in now <==> e in before))
  }

  lemma ClosureIsExact(g: CallGraph, locals: map<FuncRef, LocalFacts>, before: Effects, now: Effects, f: FuncRef)
    requires MemIsClosure(g, map h | h in locals :: OwnEffects(locals[h]), before, now, f)
    ensures MemExact(g, locals, before, now, f)
  {
    hide Reach;
    var own := map h | h in locals :: OwnEffects(locals[h]);
    forall e | e == MemRead || e == MemWrite ensures InClosure(g.callees, own, f, e) <==> MayDo(g, locals, f, e) {
      if InClosure(g.callees, own, f, e) {
        var h :| Reach(g.callees, f, h) && h in own && e in own[h];
        assert h in locals;
      }
      if MayDo(g, locals, f, e) {
        var h :| Reach(g.callees, f, h) && h in locals && (locals[h].isExternal || !locals[h].hasBody || e in locals[h].localMem);
        assert h in own && e in own[h];
      }
    }
    forall e | e != MemRead && e != MemWrite ensures e in now <==> e in before {
      assert e in now - {MemRead, MemWrite} <==> e in now;
      assert e in before - {MemRead, MemWrite} <==> e in before;
    }
  }

  /** The whole analysis: components, topological order, propagation. */
  method AnalyzeMem(g: CallGraph, locals: map<FuncRef, LocalFacts>, attrs0: map<FuncRef, Effects>) returns (attrs: map<FuncRef, Effects>)
    requires attrs0.Keys == locals.Keys
    requires WholeModule(g, map f | f in locals :: OwnEffects(locals[f]))
    requires forall f :: f in locals ==> locals[f].localMem <= {MemRead, MemWrite}
    ensures attrs.Keys == locals.Keys
    ensures forall f :: f in locals ==> MemExact(g, locals, attrs0[f], attrs[f], f)
  {
    hide IsCondensation, CallersFirst, DescribesSccs, WholeModule, MemIsClosure, MemExact;
    var analyzer := new FuncBehaviorAnalyzer(locals, attrs0);
    var builder := new SccBuilder();
    var sccs := builder.ComputeScc(g);
    var topo, succs := TopoSortSccs(g, sccs, analyzer.OwnOf());
    analyzer.PropagateMem(g, sccs, topo, succs);
    attrs := analyzer.attrs;
    forall f | f in locals ensures MemExact(g, locals, attrs0[f], attrs[f], f) {
      ClosureIsExact(g, locals, attrs0[f], attrs[f], f);
    }
  }

  /** `compute_func_mem_effects`: the members' own effects per component first,
      then those of the called components, callees first. */
  method ComputeFuncMemEffects(g: CallGraph, own: Own) returns (effects: map<FuncRef, Effects>)
    requires WholeModule(g, own)
    ensures effects.Keys == own.Keys
    ensures forall f :: f in own ==> IsClosure(g.callees, own, f, effects[f])
  {
    hide AssignedOk, Reach, IsCondensation, CallersFirst, SccClosed, DescribesSccs, FromMembers, FromSuccs, IsClosure, WholeModule;
    var builder := new SccBuilder();
    var sccs := builder.ComputeScc(g);
    var topo, succs := TopoSortSccs(g, sccs, own);
    var sccEffects: map<SccRef, Effects> := map[];
    var i := 0;
    while i < |topo|
      invariant 0 <= i <= |topo|
      invariant forall j :: 0 <= j < i ==> OwnJoined(sccs, own, sccEffects, topo[j])
    {
      var eff := JoinMembers(sccs, own, topo[i]);
      sccEffects := sccEffects[topo[i] := eff];
      i := i + 1;
    }
    var k := |topo|;
    while k > 0
      invariant 0 <= k <= |topo|
      invariant DoneFrom(g, sccs, own, topo, k, sccEffects)
      invariant forall j :: 0 <= j < k ==> OwnJoined(sccs, own, sccEffects, topo[j])
    {
      k := k - 1;
      var s := topo[k];
      assert OwnJoined(sccs, own, sccEffects, s);
      var eff := JoinSuccs(succs, sccEffects, s, sccEffects[s]);
      DoneStep(g, sccs, own, topo, succs, k, sccEffects, eff);
      ghost var before := sccEffects;
      sccEffects := sccEffects[s := eff];
      forall j | 0 <= j < k ensures OwnJoined(sccs, own, sccEffects, topo[j]) {
        assert OwnJoined(sccs, own, before, topo[j]);
      }
    }
    effects := EffectsOfFuncs(g, sccs, own, topo, succs, sccEffects);
  }

  ghost predicate OwnJoined(sccs: CallGraphSccs, own: Own, sccEffects: map<SccRef, Effects>, s: SccRef) {
    s in sccEffects && forall e :: e in sccEffects[s] <==> FromMembers(sccs, own, s, e)
  }

  lemma EffectsKnown(g: CallGraph, sccs: CallGraphSccs, own: Own, topo: seq<SccRef>, succs: Adj, sccEffects: map<SccRef, Effects>, f: FuncRef)
    requires WholeModule(g, own) && DescribesSccs(g, sccs) && IsCondensation(g, sccs, own, Elems(topo), succs)
    requires DoneFrom(g, sccs, own, topo, 0, sccEffects) && f in own
    ensures f in sccs.sccMap && sccs.sccMap[f] in sccEffects
    ensures IsClosure(g.callees, own, f, sccEffects[sccs.sccMap[f]])
  {
    hide AssignedOk, Reach, IsClosure;
    var s := sccs.sccMap[f];
    assert s in Elems(topo);
    ComponentsAre(g, sccs, own, Elems(topo), succs, s, f);
    assert SccClosed(g, sccs, own, s, sccEffects[s]);
  }

  method EffectsOfFuncs(g: CallGraph, sccs: CallGraphSccs, own: Own, ghost topo: seq<SccRef>, ghost succs: Adj, sccEffects: map<SccRef, Effects>)
    returns (effects: map<FuncRef, Effects>)
    requires WholeModule(g, own) && DescribesSccs(g, sccs) && IsCondensation(g, sccs, own, Elems(topo), succs)
    requires DoneFrom(g, sccs, own, topo, 0, sccEffects)
    ensures effects.Keys == own.Keys
    ensures forall f :: f in own ==> IsClosure(g.callees, own, f, effects[f])
  {
    hide DescribesSccs, IsCondensation, IsClosure, DoneFrom;
    effects := map[];
    var k := 0;
    while k < |g.funcs|
      invariant 0 <= k <= |g.funcs|
      invariant effects.Keys == Elems(g.funcs[..k])
      invariant forall f :: f in effects ==> IsClosure(g.callees, own, f, effects[f])
    {
      var f := g.funcs[k];
      assert f in g.funcs;
      EffectsKnown(g, sccs, own, topo, succs, sccEffects, f);
      assert g.funcs[..k + 1] == g.funcs[..k] + [f];
      effects := effects[f := sccEffects[sccs.sccMap[f]]];
      k := k + 1;
    }
    assert g.funcs[..k] == g.funcs;
  }
}
