/**
 Strongly connected components of the reachable part of a control flow graph,
 and a topological order of them (crates/codegen/src/cfg_scc.rs).
 */
module CfgSccs {
  import opened Graphs
  import opened Options
  import opened Cfgs
  import opened OrderedSets
  import Kahn

  type SccId = nat
  type SccMap = map<BlockId, SccId>

  datatype SccData = SccData(
    blocksRpo: seq<BlockId>,
    entryBlocks: seq<BlockId>,
    exitBlocks: seq<BlockId>,
    succSccs: seq<SccId>,
    predSccs: seq<SccId>,
    isCycle: bool)

  // ----- the components

  /** The target of a reachable edge belongs to no earlier component than its
      source. */
  ghost predicate EdgeUp(a: Adj, entry: Node, m: SccMap, u: Node, v: Node) {
    v in m && Edge(a, u, v) && Reach(a, entry, u) ==> u in m && m[u] <= m[v]
  }

  /** The components assigned so far: whole components of reachable blocks,
      together with everything that reaches them. */
  ghost predicate Partial(a: Adj, entry: Node, m: SccMap, n: nat) {
    && (forall b :: b in m ==> Reach(a, entry, b) && m[b] < n)
    && (forall b, c :: b in m && c in m ==> SameIffMutual(a, m, b, c))
    && (forall u, v :: EdgeUp(a, entry, m, u, v))
    && (forall s :: 0 <= s < n ==> s in m.Values)
  }

  /** A walk that starts outside the assigned part stays outside it. */
  lemma {:induction false} StaysOutside(a: Adj, entry: Node, m: SccMap, x: Node, p: seq<Node>, y: Node)
    requires forall u, v :: EdgeUp(a, entry, m, u, v)
    requires Path(a, x, p, y) && Reach(a, entry, x) && x !in m
    ensures forall b :: b in p ==> b !in m && Reach(a, entry, b)
    decreases |p|
  {
    if |p| > 0 {
      ReachSnoc(a, entry, x, p[0]);
      assert EdgeUp(a, entry, m, x, p[0]);
      StaysOutside(a, entry, m, p[0], p[1..], y);
      assert forall b :: b in p <==> b == p[0] || b in p[1..];
    }
  }

  /** What the backward walk from `root` has gathered: `m` extends `m0` by
      blocks of component `n`, `pending` are still to be assigned, and all
      reachable predecessors of assigned blocks are known, but for `exempt`. */
  ghost predicate Gathering(a: Adj, entry: Node, m0: SccMap, n: nat, root: Node, m: SccMap,
                            visited: set<Node>, pending: seq<Node>, exempt: set<Node>)
  {
    && NoDup(pending) && visited == m.Keys + Elems(pending)
    && (forall b :: b in pending ==> b !in m)
    && root in visited
    && (forall b :: b in m0 ==> b in m && m[b] == m0[b])
    && (forall b :: b in m && b !in m0 ==> m[b] == n)
    && (forall b :: b in visited && b !in m0 ==> Reach(a, entry, b) && Reach(a, b, root))
    && (forall v :: v in m && v !in m0 && v !in exempt ==> PredsVisited(a, entry, visited, v))
  }

  ghost predicate PredsVisited(a: Adj, entry: Node, visited: set<Node>, v: Node) {
    forall u :: Edge(a, u, v) && Reach(a, entry, u) ==> u in visited
  }

  lemma PushKeeps(a: Adj, entry: Node, m0: SccMap, n: nat, root: Node, m: SccMap, visited: set<Node>, pending: seq<Node>,
                  node: Node, pred: Node)
    requires Gathering(a, entry, m0, n, root, m, visited, pending, {node})
    requires node in m && node !in m0 && Edge(a, pred, node) && Reach(a, entry, pred) && pred !in visited
    ensures Gathering(a, entry, m0, n, root, m, visited + {pred}, pending + [pred], {node})
  {
    hide Reach;
    ReachCons(a, pred, node, root);
    forall v | v in m && v !in m0 && v != node ensures PredsVisited(a, entry, visited + {pred}, v) {
      assert PredsVisited(a, entry, visited, v);
    }
  }

  lemma PopKeeps(a: Adj, entry: Node, m0: SccMap, n: nat, root: Node, m: SccMap, visited: set<Node>, pending: seq<Node>)
    requires |pending| > 0 && Gathering(a, entry, m0, n, root, m, visited, pending, {})
    ensures var node := pending[|pending| - 1];
            Gathering(a, entry, m0, n, root, m[node := n], visited, pending[..|pending| - 1], {node})
  {
    hide Reach, PredsVisited;
    var k := |pending| - 1;
    assert pending == pending[..k] + [pending[k]];
    assert pending[k] in pending;
  }

  lemma AllPredsVisited(cfg: Cfg, m0: SccMap, n: nat, root: Node, m: SccMap, visited: set<Node>, pending: seq<Node>, node: Node)
    requires ValidCfg(cfg) && cfg.entry.Some?
    requires Gathering(cfg.succs, cfg.entry.value, m0, n, root, m, visited, pending, {node})
    requires forall u :: u in Out(cfg.preds, node) && Reach(cfg.succs, cfg.entry.value, u) ==> u in visited
    ensures Gathering(cfg.succs, cfg.entry.value, m0, n, root, m, visited, pending, {})
  {
    hide Reach;
    forall v | v in m && v !in m0 ensures PredsVisited(cfg.succs, cfg.entry.value, visited, v) {
      if v == node {
        forall u | Edge(cfg.succs, u, v) && Reach(cfg.succs, cfg.entry.value, u) ensures u in visited {
          assert Edge(cfg.preds, node, u);
        }
      }
    }
  }

  lemma AllReachable(a: Adj, entry: Node, po: seq<Node>)
    requires DfsPostOrder(a, entry, po)
    ensures forall b :: b in po <==> Reach(a, entry, b)
  {
  }

  lemma NothingAssigned(a: Adj, entry: Node)
    ensures Partial(a, entry, map[], 0)
  {
    forall u, v ensures EdgeUp(a, entry, map[], u, v) {}
  }

  lemma AssignedReachable(a: Adj, entry: Node, m: SccMap, n: nat, rpo: seq<Node>)
    requires Partial(a, entry, m, n)
    requires forall b :: b in rpo <==> Reach(a, entry, b)
    requires forall j :: 0 <= j < |rpo| ==> rpo[j] in m
    ensures IsSccMap(a, entry, m, n)
  {
    hide Reach, EdgeUp, SameIffMutual;
    forall b | Reach(a, entry, b) ensures b in m {
      assert b in rpo;
    }
  }

  lemma GatheredReachesBack(a: Adj, entry: Node, po: seq<Node>, i: nat, m0: SccMap, n: nat, x: Node)
    requires DfsPostOrder(a, entry, po) && i < |po|
    requires Partial(a, entry, m0, n)
    requires forall j :: i < j < |po| ==> po[j] in m0
    requires Reach(a, entry, x) && Reach(a, x, po[i]) && x !in m0
    ensures Mutual(a, x, po[i])
  {
    var p :| Path(a, x, p, po[i]);
    StaysOutside(a, entry, m0, x, p, po[i]);
    assert x in po;
    forall b | b in p || b == x ensures b in po && Position(po, b) <= i {
      assert b in po;
      assert po[Position(po, b)] == b && b !in m0;
    }
    ReachedBackFromLatest(a, entry, po, Position(po, x), i, p);
  }

  /** With nothing pending, the gathered part is closed under predecessors. */
  lemma GatheredEdgeUp(a: Adj, entry: Node, m0: SccMap, n: nat, root: Node, m: SccMap, visited: set<Node>, u: Node, v: Node)
    requires Partial(a, entry, m0, n)
    requires Gathering(a, entry, m0, n, root, m, visited, [], {})
    ensures EdgeUp(a, entry, m, u, v)
  {
    hide Reach;
    assert EdgeUp(a, entry, m0, u, v);
    if v in m && v !in m0 {
      assert PredsVisited(a, entry, visited, v);
      assert visited == m.Keys;
    }
  }

  lemma GatheredSameIffMutual(a: Adj, entry: Node, m0: SccMap, n: nat, root: Node, m: SccMap, b: Node, c: Node)
    requires Partial(a, entry, m0, n)
    requires forall x :: x in m0 ==> x in m && m[x] == m0[x]
    requires forall x :: x in m && x !in m0 ==> m[x] == n && Reach(a, entry, x) && Mutual(a, x, root)
    requires b in m && c in m
    ensures SameIffMutual(a, m, b, c)
  {
    hide Reach;
    if b in m0 && c in m0 {
      assert SameIffMutual(a, m0, b, c);
    } else if b !in m0 && c !in m0 {
      MutualTrans(a, b, root, c);
    } else if b in m0 {
      NotBackInto(a, entry, m0, n, c, b);
    } else {
      NotBackInto(a, entry, m0, n, b, c);
    }
  }

  /** Once nothing is pending the gathered blocks are exactly one component. */
  lemma ComponentComplete(a: Adj, entry: Node, po: seq<Node>, i: nat, m0: SccMap, n: nat, m: SccMap, visited: set<Node>)
    requires DfsPostOrder(a, entry, po) && i < |po| && po[i] !in m0
    requires Partial(a, entry, m0, n)
    requires forall j :: i < j < |po| ==> po[j] in m0
    requires Gathering(a, entry, m0, n, po[i], m, visited, [], {})
    ensures Partial(a, entry, m, n + 1)
  {
    hide Reach, EdgeUp, SameIffMutual, DfsPostOrder, PredsVisited;
    var root := po[i];
    assert visited == m.Keys;
    forall u, v ensures EdgeUp(a, entry, m, u, v) {
      GatheredEdgeUp(a, entry, m0, n, root, m, visited, u, v);
    }
    forall b | b in m && b !in m0 ensures Mutual(a, b, root) {
      GatheredReachesBack(a, entry, po, i, m0, n, b);
    }
    forall b, c | b in m && c in m ensures SameIffMutual(a, m, b, c) {
      GatheredSameIffMutual(a, entry, m0, n, root, m, b, c);
    }
    forall s | 0 <= s < n + 1 ensures s in m.Values {
      if s < n {
        assert s in m0.Values;
        var b :| b in m0 && m0[b] == s;
        assert m[b] == s;
      } else {
        assert m[root] == n;
      }
    }
  }

  lemma NotBackInto(a: Adj, entry: Node, m: SccMap, n: nat, x: Node, y: Node)
    requires Partial(a, entry, m, n) && Reach(a, entry, x) && x !in m && y in m
    ensures !Reach(a, x, y)
  {
    forall p ensures !Path(a, x, p, y) {
      if Path(a, x, p, y) {
        StaysOutside(a, entry, m, x, p, y);
        PathEnd(a, x, p, y);
      }
    }
  }

  /** A complete assignment: exactly the reachable blocks, one id per
      strongly connected component. */
  ghost predicate IsSccMap(a: Adj, entry: Node, m: SccMap, n: nat) {
    && Partial(a, entry, m, n)
    && (forall b :: b in m <==> Reach(a, entry, b))
  }

  /** Ids grow along every edge between different components. */
  lemma CrossEdgeGrows(a: Adj, entry: Node, m: SccMap, n: nat, u: Node, v: Node)
    requires IsSccMap(a, entry, m, n) && u in m && Edge(a, u, v)
    ensures v in m && m[u] <= m[v] < n
  {
    ReachSnoc(a, entry, u, v);
    assert EdgeUp(a, entry, m, u, v);
  }

  // ----- the summary of a component

  ghost predicate Linked(a: Adj, m: SccMap, s: SccId, t: SccId) {
    exists u, v :: u in m && v in m && m[u] == s && m[v] == t && Edge(a, u, v)
  }

  ghost predicate EnteredFromOutside(a: Adj, m: SccMap, b: BlockId)
    requires b in m
  {
    exists u :: u in m && m[u] != m[b] && Edge(a, u, b)
  }

  ghost predicate LeftFrom(a: Adj, m: SccMap, b: BlockId)
    requires b in m
  {
    exists v :: v in m && m[v] != m[b] && Edge(a, b, v)
  }

  function Members(rpo: seq<BlockId>, m: SccMap, s: SccId): (r: seq<BlockId>)
    ensures forall b :: b in r <==> b in rpo && b in m && m[b] == s
    ensures NoDup(rpo) ==> NoDup(r)
  {
    if |rpo| == 0 then [] else
      var rest := Members(rpo[..|rpo| - 1], m, s);
      var b := rpo[|rpo| - 1];
      if b in m && m[b] == s then rest + [b] else rest
  }

  ghost predicate DescribesScc(a: Adj, entry: Node, m: SccMap, rpo: seq<BlockId>, s: SccId, d: SccData) {
    && d.blocksRpo == Members(rpo, m, s)
    && (forall b :: b in d.entryBlocks <==> b in m && m[b] == s && (b == entry || EnteredFromOutside(a, m, b)))
    && (forall b :: b in d.exitBlocks <==> b in m && m[b] == s && LeftFrom(a, m, b))
    && (forall t :: t in d.succSccs <==> t != s && Linked(a, m, s, t))
    && (forall t :: t in d.predSccs <==> t != s && Linked(a, m, t, s))
    && Ascending(d.entryBlocks) && Ascending(d.exitBlocks) && Ascending(d.succSccs) && Ascending(d.predSccs)
    && (d.isCycle <==> exists b :: b in m && m[b] == s && OnCycle(a, b))
  }

  // ----- one sweep over the blocks fills the tables behind the summaries

  /** Per component: successor and predecessor components, entry and exit
      blocks, and whether some block jumps to itself. */
  datatype Tables = Tables(
    succs: seq<set<SccId>>,
    preds: seq<set<SccId>>,
    entries: seq<set<BlockId>>,
    exits: seq<set<BlockId>>,
    selfLoops: seq<bool>)

  ghost predicate SuccRow(m: SccMap, e: set<(Node, Node)>, s: SccId, row: set<SccId>) {
    forall t :: t in row <==> t != s && LinkedBy(m, e, s, t)
  }

  ghost predicate PredRow(m: SccMap, e: set<(Node, Node)>, t: SccId, row: set<SccId>) {
    forall s :: s in row <==> s != t && LinkedBy(m, e, s, t)
  }

  ghost predicate EntryRow(a: Adj, entry: Node, m: SccMap, d: set<Node>, s: SccId, row: set<BlockId>) {
    forall b :: b in row <==> b in d && b in m && m[b] == s && (b == entry || EnteredFromOutside(a, m, b))
  }

  ghost predicate ExitRow(a: Adj, m: SccMap, d: set<Node>, s: SccId, row: set<BlockId>) {
    forall b :: b in row <==> b in d && b in m && m[b] == s && LeftFrom(a, m, b)
  }

  ghost predicate LoopRow(m: SccMap, e: set<(Node, Node)>, s: SccId, flag: bool) {
    flag <==> exists b :: (b, b) in e && b in m && m[b] == s
  }

  /** The edge tables after the edges `e`. */
  ghost predicate EdgeTables(m: SccMap, n: nat, e: set<(Node, Node)>, t: Tables) {
    && |t.succs| == n && |t.preds| == n && |t.selfLoops| == n
    && (forall s :: 0 <= s < n ==> SuccRow(m, e, s, t.succs[s]))
    && (forall s :: 0 <= s < n ==> PredRow(m, e, s, t.preds[s]))
    && (forall s :: 0 <= s < n ==> LoopRow(m, e, s, t.selfLoops[s]))
  }

  /** The block tables after the blocks `d`. */
  ghost predicate BlockTables(a: Adj, entry: Node, m: SccMap, n: nat, d: set<Node>, t: Tables) {
    && |t.entries| == n && |t.exits| == n
    && (forall s :: 0 <= s < n ==> EntryRow(a, entry, m, d, s, t.entries[s]))
    && (forall s :: 0 <= s < n ==> ExitRow(a, m, d, s, t.exits[s]))
  }

  ghost predicate EdgesFrom(a: Adj, d: set<Node>, e: set<(Node, Node)>) {
    forall u: Node, v: Node :: (u, v) in e <==> u in d && Edge(a, u, v)
  }

  function RecordEdge(m: SccMap, t: Tables, u: BlockId, v: BlockId): Tables
    requires u in m && v in m
    requires m[u] < |t.succs| && m[u] < |t.selfLoops| && m[v] < |t.preds|
  {
    var s, s' := m[u], m[v];
    if s' != s then
      t.(succs := t.succs[s := t.succs[s] + {s'}], preds := t.preds[s' := t.preds[s'] + {s}])
    else if u == v then
      t.(selfLoops := t.selfLoops[s := true])
    else t
  }

  lemma RecordEdgeKeeps(m: SccMap, n: nat, e: set<(Node, Node)>, t: Tables, u: Node, v: Node)
    requires EdgeTables(m, n, e, t) && u in m && v in m && m[u] < n && m[v] < n
    ensures EdgeTables(m, n, e + {(u, v)}, RecordEdge(m, t, u, v))
  {
    var e' := e + {(u, v)};
    var t' := RecordEdge(m, t, u, v);
    forall s, r ensures LinkedBy(m, e', s, r) <==> LinkedBy(m, e, s, r) || (m[u] == s && m[v] == r) {
      LinkedByMore(m, e, u, v, s, r);
    }
    hide LinkedBy;
    forall s | 0 <= s < n ensures SuccRow(m, e', s, t'.succs[s]) {
      assert SuccRow(m, e, s, t.succs[s]);
    }
    forall s | 0 <= s < n ensures PredRow(m, e', s, t'.preds[s]) {
      assert PredRow(m, e, s, t.preds[s]);
    }
    forall s | 0 <= s < n ensures LoopRow(m, e', s, t'.selfLoops[s]) {
      assert LoopRow(m, e, s, t.selfLoops[s]);
      if exists b :: (b, b) in e && b in m && m[b] == s {
        var b :| (b, b) in e && b in m && m[b] == s;
        assert (b, b) in e';
      }
      if u == v && m[u] == s {
        assert (u, u) in e';
      }
    }
  }

  function RecordBlock(m: SccMap, t: Tables, b: BlockId, isEntry: bool, isExit: bool): Tables
    requires b in m && m[b] < |t.entries| && m[b] < |t.exits|
  {
    var s := m[b];
    var t1 := if isEntry then t.(entries := t.entries[s := t.entries[s] + {b}]) else t;
    if isExit then t1.(exits := t1.exits[s := t1.exits[s] + {b}]) else t1
  }

  lemma RecordBlockKeeps(a: Adj, entry: Node, m: SccMap, n: nat, d: set<Node>, t: Tables, b: Node, isEntry: bool, isExit: bool)
    requires BlockTables(a, entry, m, n, d, t) && b in m && m[b] < n
    requires isEntry <==> b == entry || EnteredFromOutside(a, m, b)
    requires isExit <==> LeftFrom(a, m, b)
    ensures BlockTables(a, entry, m, n, d + {b}, RecordBlock(m, t, b, isEntry, isExit))
  {
    hide EnteredFromOutside, LeftFrom;
    var t' := RecordBlock(m, t, b, isEntry, isExit);
    forall s | 0 <= s < n ensures EntryRow(a, entry, m, d + {b}, s, t'.entries[s]) {
      assert EntryRow(a, entry, m, d, s, t.entries[s]);
    }
    forall s | 0 <= s < n ensures ExitRow(a, m, d + {b}, s, t'.exits[s]) {
      assert ExitRow(a, m, d, s, t.exits[s]);
    }
  }

  lemma CycleFromTables(a: Adj, entry: Node, m: SccMap, n: nat, rpo: seq<Node>, s: SccId, selfLoop: bool)
    requires IsSccMap(a, entry, m, n) && NoDup(rpo) && s < n
    requires forall b :: b in rpo <==> b in m
    requires selfLoop <==> exists b :: b in m && m[b] == s && Edge(a, b, b)
    ensures |Members(rpo, m, s)| > 1 || selfLoop <==> exists b :: b in m && m[b] == s && OnCycle(a, b)
  {
    hide Reach, EdgeUp;
    var mem := Members(rpo, m, s);
    if selfLoop {
      var b :| b in m && m[b] == s && Edge(a, b, b);
      ReachRefl(a, b);
      assert OnCycle(a, b);
    }
    if |mem| > 1 {
      var b, c := mem[0], mem[1];
      assert b in mem && c in mem && b != c;
      assert SameIffMutual(a, m, b, c);
      DistinctMutualOnCycle(a, b, c);
    }
    if exists b :: b in m && m[b] == s && OnCycle(a, b) {
      var b :| b in m && m[b] == s && OnCycle(a, b);
      var v :| Edge(a, b, v) && Reach(a, v, b);
      ReachEdge(a, b, v);
      CrossEdgeGrows(a, entry, m, n, b, v);
      assert SameIffMutual(a, m, b, v);
      assert b in mem && v in mem;
      assert v != b ==> |mem| > 1;
    }
  }

  /** The edges of the blocks `d` and those from `block` to `upto`. */
  ghost predicate EdgesSwept(a: Adj, d: set<Node>, block: Node, upto: seq<Node>, e: set<(Node, Node)>) {
    forall u: Node, v: Node :: (u, v) in e <==> (u in d && Edge(a, u, v)) || (u == block && v in upto)
  }

  lemma SweepStart(a: Adj, d: set<Node>, block: Node, succs: seq<Node>, e: set<(Node, Node)>)
    requires EdgesFrom(a, d, e)
    ensures EdgesSwept(a, d, block, succs[..0], e)
  {
  }

  lemma SweepEdge(a: Adj, d: set<Node>, block: Node, upto: seq<Node>, v: Node, e: set<(Node, Node)>)
    requires EdgesSwept(a, d, block, upto, e)
    ensures EdgesSwept(a, d, block, upto + [v], e + {(block, v)})
  {
  }

  lemma SweepEnd(a: Adj, m: SccMap, d: set<Node>, block: Node, e: set<(Node, Node)>)
    requires EdgesSwept(a, d, block, Out(a, block), e) && block in m
    ensures EdgesFrom(a, d + {block}, e)
    ensures LeftFrom(a, m, block) <==> exists v :: v in Out(a, block) && v in m && m[v] != m[block]
  {
  }

  lemma EntryTest(cfg: Cfg, m: SccMap, block: Node)
    requires ValidCfg(cfg) && block in m
    ensures EnteredFromOutside(cfg.succs, m, block) <==>
            exists pred :: pred in Out(cfg.preds, block) && pred in m && m[pred] != m[block]
  {
    assert forall u :: u in Out(cfg.preds, block) <==> Edge(cfg.preds, block, u);
  }

  lemma TableSizes(a: Adj, entry: Node, m: SccMap, n: nat, d: set<Node>, e: set<(Node, Node)>, t: Tables, b: Node)
    requires IsSccMap(a, entry, m, n) && b in m
    requires EdgeTables(m, n, e, t) && BlockTables(a, entry, m, n, d, t)
    ensures |t.succs| == |t.preds| == |t.selfLoops| == |t.entries| == |t.exits| == n && m[b] < n
  {
  }

  lemma BlockTablesSame(a: Adj, entry: Node, m: SccMap, n: nat, d: set<Node>, t: Tables, t': Tables)
    requires BlockTables(a, entry, m, n, d, t) && t'.entries == t.entries && t'.exits == t.exits
    ensures BlockTables(a, entry, m, n, d, t')
  {
  }

  lemma EdgeTablesSame(m: SccMap, n: nat, e: set<(Node, Node)>, t: Tables, t': Tables)
    requires EdgeTables(m, n, e, t) && t'.succs == t.succs && t'.preds == t.preds && t'.selfLoops == t.selfLoops
    ensures EdgeTables(m, n, e, t')
  {
  }

  lemma TargetAssigned(a: Adj, entry: Node, m: SccMap, n: nat, u: Node, v: Node)
    requires IsSccMap(a, entry, m, n) && u in m && Edge(a, u, v)
    ensures v in m && m[v] < n
  {
    CrossEdgeGrows(a, entry, m, n, u, v);
  }

  // ----- the analysis

  class CfgSccAnalysis {
    var blockToScc: SccMap
    var sccs: seq<SccData>
    var topoOrder: seq<SccId>
    var topoIndex: map<SccId, nat>
    var cfgRpo: seq<BlockId>

    constructor ()
      ensures blockToScc == map[] && sccs == [] && topoOrder == [] && topoIndex == map[] && cfgRpo == []
    {
      blockToScc, sccs, topoOrder, topoIndex, cfgRpo := map[], [], [], map[], [];
    }

    method Clear()
      modifies this
      ensures blockToScc == map[] && sccs == [] && topoOrder == [] && topoIndex == map[] && cfgRpo == []
    {
      blockToScc, sccs, topoOrder, topoIndex, cfgRpo := map[], [], [], map[], [];
    }

    /** Pushes the unvisited reachable predecessors of `node`, which was just
        assigned to the component being gathered. */
    method PushPreds(cfg: Cfg, node: BlockId, reachable: set<BlockId>, visited0: set<BlockId>, stack0: seq<BlockId>,
                     ghost m0: SccMap, ghost n: nat, ghost root: BlockId)
      returns (visited: set<BlockId>, stack: seq<BlockId>)
      requires ValidCfg(cfg) && cfg.entry.Some?
      requires forall b :: b in reachable <==> Reach(cfg.succs, cfg.entry.value, b)
      requires Gathering(cfg.succs, cfg.entry.value, m0, n, root, blockToScc, visited0, stack0, {node})
      requires node in blockToScc && node !in m0
      ensures Gathering(cfg.succs, cfg.entry.value, m0, n, root, blockToScc, visited, stack, {})
    {
      hide Reach, PredsVisited, Gathering;
      visited, stack := visited0, stack0;
      var preds := Out(cfg.preds, node);
      var k := 0;
      while k < |preds|
        invariant 0 <= k <= |preds|
        invariant Gathering(cfg.succs, cfg.entry.value, m0, n, root, blockToScc, visited, stack, {node})
        invariant forall u :: u in preds[..k] && u in reachable ==> u in visited
      {
        var pred := preds[k];
        assert Edge(cfg.preds, node, pred);
        assert preds[..k + 1] == preds[..k] + [pred];
        if pred in reachable && pred !in visited {
          PushKeeps(cfg.succs, cfg.entry.value, m0, n, root, blockToScc, visited, stack, node, pred);
          visited := visited + {pred};
          stack := stack + [pred];
        }
        k := k + 1;
      }
      assert preds[..k] == preds;
      AllPredsVisited(cfg, m0, n, root, blockToScc, visited, stack, node);
    }

    /** Assigns component `scc` to the unassigned blocks that reach `root`. */
    method Gather(cfg: Cfg, root: BlockId, scc: SccId, reachable: set<BlockId>, visited0: set<BlockId>)
      returns (visited: set<BlockId>)
      requires ValidCfg(cfg) && cfg.entry.Some?
      requires forall b :: b in reachable <==> Reach(cfg.succs, cfg.entry.value, b)
      requires visited0 == blockToScc.Keys && root in reachable && root !in visited0
      modifies this`blockToScc
      ensures Gathering(cfg.succs, cfg.entry.value, old(blockToScc), scc, root, blockToScc, visited, [], {})
    {
      visited := visited0 + {root};
      var stack := [root];
      ReachRefl(cfg.succs, root);
      while |stack| > 0
        invariant Gathering(cfg.succs, cfg.entry.value, old(blockToScc), scc, root, blockToScc, visited, stack, {})
        decreases reachable + visited0 - blockToScc.Keys
      {
        hide Reach, PredsVisited;
        var node := stack[|stack| - 1];
        PopKeeps(cfg.succs, cfg.entry.value, old(blockToScc), scc, root, blockToScc, visited, stack);
        stack := stack[..|stack| - 1];
        ghost var before := blockToScc;
        blockToScc := blockToScc[node := scc];
        visited, stack := PushPreds(cfg, node, reachable, visited, stack, old(blockToScc), scc, root);
        assert node in reachable && node !in before;
      }
    }

    method AssignComponents(cfg: Cfg, reachable: set<BlockId>, ghost po: seq<BlockId>) returns (n: nat)
      requires ValidCfg(cfg) && cfg.entry.Some?
      requires DfsPostOrder(cfg.succs, cfg.entry.value, po) && cfgRpo == Reversed(po)
      requires forall b :: b in reachable <==> Reach(cfg.succs, cfg.entry.value, b)
      requires blockToScc == map[]
      modifies this`blockToScc
      ensures IsSccMap(cfg.succs, cfg.entry.value, blockToScc, n)
    {
      hide Reach, EdgeUp, SameIffMutual, DfsPostOrder, PredsVisited, Partial;
      n := 0;
      var visited: set<BlockId> := {};
      AllReachable(cfg.succs, cfg.entry.value, po);
      NothingAssigned(cfg.succs, cfg.entry.value);
      var k := 0;
      while k < |cfgRpo|
        invariant 0 <= k <= |cfgRpo|
        invariant Partial(cfg.succs, cfg.entry.value, blockToScc, n)
        invariant visited == blockToScc.Keys
        invariant forall j :: 0 <= j < k ==> cfgRpo[j] in visited
      {
        var root := cfgRpo[k];
        if root !in visited {
          ghost var before := blockToScc;
          ghost var i := |po| - 1 - k;
          assert root in po && po[i] == root;
          forall j | i < j < |po| ensures po[j] in before {
            assert cfgRpo[|po| - 1 - j] == po[j];
          }
          visited := Gather(cfg, root, n, reachable, visited);
          ComponentComplete(cfg.succs, cfg.entry.value, po, i, before, n, blockToScc, visited);
          assert visited == blockToScc.Keys;
          n := n + 1;
        }
        k := k + 1;
      }
      AssignedReachable(cfg.succs, cfg.entry.value, blockToScc, n, cfgRpo);
    }
  
    /** Adds `block` and its outgoing edges to the tables. */
    method SweepBlock(cfg: Cfg, n: nat, t0: Tables, block: BlockId, ghost d: set<Node>, ghost e0: set<(Node, Node)>)
      returns (t: Tables, ghost e: set<(Node, Node)>)
      requires ValidCfg(cfg) && cfg.entry.Some?
      requires IsSccMap(cfg.succs, cfg.entry.value, blockToScc, n) && block in blockToScc && block !in d
      requires EdgeTables(blockToScc, n, e0, t0) && EdgesFrom(cfg.succs, d, e0)
      requires BlockTables(cfg.succs, cfg.entry.value, blockToScc, n, d, t0)
      ensures EdgeTables(blockToScc, n, e, t) && EdgesFrom(cfg.succs, d + {block}, e)
      ensures BlockTables(cfg.succs, cfg.entry.value, blockToScc, n, d + {block}, t)
    {
      hide IsSccMap, EdgeTables, BlockTables, EdgesFrom, EdgesSwept, EnteredFromOutside, LeftFrom;
      var m := blockToScc;
      var preds, succs := Out(cfg.preds, block), Out(cfg.succs, block);
      TableSizes(cfg.succs, cfg.entry.value, m, n, d, e0, t0, block);
      var isEntry := Some(block) == cfg.entry || exists pred | pred in preds :: pred in m && m[pred] != m[block];
      EntryTest(cfg, m, block);
      var isExit := false;
      t, e := t0, e0;
      SweepStart(cfg.succs, d, block, succs, e);
      var k := 0;
      while k < |succs|
        invariant 0 <= k <= |succs|
        invariant EdgeTables(m, n, e, t) && EdgesSwept(cfg.succs, d, block, succs[..k], e)
        invariant t.entries == t0.entries && t.exits == t0.exits
        invariant |t.succs| == |t.preds| == |t.selfLoops| == n
        invariant isExit <==> exists v :: v in succs[..k] && v in m && m[v] != m[block]
      {
        var succ := succs[k];
        assert succ in succs;
        TargetAssigned(cfg.succs, cfg.entry.value, m, n, block, succ);
        assert succs[..k + 1] == succs[..k] + [succ];
        RecordEdgeKeeps(m, n, e, t, block, succ);
        SweepEdge(cfg.succs, d, block, succs[..k], succ, e);
        t := RecordEdge(m, t, block, succ);
        e := e + {(block, succ)};
        isExit := isExit || m[succ] != m[block];
        k := k + 1;
      }
      assert succs[..k] == succs;
      SweepEnd(cfg.succs, m, d, block, e);
      BlockTablesSame(cfg.succs, cfg.entry.value, m, n, d, t0, t);
      RecordBlockKeeps(cfg.succs, cfg.entry.value, m, n, d, t, block, isEntry, isExit);
      EdgeTablesSame(m, n, e, t, RecordBlock(m, t, block, isEntry, isExit));
      t := RecordBlock(m, t, block, isEntry, isExit);
    }

    /** Fills in the summary of each of the `n` components. */
    method Summarize(cfg: Cfg, n: nat)
      requires ValidCfg(cfg) && cfg.entry.Some?
      requires IsSccMap(cfg.succs, cfg.entry.value, blockToScc, n)
      requires NoDup(cfgRpo) && forall b :: b in cfgRpo <==> b in blockToScc
      modifies this`sccs
      ensures Described(cfg.succs, cfg.entry.value, blockToScc, n, cfgRpo, sccs)
    {
      hide IsSccMap, EdgeTables, BlockTables, EdgesFrom, DescribesScc;
      var m := blockToScc;
      var t := Tables(seq(n, _ => {}), seq(n, _ => {}), seq(n, _ => {}), seq(n, _ => {}), seq(n, _ => false));
      ghost var e: set<(Node, Node)> := {};
      EmptyTables(cfg.succs, cfg.entry.value, m, n, t);
      var k := |cfgRpo|;
      assert cfgRpo[k..] == [];
      while k > 0
        invariant 0 <= k <= |cfgRpo|
        invariant EdgeTables(m, n, e, t) && EdgesFrom(cfg.succs, Elems(cfgRpo[k..]), e)
        invariant BlockTables(cfg.succs, cfg.entry.value, m, n, Elems(cfgRpo[k..]), t)
      {
        k := k - 1;
        assert cfgRpo[k..] == [cfgRpo[k]] + cfgRpo[k + 1..];
        assert cfgRpo[k] !in cfgRpo[k + 1..];
        assert Elems(cfgRpo[k..]) == Elems(cfgRpo[k + 1..]) + {cfgRpo[k]};
        t, e := SweepBlock(cfg, n, t, cfgRpo[k], Elems(cfgRpo[k + 1..]), e);
      }
      assert cfgRpo[0..] == cfgRpo;
      assert Elems(cfgRpo) == m.Keys;
      sccs := [];
      var s := 0;
      while s < n
        invariant 0 <= s <= n && |sccs| == s
        invariant forall r :: 0 <= r < s ==> DescribesScc(cfg.succs, cfg.entry.value, m, cfgRpo, r, sccs[r])
      {
        var data := DataOf(cfg.succs, cfg.entry.value, m, n, cfgRpo, t, s, e);
        sccs := sccs + [data];
        s := s + 1;
      }
    }

    /** Kahn's algorithm on the components, least first block first. */
    method ComputeTopoOrder(cfg: Cfg)
      requires cfg.entry.Some?
      requires IsSccMap(cfg.succs, cfg.entry.value, blockToScc, |sccs|)
      requires NoDup(cfgRpo) && forall b :: b in cfgRpo <==> b in blockToScc
      requires Described(cfg.succs, cfg.entry.value, blockToScc, |sccs|, cfgRpo, sccs)
      modifies this`topoOrder, this`topoIndex
      ensures Ordered(sccs, topoOrder, topoIndex)
    {
      hide IsSccMap, Described, Below, CondSuccs, CondIndegree, CondKey, Identity, Kahn.IsDag, Kahn.CountsPreds, Kahn.IsGreedy;
      var nodes, succs, indegree := Below(|sccs|), CondSuccs(sccs), CondIndegree(sccs);
      CondensationIsDag(cfg.succs, cfg.entry.value, blockToScc, cfgRpo, sccs);
      var key := CondKey(sccs);
      var topo := Kahn.TopoSort(nodes, succs, key, indegree, Identity(|sccs|));
      topoOrder, topoIndex := topo, map[];
      var k := 0;
      while k < |topo|
        invariant 0 <= k <= |topo| && topoOrder == topo
        invariant forall i :: 0 <= i < k ==> topo[i] in topoIndex && topoIndex[topo[i]] == i
      {
        topoIndex := topoIndex[topo[k] := k];
        k := k + 1;
      }
      OrderedFromGreedy(sccs, key, topo, topoIndex);
    }

    /** What the analysis holds after `Compute`. */
    ghost predicate Describes(cfg: Cfg)
      reads this
    {
      if cfg.entry.None? then blockToScc == map[] && sccs == [] && topoOrder == []
      else
        && IsSccMap(cfg.succs, cfg.entry.value, blockToScc, |sccs|)
        && DfsPostOrder(cfg.succs, cfg.entry.value, Reversed(cfgRpo))
        && Described(cfg.succs, cfg.entry.value, blockToScc, |sccs|, cfgRpo, sccs)
        && Ordered(sccs, topoOrder, topoIndex)
    }

    method Compute(cfg: Cfg)
      requires ValidCfg(cfg)
      modifies this
      ensures Describes(cfg)
    {
      hide IsSccMap, Described, Ordered, DfsPostOrder, RecursiveOrder;
      Clear();
      if cfg.entry.None? { return; }
      var po := PostOrder(cfg);
      OrderListsReachable(cfg.succs, cfg.entry.value, po);
      cfgRpo := Reversed(po);
      assert Reversed(cfgRpo) == po;
      var reachable := Elems(cfgRpo);
      var n := AssignComponents(cfg, reachable, po);
      MapCoversReachable(cfg.succs, cfg.entry.value, blockToScc, n);
      ReversedNoDup(po);
      Summarize(cfg, n);
      assert |sccs| == n by { SummaryCount(cfg.succs, cfg.entry.value, blockToScc, n, cfgRpo, sccs); }
      ComputeTopoOrder(cfg);
    }

    function SccOf(block: BlockId): Option<SccId>
      reads this
    {
      if block in blockToScc then Some(blockToScc[block]) else None
    }
  }

  /** Every component has its summary. */
  ghost predicate Described(a: Adj, entry: Node, m: SccMap, n: nat, rpo: seq<BlockId>, sccs: seq<SccData>) {
    |sccs| == n && forall s :: 0 <= s < n ==> DescribesScc(a, entry, m, rpo, s, sccs[s])
  }

  /** All predecessors of component `s` are listed. */
  predicate Ready(sccs: seq<SccData>, listed: seq<SccId>, s: SccId)
    requires s < |sccs|
  {
    forall p :: p in sccs[s].predSccs ==> p in listed
  }

  /** The first block of `s`, or `s` itself if the blocks are the same, comes first. */
  predicate FirstBlockLe(sccs: seq<SccData>, s: SccId, t: SccId)
    requires s < |sccs| && t < |sccs|
  {
    && |sccs[s].blocksRpo| > 0 && |sccs[t].blocksRpo| > 0
    && (sccs[s].blocksRpo[0] < sccs[t].blocksRpo[0] || (sccs[s].blocksRpo[0] == sccs[t].blocksRpo[0] && s <= t))
  }

  /** The i-th component is the ready one with the least first block. */
  ghost predicate LeastReady(sccs: seq<SccData>, topo: seq<SccId>, i: nat)
    requires i < |topo|
  {
    && topo[i] < |sccs| && Ready(sccs, topo[..i], topo[i])
    && (forall t: nat {:trigger Ready(sccs, topo[..i], t)} :: t < |sccs| && t !in topo[..i] && Ready(sccs, topo[..i], t) ==> FirstBlockLe(sccs, topo[i], t))
  }

  /** `topo` lists every component once, always the ready one with the least first
      block; `index` inverts it; a component that precedes another in the
      condensation is listed before it. */
  ghost predicate Ordered(sccs: seq<SccData>, topo: seq<SccId>, index: map<SccId, nat>) {
    && NoDup(topo)
    && (forall s :: s in topo <==> 0 <= s < |sccs|)
    && (forall i {:trigger LeastReady(sccs, topo, i)} :: 0 <= i < |topo| ==> LeastReady(sccs, topo, i))
    && (forall i :: 0 <= i < |topo| ==> topo[i] in index && index[topo[i]] == i)
    && (forall s, t :: 0 <= s < |sccs| && t in sccs[s].succSccs ==> IndexedBefore(index, s, t))
  }

  ghost predicate IndexedBefore(index: map<SccId, nat>, s: SccId, t: SccId) {
    s in index && t in index && index[s] < index[t]
  }

  lemma SummaryCount(a: Adj, entry: Node, m: SccMap, n: nat, rpo: seq<BlockId>, sccs: seq<SccData>)
    requires Described(a, entry, m, n, rpo, sccs)
    ensures |sccs| == n
  {
  }

  lemma OrderListsReachable(a: Adj, entry: Node, po: seq<Node>)
    requires DfsPostOrder(a, entry, po)
    ensures NoDup(po) && forall b :: b in po <==> Reach(a, entry, b)
  {
  }

  lemma MapCoversReachable(a: Adj, entry: Node, m: SccMap, n: nat)
    requires IsSccMap(a, entry, m, n)
    ensures forall b :: b in m <==> Reach(a, entry, b)
  {
  }

  lemma ReversedNoDup(s: seq<Node>)
    requires NoDup(s)
    ensures NoDup(Reversed(s))
  {
  }

  lemma EmptyTables(a: Adj, entry: Node, m: SccMap, n: nat, t: Tables)
    requires t == Tables(seq(n, _ => {}), seq(n, _ => {}), seq(n, _ => {}), seq(n, _ => {}), seq(n, _ => false))
    ensures EdgeTables(m, n, {}, t) && EdgesFrom(a, Elems([]), {}) && BlockTables(a, entry, m, n, Elems([]), t)
  {
  }

  method DataOf(a: Adj, ghost entry: Node, m: SccMap, ghost n: nat, rpo: seq<BlockId>, t: Tables, s: SccId, ghost e: set<(Node, Node)>)
    returns (d: SccData)
    requires IsSccMap(a, entry, m, n) && s < n
    requires NoDup(rpo) && forall b :: b in rpo <==> b in m
    requires EdgeTables(m, n, e, t) && EdgesFrom(a, m.Keys, e) && BlockTables(a, entry, m, n, m.Keys, t)
    ensures DescribesScc(a, entry, m, rpo, s, d)
  {
    hide Reach, EdgeUp, IsSccMap, EnteredFromOutside, LeftFrom, LinkedBy, Linked, OnCycle, EdgesFrom, Members, Listing;
    var blocks := Members(rpo, m, s);
    d := SccData(blocks, Listing(t.entries[s]), Listing(t.exits[s]), Listing(t.succs[s]), Listing(t.preds[s]),
                 |blocks| > 1 || t.selfLoops[s]);
    assert EntryRow(a, entry, m, m.Keys, s, t.entries[s]) && ExitRow(a, m, m.Keys, s, t.exits[s]);
    assert SuccRow(m, e, s, t.succs[s]) && PredRow(m, e, s, t.preds[s]) && LoopRow(m, e, s, t.selfLoops[s]);
    forall x, y ensures LinkedBy(m, e, x, y) <==> Linked(a, m, x, y) {
      AllLinks(a, m, e, x, y);
    }
    assert t.selfLoops[s] <==> exists b :: b in m && m[b] == s && Edge(a, b, b) by {
      SelfLoops(a, m, e, s);
    }
    CycleFromTables(a, entry, m, n, rpo, s, t.selfLoops[s]);
  }

  lemma SelfLoops(a: Adj, m: SccMap, e: set<(Node, Node)>, s: SccId)
    requires EdgesFrom(a, m.Keys, e)
    ensures (exists b :: (b, b) in e && b in m && m[b] == s) <==> exists b :: b in m && m[b] == s && Edge(a, b, b)
  {
    if exists b :: b in m && m[b] == s && Edge(a, b, b) {
      var b :| b in m && m[b] == s && Edge(a, b, b);
      assert (b, b) in e;
    }
  }

  lemma AllLinks(a: Adj, m: SccMap, e: set<(Node, Node)>, s: SccId, t: SccId)
    requires EdgesFrom(a, m.Keys, e)
    ensures LinkedBy(m, e, s, t) <==> Linked(a, m, s, t)
  {
    if Linked(a, m, s, t) {
      var u, v :| u in m && v in m && m[u] == s && m[v] == t && Edge(a, u, v);
      assert (u, v) in e;
    }
  }

  lemma LinkGoesUp(a: Adj, entry: Node, m: SccMap, n: nat, s: SccId, t: SccId)
    requires IsSccMap(a, entry, m, n) && Linked(a, m, s, t)
    ensures s <= t && s < n && t < n
  {
    var u, v :| u in m && v in m && m[u] == s && m[v] == t && Edge(a, u, v);
    CrossEdgeGrows(a, entry, m, n, u, v);
  }

  // The condensation, in the form Kahn's algorithm takes.

  function CondSuccs(sccs: seq<SccData>): (r: Adj)
    ensures forall s :: 0 <= s < |sccs| ==> Out(r, s) == sccs[s].succSccs
    ensures r.Keys == Below(|sccs|)
  {
    map s | s in Below(|sccs|) :: sccs[s].succSccs
  }

  function CondIndegree(sccs: seq<SccData>): (r: map<SccId, nat>)
    ensures r.Keys == Below(|sccs|)
    ensures forall s :: 0 <= s < |sccs| ==> r[s] == |sccs[s].predSccs|
  {
    map s | s in Below(|sccs|) :: |sccs[s].predSccs|
  }

  /** The tie-break: the first block of a component in reverse post-order. */
  function CondKey(sccs: seq<SccData>): (r: map<SccId, nat>)
    requires forall s :: 0 <= s < |sccs| ==> |sccs[s].blocksRpo| > 0
    ensures r.Keys == Below(|sccs|)
    ensures forall s :: 0 <= s < |sccs| ==> r[s] == sccs[s].blocksRpo[0]
  {
    map s | s in Below(|sccs|) :: sccs[s].blocksRpo[0]
  }

  ghost function Identity(n: nat): (r: map<SccId, int>)
    ensures r.Keys == Below(n) && forall s :: 0 <= s < n ==> r[s] == s
  {
    map s | s in Below(n) :: s
  }

  lemma SccSuccessors(a: Adj, entry: Node, m: SccMap, rpo: seq<BlockId>, sccs: seq<SccData>, s: SccId)
    requires IsSccMap(a, entry, m, |sccs|) && Described(a, entry, m, |sccs|, rpo, sccs) && s < |sccs|
    requires forall b :: b in rpo <==> b in m
    ensures |sccs[s].blocksRpo| > 0 && NoDup(sccs[s].succSccs)
    ensures forall t :: t in sccs[s].succSccs ==> s < t < |sccs|
  {
    hide EdgeUp, Linked, SameIffMutual, Reach;
    assert DescribesScc(a, entry, m, rpo, s, sccs[s]);
    assert s in m.Values;
    var b :| b in m && m[b] == s;
    assert b in sccs[s].blocksRpo;
    forall t | t in sccs[s].succSccs ensures s < t < |sccs| {
      LinkGoesUp(a, entry, m, |sccs|, s, t);
    }
  }

  lemma SccPredecessors(a: Adj, entry: Node, m: SccMap, rpo: seq<BlockId>, sccs: seq<SccData>, s: SccId)
    requires IsSccMap(a, entry, m, |sccs|) && Described(a, entry, m, |sccs|, rpo, sccs) && s < |sccs|
    ensures |sccs[s].predSccs| == Kahn.Waiting(Below(|sccs|), CondSuccs(sccs), {}, s)
    ensures Kahn.Preds(Below(|sccs|), CondSuccs(sccs), s) == Elems(sccs[s].predSccs)
  {
    hide EdgeUp, Linked, SameIffMutual, Reach, Below, CondSuccs, IsSccMap;
    assert DescribesScc(a, entry, m, rpo, s, sccs[s]);
    var ps := Kahn.Preds(Below(|sccs|), CondSuccs(sccs), s);
    forall p: nat ensures p in ps <==> p in sccs[s].predSccs {
      if p < |sccs| { assert DescribesScc(a, entry, m, rpo, p, sccs[p]); }
      if p in sccs[s].predSccs { LinkGoesUp(a, entry, m, |sccs|, p, s); }
    }
    assert ps == Elems(sccs[s].predSccs) && ps - {} == ps;
    NoDupSize(sccs[s].predSccs);
  }

  lemma CondensationIsDag(a: Adj, entry: Node, m: SccMap, rpo: seq<BlockId>, sccs: seq<SccData>)
    requires IsSccMap(a, entry, m, |sccs|) && Described(a, entry, m, |sccs|, rpo, sccs)
    requires forall b :: b in rpo <==> b in m
    ensures Kahn.IsDag(Below(|sccs|), CondSuccs(sccs), Identity(|sccs|))
    ensures Kahn.CountsPreds(Below(|sccs|), CondSuccs(sccs), {}, CondIndegree(sccs))
    ensures forall s :: 0 <= s < |sccs| ==> Kahn.Preds(Below(|sccs|), CondSuccs(sccs), s) == Elems(sccs[s].predSccs)
    ensures forall s :: 0 <= s < |sccs| ==> |sccs[s].blocksRpo| > 0
    ensures forall s, t :: 0 <= s < |sccs| && t in sccs[s].succSccs ==> 0 <= t < |sccs|
  {
    hide IsSccMap, Described, Below, CondSuccs, CondIndegree, Identity, Kahn.Waiting;
    forall s | 0 <= s < |sccs|
      ensures |sccs[s].blocksRpo| > 0 && NoDup(sccs[s].succSccs)
      ensures forall t :: t in sccs[s].succSccs ==> s < t < |sccs|
      ensures Kahn.Preds(Below(|sccs|), CondSuccs(sccs), s) == Elems(sccs[s].predSccs)
    {
      SccSuccessors(a, entry, m, rpo, sccs, s);
      SccPredecessors(a, entry, m, rpo, sccs, s);
    }
    forall s | s in Below(|sccs|)
      ensures CondIndegree(sccs)[s] == Kahn.Waiting(Below(|sccs|), CondSuccs(sccs), {}, s)
    {
      SccPredecessors(a, entry, m, rpo, sccs, s);
    }
  }

  lemma OrderedFromGreedy(sccs: seq<SccData>, key: map<SccId, nat>, topo: seq<SccId>, index: map<SccId, nat>)
    requires Below(|sccs|) <= key.Keys && Kahn.IsGreedy(Below(|sccs|), CondSuccs(sccs), key, topo)
    requires NoDup(topo) && Elems(topo) == Below(|sccs|)
    requires forall s, t :: 0 <= s < |sccs| && t in sccs[s].succSccs ==> 0 <= t < |sccs|
    requires forall i :: 0 <= i < |topo| ==> topo[i] in index && index[topo[i]] == i
    requires forall s :: 0 <= s < |sccs| ==> |sccs[s].blocksRpo| > 0
    requires key == CondKey(sccs) && forall s :: 0 <= s < |sccs| ==> Kahn.Preds(Below(|sccs|), CondSuccs(sccs), s) == Elems(sccs[s].predSccs)
    ensures Ordered(sccs, topo, index)
  {
    forall i: nat | i < |topo| ensures LeastReady(sccs, topo, i) { GreedyIsLeast(sccs, key, topo, i); }
    hide Below, CondSuccs, Kahn.IsGreedy, NoDup, LeastReady, CondKey;
    forall s ensures s in topo <==> 0 <= s < |sccs| {
      assert s in topo <==> s in Elems(topo);
    }
    forall s, t | 0 <= s < |sccs| && t in sccs[s].succSccs
      ensures IndexedBefore(index, s, t)
    {
      assert t in topo;
      GreedyIndexedBefore(Below(|sccs|), CondSuccs(sccs), key, topo, index, s, t);
    }
  }

  lemma GreedyIsLeast(sccs: seq<SccData>, key: map<SccId, nat>, topo: seq<SccId>, i: nat)
    requires forall s :: 0 <= s < |sccs| ==> |sccs[s].blocksRpo| > 0
    requires key == CondKey(sccs) && Kahn.IsGreedy(Below(|sccs|), CondSuccs(sccs), key, topo) && i < |topo|
    requires forall s :: 0 <= s < |sccs| ==> Kahn.Preds(Below(|sccs|), CondSuccs(sccs), s) == Elems(sccs[s].predSccs)
    ensures LeastReady(sccs, topo, i)
  {
    hide CondSuccs, Kahn.Preds;
    assert Kahn.GreedyAt(Below(|sccs|), CondSuccs(sccs), key, topo, i);
    var done := topo[..i];
    forall t: nat | t < |sccs| ensures Ready(sccs, done, t) <==> Kahn.Preds(Below(|sccs|), CondSuccs(sccs), t) <= Elems(done) {
      assert Kahn.Preds(Below(|sccs|), CondSuccs(sccs), t) == Elems(sccs[t].predSccs);
      assert forall p :: p in Elems(done) <==> p in done;
      assert forall p :: p in Elems(sccs[t].predSccs) <==> p in sccs[t].predSccs;
    }
    forall t: nat | t < |sccs| && t !in done && Ready(sccs, done, t) ensures FirstBlockLe(sccs, topo[i], t) {
      assert t in Below(|sccs|) && Kahn.Before(key, topo[i], t);
    }
  }

  lemma GreedyIndexedBefore(nodes: set<SccId>, succs: Adj, key: map<SccId, nat>, topo: seq<SccId>, index: map<SccId, nat>, s: SccId, t: SccId)
    requires nodes <= key.Keys && Kahn.IsGreedy(nodes, succs, key, topo)
    requires s in nodes && t in topo && t in Out(succs, s)
    requires forall i :: 0 <= i < |topo| ==> topo[i] in index && index[topo[i]] == i
    ensures IndexedBefore(index, s, t)
  {
    hide Kahn.IsGreedy;
    Kahn.GreedyGoesForward(nodes, succs, key, topo, s, t);
    var i, j :| 0 <= i < j < |topo| && topo[i] == s && topo[j] == t;
  }

  lemma LinkedIndexedBefore(a: Adj, entry: Node, m: SccMap, rpo: seq<BlockId>, sccs: seq<SccData>,
                            topo: seq<SccId>, index: map<SccId, nat>, s: SccId, t: SccId)
    requires Described(a, entry, m, |sccs|, rpo, sccs) && Ordered(sccs, topo, index)
    requires s < |sccs| && s != t && Linked(a, m, s, t)
    ensures IndexedBefore(index, s, t)
  {
    hide Linked, NoDup;
    assert DescribesScc(a, entry, m, rpo, s, sccs[s]);
  }

  // ----- what a client can rely on

  /** Two blocks have the same component exactly when both are reachable and each
      reaches the other; the unreachable ones have none. */
  lemma SccExact(cfg: Cfg, an: CfgSccAnalysis, b: BlockId, c: BlockId)
    requires cfg.entry.Some? && an.Describes(cfg)
    ensures an.SccOf(b).Some? <==> Reach(cfg.succs, cfg.entry.value, b)
    ensures an.SccOf(b).Some? && an.SccOf(c).Some? ==> (an.SccOf(b) == an.SccOf(c) <==> Mutual(cfg.succs, b, c))
    ensures an.SccOf(b).Some? ==> an.SccOf(b).value < |an.sccs| && b in an.sccs[an.SccOf(b).value].blocksRpo
  {
    hide Reach, EdgeUp, Ordered, Mutual;
    var a, entry := cfg.succs, cfg.entry.value;
    if b in an.blockToScc && c in an.blockToScc {
      assert SameIffMutual(a, an.blockToScc, b, c);
    }
    if b in an.blockToScc {
      var s := an.blockToScc[b];
      assert DescribesScc(a, entry, an.blockToScc, an.cfgRpo, s, an.sccs[s]);
      assert b in Reversed(an.cfgRpo) by { OrderListsReachable(a, entry, Reversed(an.cfgRpo)); }
    }
  }

  /** Every edge between different components goes forward in `topoOrder`. */
  lemma CrossEdgesGoForward(cfg: Cfg, an: CfgSccAnalysis, u: BlockId, v: BlockId)
    requires cfg.entry.Some? && an.Describes(cfg)
    requires Reach(cfg.succs, cfg.entry.value, u) && Edge(cfg.succs, u, v)
    ensures an.SccOf(u).Some? && an.SccOf(v).Some?
    ensures an.SccOf(u) != an.SccOf(v) ==>
            IndexedBefore(an.topoIndex, an.SccOf(u).value, an.SccOf(v).value)
  {
    hide Reach, EdgeUp, SameIffMutual, DfsPostOrder, Partial, Described, Ordered;
    var a, entry, m := cfg.succs, cfg.entry.value, an.blockToScc;
    assert u in m;
    CrossEdgeGrows(a, entry, m, |an.sccs|, u, v);
    if m[u] != m[v] {
      assert Linked(a, m, m[u], m[v]);
      LinkedIndexedBefore(a, entry, m, an.cfgRpo, an.sccs, an.topoOrder, an.topoIndex, m[u], m[v]);
    }
  }
}
