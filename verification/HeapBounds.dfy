/**
 How much static memory can still be in use when a malloc runs
 (crates/codegen/src/isa/evm/heap_plan.rs:111-201): a bound for each block,
 raised until nothing changes, then a backward scan of every block.
 */
module HeapBounds {
  import opened Graphs
  import opened Options
  import opened Cfgs

  type InstId = nat

  /** An instruction with the words its callee clobbers and the end of what is
      live across it. */
  datatype Site = Site(id: InstId, callBound: nat, liveBound: nat, isMalloc: bool)

  type Code = map<BlockId, seq<Site>>

  function Sites(code: Code, b: BlockId): seq<Site> { if b in code then code[b] else [] }

  function Max(x: nat, y: nat): nat { if x > y then x else y }

  function BoundOf(s: Site): nat { Max(s.callBound, s.liveBound) }

  function MaxBound(ss: seq<Site>): nat {
    if ss == [] then 0 else Max(MaxBound(ss[..|ss| - 1]), BoundOf(ss[|ss| - 1]))
  }

  function Local(code: Code, b: BlockId): nat { MaxBound(Sites(code, b)) }

  function At(m: map<BlockId, nat>, b: BlockId): nat { if b in m then m[b] else 0 }

  function MaxAt(m: map<BlockId, nat>, bs: seq<BlockId>): nat {
    if bs == [] then 0 else Max(MaxAt(m, bs[..|bs| - 1]), At(m, bs[|bs| - 1]))
  }

  lemma {:induction false} MaxAtBounds(m: map<BlockId, nat>, bs: seq<BlockId>)
    ensures forall b :: b in bs ==> At(m, b) <= MaxAt(m, bs)
    ensures MaxAt(m, bs) == 0 || exists b :: b in bs && At(m, b) == MaxAt(m, bs)
  {
    if bs != [] {
      var last := bs[|bs| - 1];
      assert bs == bs[..|bs| - 1] + [last];
      MaxAtBounds(m, bs[..|bs| - 1]);
      assert last in bs;
    }
  }

  lemma {:induction false} MaxBoundBounds(ss: seq<Site>)
    ensures forall s :: s in ss ==> BoundOf(s) <= MaxBound(ss)
    ensures MaxBound(ss) == 0 || exists s :: s in ss && BoundOf(s) == MaxBound(ss)
  {
    if ss != [] {
      var last := ss[|ss| - 1];
      assert ss == ss[..|ss| - 1] + [last];
      MaxBoundBounds(ss[..|ss| - 1]);
      assert last in ss;
    }
  }

  // ----- the bound that is meant

  /** `m` is the largest local bound of the blocks reachable from `b`. */
  ghost predicate LargestFrom(a: Adj, code: Code, b: BlockId, m: nat) {
    && (forall c {:trigger Reach(a, b, c)} :: Reach(a, b, c) ==> Local(code, c) <= m)
    && (exists c :: Reach(a, b, c) && Local(code, c) == m)
  }

  /** `s` is at or after position `k` of `b`, or in a block executed later. */
  ghost predicate ExecutableFrom(a: Adj, code: Code, b: BlockId, k: nat, s: Site) {
    || (exists j {:trigger Sites(code, b)[j]} :: k <= j < |Sites(code, b)| && Sites(code, b)[j] == s)
    || (exists t, c {:trigger Reach(a, t, c)} :: Edge(a, b, t) && Reach(a, t, c) && s in Sites(code, c))
  }

  /** `m` is the largest of the call and live bounds from position `k` of `b` on. */
  ghost predicate LargestAfter(a: Adj, code: Code, b: BlockId, k: nat, m: nat) {
    && (forall s {:trigger ExecutableFrom(a, code, b, k, s)} :: ExecutableFrom(a, code, b, k, s) ==> s.callBound <= m && s.liveBound <= m)
    && (m == 0 || exists s :: ExecutableFrom(a, code, b, k, s) && (s.callBound == m || s.liveBound == m))
  }

  // ----- the block bounds while they rise

  /** A bound recorded for `b` is the local bound of some block `b` reaches. */
  ghost predicate Witnessed(a: Adj, code: Code, m: map<BlockId, nat>, b: BlockId) {
    At(m, b) > 0 ==> exists c :: Reach(a, b, c) && Local(code, c) == At(m, b)
  }

  ghost predicate AllWitnessed(a: Adj, code: Code, m: map<BlockId, nat>) {
    forall b {:trigger Witnessed(a, code, m, b)} :: Witnessed(a, code, m, b)
  }

  lemma NoneWitnessed(a: Adj, code: Code)
    ensures AllWitnessed(a, code, map[])
  {
  }

  function Raised(a: Adj, code: Code, m: map<BlockId, nat>, b: BlockId): nat {
    Max(MaxAt(m, Out(a, b)), Local(code, b))
  }

  lemma RaiseWitnessed(a: Adj, code: Code, m: map<BlockId, nat>, b: BlockId)
    requires AllWitnessed(a, code, m)
    ensures AllWitnessed(a, code, m[b := Raised(a, code, m, b)])
  {
    hide Reach, Local;
    var n := m[b := Raised(a, code, m, b)];
    MaxAtBounds(m, Out(a, b));
    forall x ensures Witnessed(a, code, n, x) {
      assert Witnessed(a, code, m, x);
      if x == b && At(n, b) > 0 {
        if At(n, b) == Local(code, b) {
          ReachRefl(a, b);
        } else {
          var t :| t in Out(a, b) && At(m, t) == MaxAt(m, Out(a, b));
          assert Witnessed(a, code, m, t);
          var c :| Reach(a, t, c) && Local(code, c) == At(m, t);
          ReachCons(a, b, t, c);
        }
      }
    }
  }

  ghost predicate Stable(a: Adj, code: Code, m: map<BlockId, nat>, b: BlockId) {
    Raised(a, code, m, b) <= At(m, b)
  }

  lemma {:induction false} StableCovers(a: Adj, code: Code, m: map<BlockId, nat>, b: BlockId, p: seq<BlockId>, c: BlockId)
    requires Path(a, b, p, c) && forall x {:trigger Stable(a, code, m, x)} :: Reach(a, b, x) ==> Stable(a, code, m, x)
    ensures Local(code, c) <= At(m, b)
    decreases |p|
  {
    ReachRefl(a, b);
    assert Stable(a, code, m, b);
    if p != [] {
      forall x | Reach(a, p[0], x) ensures Stable(a, code, m, x) { ReachCons(a, b, p[0], x); }
      StableCovers(a, code, m, p[0], p[1..], c);
      MaxAtBounds(m, Out(a, b));
    }
  }

  /** Where nothing can be raised any more, the bounds are the ones meant. */
  lemma StableExact(a: Adj, code: Code, m: map<BlockId, nat>, b: BlockId)
    requires AllWitnessed(a, code, m)
    requires forall x {:trigger Stable(a, code, m, x)} :: Reach(a, b, x) ==> Stable(a, code, m, x)
    ensures LargestFrom(a, code, b, At(m, b))
  {
    forall c | Reach(a, b, c) ensures Local(code, c) <= At(m, b) {
      var p :| Path(a, b, p, c);
      StableCovers(a, code, m, b, p, c);
    }
    hide Reach;
    ReachRefl(a, b);
    assert Witnessed(a, code, m, b);
  }

  /** How far the bounds of `bs` are below `limit`: what the sweeps use up. */
  function Slack(m: map<BlockId, nat>, bs: seq<BlockId>, limit: nat): nat {
    if bs == [] then 0
    else Slack(m, bs[..|bs| - 1], limit) + if At(m, bs[|bs| - 1]) < limit then limit - At(m, bs[|bs| - 1]) else 0
  }

  lemma {:induction false} SlackFalls(m: map<BlockId, nat>, bs: seq<BlockId>, limit: nat, b: BlockId, v: nat)
    requires At(m, b) < v <= limit
    ensures Slack(m[b := v], bs, limit) <= Slack(m, bs, limit)
    ensures b in bs ==> Slack(m[b := v], bs, limit) < Slack(m, bs, limit)
  {
    if bs != [] {
      SlackFalls(m, bs[..|bs| - 1], limit, b, v);
      assert bs == bs[..|bs| - 1] + [bs[|bs| - 1]];
    }
  }

  ghost function Limit(code: Code, bs: set<BlockId>): (m: nat)
    ensures forall b :: b in bs ==> Local(code, b) <= m
  {
    if bs == {} then 0
    else
      var b :| b in bs;
      Max(Limit(code, bs - {b}), Local(code, b))
  }

  ghost predicate Below(m: map<BlockId, nat>, limit: nat) {
    forall b {:trigger At(m, b)} :: At(m, b) <= limit
  }

  lemma StaysBelow(m: map<BlockId, nat>, limit: nat, b: BlockId, v: nat)
    requires Below(m, limit) && v <= limit
    ensures Below(m[b := v], limit)
  {
    forall x: BlockId {:trigger At(m[b := v], x)} ensures At(m[b := v], x) <= limit { assert At(m, x) <= limit; }
  }

  lemma NoSites(code: Code, b: BlockId)
    ensures b !in code ==> Local(code, b) == 0
  {
  }

  // ----- the analysis

  method MaxOver(m: map<BlockId, nat>, bs: seq<BlockId>) returns (r: nat)
    ensures r == MaxAt(m, bs)
  {
    r := 0;
    var k := 0;
    while k < |bs|
      invariant 0 <= k <= |bs| && r == MaxAt(m, bs[..k])
    {
      assert bs[..k + 1][..k] == bs[..k];
      r := Max(r, At(m, bs[k]));
      k := k + 1;
    }
    assert bs[..k] == bs;
  }

  method LocalBound(code: Code, b: BlockId) returns (r: nat)
    ensures r == Local(code, b)
  {
    var ss, k := Sites(code, b), 0;
    r := 0;
    while k < |ss|
      invariant 0 <= k <= |ss| && r == MaxBound(ss[..k])
    {
      assert ss[..k + 1][..k] == ss[..k];
      r := Max(r, ss[k].callBound);
      r := Max(r, ss[k].liveBound);
      k := k + 1;
    }
    assert ss[..k] == ss;
  }

  /** One pass over the blocks in post-order. */
  method Sweep(g: Cfg, code: Code, local: map<BlockId, nat>, blocks: seq<BlockId>, m0: map<BlockId, nat>, ghost limit: nat)
    returns (m: map<BlockId, nat>, changed: bool)
    requires forall b :: b in blocks ==> At(local, b) == Local(code, b)
    requires AllWitnessed(g.succs, code, m0) && Below(m0, limit) && forall b :: b in blocks ==> Local(code, b) <= limit
    ensures AllWitnessed(g.succs, code, m) && Below(m, limit)
    ensures changed ==> Slack(m, blocks, limit) < Slack(m0, blocks, limit)
    ensures !changed ==> m == m0 && forall b :: b in blocks ==> Stable(g.succs, code, m, b)
  {
    hide AllWitnessed, Local;
    m, changed := m0, false;
    var k := 0;
    while k < |blocks|
      invariant 0 <= k <= |blocks| && AllWitnessed(g.succs, code, m) && Below(m, limit)
      invariant if changed then Slack(m, blocks, limit) < Slack(m0, blocks, limit) else m == m0
      invariant !changed ==> forall b :: b in blocks[..k] ==> Stable(g.succs, code, m, b)
    {
      var b := blocks[k];
      var out := MaxOver(m, Out(g.succs, b));
      var bound := Max(out, At(local, b));
      MaxAtBounds(m, Out(g.succs, b));
      if bound > At(m, b) {
        RaiseWitnessed(g.succs, code, m, b);
        StaysBelow(m, limit, b, bound);
        SlackFalls(m, blocks, limit, b, bound);
        m, changed := m[b := bound], true;
      }
      assert blocks[..k + 1] == blocks[..k] + [b];
      k := k + 1;
    }
    assert blocks[..k] == blocks;
  }

  /** The bound of every reachable block, raised from 0 until nothing changes. */
  method BlockBounds(g: Cfg, code: Code) returns (m: map<BlockId, nat>)
    ensures g.entry.Some? ==> forall b :: Reach(g.succs, g.entry.value, b) ==> LargestFrom(g.succs, code, b, At(m, b))
  {
    hide LargestFrom, Local, AllWitnessed;
    var local: map<BlockId, nat>, rest := map[], code.Keys;
    while rest != {}
      invariant rest <= code.Keys && local.Keys == code.Keys - rest
      invariant forall b :: b in local ==> local[b] == Local(code, b)
      decreases |rest|
    {
      var b: BlockId :| b in rest;
      rest := rest - {b};
      var r := LocalBound(code, b);
      local := local[b := r];
    }
    forall b ensures At(local, b) == Local(code, b) { NoSites(code, b); }
    var blocks := PostOrder(g);
    ghost var limit := Limit(code, Elems(blocks));
    m := map[];
    var changed := true;
    NoneWitnessed(g.succs, code);
    while changed
      invariant AllWitnessed(g.succs, code, m) && Below(m, limit)
      invariant !changed ==> forall b :: b in blocks ==> Stable(g.succs, code, m, b)
      decreases Slack(m, blocks, limit), changed
    {
      m, changed := Sweep(g, code, local, blocks, m, limit);
    }
    if g.entry.Some? {
      forall b | Reach(g.succs, g.entry.value, b) ensures LargestFrom(g.succs, code, b, At(m, b)) {
        forall x | Reach(g.succs, b, x) ensures Stable(g.succs, code, m, x) {
          ReachTrans(g.succs, g.entry.value, b, x);
          assert x in blocks;
        }
        StableExact(g.succs, code, m, b);
      }
    }
  }

  /** Instructions have different names. */
  ghost predicate NamesDistinct(code: Code) {
    forall b, k, c, j :: 0 <= k < |Sites(code, b)| && 0 <= j < |Sites(code, c)| && Sites(code, b)[k].id == Sites(code, c)[j].id ==> b == c && k == j
  }

  predicate MallocAt(code: Code, b: BlockId, k: nat) {
    k < |Sites(code, b)| && Sites(code, b)[k].isMalloc
  }

  function ScanValue(a: Adj, code: Code, m: map<BlockId, nat>, b: BlockId, k: nat): nat
    requires k <= |Sites(code, b)|
  {
    Max(MaxAt(m, Out(a, b)), MaxBound(Sites(code, b)[k..]))
  }

  predicate NamedIn(ss: seq<Site>, i: InstId) {
    exists k :: 0 <= k < |ss| && ss[k].id == i
  }

  /** The bounds of the mallocs of one block, from the last instruction up. */
  method ScanBlock(g: Cfg, code: Code, m: map<BlockId, nat>, b: BlockId, bounds0: map<InstId, nat>) returns (bounds: map<InstId, nat>)
    requires NamesDistinct(code)
    ensures forall k: nat {:trigger MallocAt(code, b, k)} :: MallocAt(code, b, k) ==>
      Sites(code, b)[k].id in bounds && bounds[Sites(code, b)[k].id] == ScanValue(g.succs, code, m, b, k)
    ensures forall i {:trigger NamedIn(Sites(code, b), i)} :: !NamedIn(Sites(code, b), i) ==>
      (i in bounds <==> i in bounds0) && (i in bounds ==> bounds[i] == bounds0[i])
  {
    var ss := Sites(code, b);
    var bound := MaxOver(m, Out(g.succs, b));
    var k := |ss|;
    bounds := bounds0;
    assert ss[k..] == [];
    while k > 0
      invariant 0 <= k <= |ss| && bound == ScanValue(g.succs, code, m, b, k)
      invariant forall j: nat {:trigger MallocAt(code, b, j)} :: k <= j && MallocAt(code, b, j) ==>
        ss[j].id in bounds && bounds[ss[j].id] == ScanValue(g.succs, code, m, b, j)
      invariant forall i {:trigger NamedIn(ss, i)} :: !NamedIn(ss, i) ==>
        (i in bounds <==> i in bounds0) && (i in bounds ==> bounds[i] == bounds0[i])
    {
      k := k - 1;
      bound := Max(bound, ss[k].callBound);
      bound := Max(bound, ss[k].liveBound);
      MaxBoundFirst(ss[k..]);
      assert ss[k..][1..] == ss[k + 1..];
      if ss[k].isMalloc {
        assert NamedIn(ss, ss[k].id);
        assert forall j :: k < j < |ss| ==> ss[j].id != ss[k].id;
        bounds := bounds[ss[k].id := bound];
      }
    }
  }

  lemma {:induction false} MaxBoundFirst(ss: seq<Site>)
    requires ss != []
    ensures MaxBound(ss) == Max(BoundOf(ss[0]), MaxBound(ss[1..]))
  {
    if |ss| > 1 {
      MaxBoundFirst(ss[..|ss| - 1]);
      assert ss[..|ss| - 1][1..] == ss[1..][..|ss| - 2];
    }
  }

  /** Nothing executed later exceeds what the scan finds. */
  lemma ScanCovers(a: Adj, code: Code, m: map<BlockId, nat>, b: BlockId, k: nat, s: Site)
    requires k < |Sites(code, b)| && ExecutableFrom(a, code, b, k, s)
    requires forall t :: t in Out(a, b) ==> LargestFrom(a, code, t, At(m, t))
    ensures BoundOf(s) <= ScanValue(a, code, m, b, k)
  {
    hide Reach;
    var (ss, out) := (Sites(code, b), Out(a, b));
    MaxAtBounds(m, out);
    MaxBoundBounds(ss[k..]);
    if j :| k <= j < |ss| && ss[j] == s {
      assert ss[k..][j - k] == s;
    } else {
      var t, c :| Edge(a, b, t) && Reach(a, t, c) && s in Sites(code, c);
      assert t in out && Local(code, c) <= At(m, t);
      MaxBoundBounds(Sites(code, c));
    }
  }

  /** Something executed later has the bound that the scan finds. */
  lemma ScanReached(a: Adj, code: Code, m: map<BlockId, nat>, b: BlockId, k: nat) returns (s: Site)
    requires k < |Sites(code, b)| && ScanValue(a, code, m, b, k) > 0
    requires forall t :: t in Out(a, b) ==> LargestFrom(a, code, t, At(m, t))
    ensures ExecutableFrom(a, code, b, k, s) && BoundOf(s) == ScanValue(a, code, m, b, k)
  {
    hide Reach;
    var (ss, out) := (Sites(code, b), Out(a, b));
    var r := ScanValue(a, code, m, b, k);
    MaxAtBounds(m, out);
    MaxBoundBounds(ss[k..]);
    if MaxBound(ss[k..]) == r {
      s :| s in ss[k..] && BoundOf(s) == r;
      var j :| 0 <= j < |ss[k..]| && ss[k..][j] == s;
      assert ss[k + j] == s;
    } else {
      var t :| t in out && At(m, t) == r;
      var c :| Reach(a, t, c) && Local(code, c) == r;
      MaxBoundBounds(Sites(code, c));
      s :| s in Sites(code, c) && BoundOf(s) == r;
    }
  }

  /** What the scan finds at a position is the largest bound of all that can still
      be executed from there on. */
  lemma ScanExact(a: Adj, code: Code, m: map<BlockId, nat>, b: BlockId, k: nat)
    requires k < |Sites(code, b)|
    requires forall t :: t in Out(a, b) ==> LargestFrom(a, code, t, At(m, t))
    ensures LargestAfter(a, code, b, k, ScanValue(a, code, m, b, k))
  {
    hide LargestFrom, ExecutableFrom, ScanValue;
    var r := ScanValue(a, code, m, b, k);
    forall s | ExecutableFrom(a, code, b, k, s) ensures s.callBound <= r && s.liveBound <= r {
      ScanCovers(a, code, m, b, k, s);
      assert s.callBound <= BoundOf(s) && s.liveBound <= BoundOf(s);
    }
    if r > 0 {
      var s := ScanReached(a, code, m, b, k);
      assert s.callBound == r || s.liveBound == r;
    }
  }

  ghost predicate BoundRight(a: Adj, code: Code, bounds: map<InstId, nat>, b: BlockId, k: nat)
    requires MallocAt(code, b, k)
  {
    Sites(code, b)[k].id in bounds && LargestAfter(a, code, b, k, bounds[Sites(code, b)[k].id])
  }

  /** `compute_future_bounds_for_func`: the bound of every malloc in a reachable
      block. */
  method MallocBounds(g: Cfg, code: Code) returns (bounds: map<InstId, nat>)
    requires NamesDistinct(code)
    ensures g.entry.Some? ==> forall b, k: nat {:trigger MallocAt(code, b, k)} ::
      Reach(g.succs, g.entry.value, b) && MallocAt(code, b, k) ==> BoundRight(g.succs, code, bounds, b, k)
  {
    hide LargestFrom, LargestAfter, Reach;
    var m := BlockBounds(g, code);
    var rest: set<BlockId> := code.Keys;
    bounds := map[];
    while rest != {}
      invariant rest <= code.Keys
      invariant g.entry.Some? ==> forall b, k: nat {:trigger MallocAt(code, b, k)} ::
        b !in rest && Reach(g.succs, g.entry.value, b) && MallocAt(code, b, k) ==> BoundRight(g.succs, code, bounds, b, k)
      decreases |rest|
    {
      var b: BlockId :| b in rest;
      rest := rest - {b};
      ghost var before := bounds;
      bounds := ScanBlock(g, code, m, b, bounds);
      forall c: BlockId, k: nat {:trigger MallocAt(code, c, k)} | c != b && MallocAt(code, c, k) ensures !NamedIn(Sites(code, b), Sites(code, c)[k].id) {}
      if g.entry.Some? && Reach(g.succs, g.entry.value, b) {
        forall t | t in Out(g.succs, b) ensures LargestFrom(g.succs, code, t, At(m, t)) { ReachSnoc(g.succs, g.entry.value, b, t); }
        forall k: nat | MallocAt(code, b, k) ensures BoundRight(g.succs, code, bounds, b, k) {
          ScanExact(g.succs, code, m, b, k);
        }
      }
    }
  }
}
