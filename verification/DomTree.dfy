/**
 The dominator tree of Cooper, Harvey and Kennedy
 (crates/codegen/src/domtree.rs).
 */
module DomTrees {
  import opened Graphs
  import opened Options
  import opened Cfgs

  /** Every walk from the entry to `b` visits `d`. */
  ghost predicate Dominates(a: Adj, entry: Node, d: Node, b: Node) {
    forall p :: Path(a, entry, p, b) ==> d == entry || d in p
  }

  ghost predicate StrictDominator(a: Adj, entry: Node, d: Node, b: Node) {
    d != b && Dominates(a, entry, d, b)
  }

  /** Numbers of the reachable blocks, the entry having the largest; `par` picks
      for each other block a predecessor with a larger number. */
  ghost predicate Numbering(g: Cfg, entry: Node, num: map<Node, nat>, par: map<Node, Node>) {
    && ValidCfg(g) && entry in num
    && (forall b :: b in num <==> Reach(g.succs, entry, b))
    && (forall b :: b in num ==> num[b] <= num[entry])
    && Injective(num)
    && (forall b {:trigger ParentOk(g.succs, num, par, b)} :: b in num && b != entry ==> ParentOk(g.succs, num, par, b))
  }

  ghost predicate Injective(num: map<Node, nat>) {
    forall b, c :: b in num && c in num && num[b] == num[c] ==> b == c
  }

  ghost predicate ParentOk(a: Adj, num: map<Node, nat>, par: map<Node, Node>, b: Node)
    requires b in num
  {
    b in par && par[b] in num && num[par[b]] > num[b] && Edge(a, par[b], b)
  }

  // ----- the tree that `doms` describes

  ghost predicate LinkOk(num: map<Node, nat>, doms: map<Node, Node>, b: Node)
    requires b in doms
  {
    b in num && doms[b] in doms && doms[b] in num && num[doms[b]] > num[b]
  }

  ghost predicate TreeOk(entry: Node, num: map<Node, nat>, doms: map<Node, Node>) {
    && entry in num && entry in doms && doms[entry] == entry
    && (forall b :: b in num ==> num[b] <= num[entry])
    && (forall b {:trigger LinkOk(num, doms, b)} :: b in doms && b != entry ==> LinkOk(num, doms, b))
  }

  /** `b` and its ancestors. */
  ghost function Chain(entry: Node, num: map<Node, nat>, doms: map<Node, Node>, b: Node): set<Node>
    requires TreeOk(entry, num, doms) && b in doms
    decreases if b in num then num[entry] - num[b] else 0
  {
    if b == entry then {b} else
      assert LinkOk(num, doms, b);
      {b} + Chain(entry, num, doms, doms[b])
  }

  lemma {:induction false} ChainBounds(entry: Node, num: map<Node, nat>, doms: map<Node, Node>, b: Node)
    requires TreeOk(entry, num, doms) && b in doms
    ensures b in Chain(entry, num, doms, b) && entry in Chain(entry, num, doms, b) && b in num
    ensures forall c :: c in Chain(entry, num, doms, b) ==> c in doms && c in num && (c == b || num[c] > num[b])
    decreases if b in num then num[entry] - num[b] else 0
  {
    if b != entry {
      assert LinkOk(num, doms, b);
      ChainBounds(entry, num, doms, doms[b]);
    }
  }

  lemma {:induction false} ChainTrans(entry: Node, num: map<Node, nat>, doms: map<Node, Node>, b: Node, c: Node)
    requires TreeOk(entry, num, doms) && b in doms && c in Chain(entry, num, doms, b)
    ensures c in doms && Chain(entry, num, doms, c) <= Chain(entry, num, doms, b)
    decreases if b in num then num[entry] - num[b] else 0
  {
    if c != b && b != entry {
      assert LinkOk(num, doms, b);
      ChainTrans(entry, num, doms, doms[b], c);
    }
  }

  /** Hanging `x` below `r`. */
  ghost predicate Rehang(entry: Node, num: map<Node, nat>, doms: map<Node, Node>, x: Node, r: Node, doms': map<Node, Node>) {
    && TreeOk(entry, num, doms) && doms' == doms[x := r]
    && x != entry && x in num && r in doms && r in num && num[r] > num[x]
  }

  lemma RehangTree(entry: Node, num: map<Node, nat>, doms: map<Node, Node>, x: Node, r: Node, doms': map<Node, Node>)
    requires Rehang(entry, num, doms, x, r, doms')
    ensures TreeOk(entry, num, doms')
  {
    forall b | b in doms' && b != entry ensures LinkOk(num, doms', b) {
      if b != x { assert LinkOk(num, doms, b); }
    }
  }

  /** A chain without `x` is not affected. */
  lemma {:induction false} RehangOutside(entry: Node, num: map<Node, nat>, doms: map<Node, Node>, x: Node, r: Node, doms': map<Node, Node>, c: Node)
    requires Rehang(entry, num, doms, x, r, doms') && TreeOk(entry, num, doms')
    requires c in doms && x !in Chain(entry, num, doms, c)
    ensures Chain(entry, num, doms', c) == Chain(entry, num, doms, c)
    decreases if c in num then num[entry] - num[c] else 0
  {
    if c != entry {
      assert LinkOk(num, doms, c);
      assert c != x by { ChainBounds(entry, num, doms, c); }
      RehangOutside(entry, num, doms, x, r, doms', doms[c]);
    }
  }

  /** A chain that starts above `x` is not affected. */
  lemma RehangAbove(entry: Node, num: map<Node, nat>, doms: map<Node, Node>, x: Node, r: Node, doms': map<Node, Node>, c: Node)
    requires Rehang(entry, num, doms, x, r, doms') && TreeOk(entry, num, doms')
    requires c in doms && c in num && num[c] > num[x]
    ensures Chain(entry, num, doms', c) == Chain(entry, num, doms, c)
  {
    ChainBounds(entry, num, doms, c);
    RehangOutside(entry, num, doms, x, r, doms', c);
  }

  /** A chain through `x` keeps its part up to `x` and goes on as `r`'s does. */
  lemma {:induction false} RehangThrough(entry: Node, num: map<Node, nat>, doms: map<Node, Node>, x: Node, r: Node, doms': map<Node, Node>, c: Node)
    requires Rehang(entry, num, doms, x, r, doms') && TreeOk(entry, num, doms')
    requires c in doms && x in Chain(entry, num, doms, c)
    ensures Chain(entry, num, doms, r) <= Chain(entry, num, doms', c)
    ensures forall e :: e in Chain(entry, num, doms, c) && e in num && num[e] <= num[x] ==> e in Chain(entry, num, doms', c)
    ensures forall e :: e in Chain(entry, num, doms', c) ==>
              e in Chain(entry, num, doms, c) || e in Chain(entry, num, doms, r)
    decreases if c in num then num[entry] - num[c] else 0
  {
    RehangAbove(entry, num, doms, x, r, doms', r);
    ChainBounds(entry, num, doms, c);
    if c == x {
      if c in doms && c != entry { assert LinkOk(num, doms, c); }
      assert Chain(entry, num, doms', x) == {x} + Chain(entry, num, doms', r);
    } else {
      assert LinkOk(num, doms, c);
      RehangThrough(entry, num, doms, x, r, doms', doms[c]);
    }
  }

  /** If `r` is an ancestor of the old parent, chains only shrink. */
  lemma RehangShrinks(entry: Node, num: map<Node, nat>, doms: map<Node, Node>, x: Node, r: Node, doms': map<Node, Node>, c: Node)
    requires Rehang(entry, num, doms, x, r, doms') && TreeOk(entry, num, doms')
    requires c in doms && (x in doms ==> doms[x] in doms && r in Chain(entry, num, doms, doms[x]))
    ensures Chain(entry, num, doms', c) <= Chain(entry, num, doms, c)
  {
    if x in Chain(entry, num, doms, c) {
      ChainBounds(entry, num, doms, c);
      ChainTrans(entry, num, doms, c, x);
      ChainTrans(entry, num, doms, doms[x], r);
      RehangThrough(entry, num, doms, x, r, doms', c);
    } else {
      RehangOutside(entry, num, doms, x, r, doms', c);
    }
  }

  // ----- what every assignment keeps

  /** A walk from `e` to `b` all of whose later blocks have smaller numbers than `e`. */
  ghost predicate HighPath(a: Adj, num: map<Node, nat>, e: Node, b: Node) {
    exists p :: Path(a, e, p, b) && LowNodes(num, e, p)
  }

  ghost predicate LowNodes(num: map<Node, nat>, e: Node, p: seq<Node>) {
    e in num && forall n :: n in p ==> n in num && num[n] < num[e]
  }

  /** `c` is an ancestor of every processed predecessor of `b`. */
  ghost predicate Common(g: Cfg, entry: Node, num: map<Node, nat>, doms: map<Node, Node>, b: Node, c: Node)
    requires TreeOk(entry, num, doms)
  {
    forall p :: p in Out(g.preds, b) && p in doms ==> c in Chain(entry, num, doms, p)
  }

  /** The ancestors of `r` are the common ancestors of the processed
      predecessors of `b`. */
  ghost predicate IsMeet(g: Cfg, entry: Node, num: map<Node, nat>, doms: map<Node, Node>, b: Node, r: Node)
    requires TreeOk(entry, num, doms)
  {
    r in doms && forall c :: c in Chain(entry, num, doms, r) <==> Common(g, entry, num, doms, b, c)
  }

  /** All dominators of `b` are among its ancestors. */
  ghost predicate CompleteAt(a: Adj, entry: Node, num: map<Node, nat>, doms: map<Node, Node>, b: Node)
    requires TreeOk(entry, num, doms) && b in doms
  {
    forall d :: Dominates(a, entry, d, b) ==> d in Chain(entry, num, doms, b)
  }

  /** No common ancestor of `b`'s predecessors is below its parent. */
  ghost predicate RankAt(g: Cfg, entry: Node, num: map<Node, nat>, doms: map<Node, Node>, b: Node)
    requires TreeOk(entry, num, doms) && b in doms
  {
    doms[b] in num && forall c :: Common(g, entry, num, doms, b, c) ==> c in num && num[c] >= num[doms[b]]
  }

  ghost predicate Global(g: Cfg, entry: Node, num: map<Node, nat>, doms: map<Node, Node>) {
    && TreeOk(entry, num, doms)
    && (forall b {:trigger HighPath(g.succs, num, doms[b], b)} :: b in doms && b != entry ==> HighPath(g.succs, num, doms[b], b))
    && (forall b {:trigger CompleteAt(g.succs, entry, num, doms, b)} :: b in doms ==> CompleteAt(g.succs, entry, num, doms, b))
    && (forall b {:trigger RankAt(g, entry, num, doms, b)} :: b in doms && b != entry ==> RankAt(g, entry, num, doms, b))
  }

  lemma {:induction false} ChainHigh(a: Adj, entry: Node, num: map<Node, nat>, doms: map<Node, Node>, b: Node, c: Node)
    requires TreeOk(entry, num, doms) && b in doms && c in Chain(entry, num, doms, b) && c != b
    requires forall x {:trigger HighPath(a, num, doms[x], x)} :: x in doms && x != entry ==> HighPath(a, num, doms[x], x)
    ensures HighPath(a, num, c, b)
    decreases if b in num then num[entry] - num[b] else 0
  {
    assert LinkOk(num, doms, b);
    var d := doms[b];
    assert HighPath(a, num, d, b);
    if c != d {
      ChainBounds(entry, num, doms, d);
      ChainHigh(a, entry, num, doms, d, c);
      var p :| Path(a, c, p, d) && LowNodes(num, c, p);
      var q :| Path(a, d, q, b) && LowNodes(num, d, q);
      PathConcat(a, c, p, d, q, b);
      assert LowNodes(num, c, p + q);
    }
  }

  /** What the new parent of `x` is like. */
  lemma MeetFacts(g: Cfg, entry: Node, num: map<Node, nat>, par: map<Node, Node>, doms: map<Node, Node>, x: Node, r: Node)
    requires Numbering(g, entry, num, par) && TreeOk(entry, num, doms)
    requires x in num && x != entry && x in par && par[x] in doms
    requires IsMeet(g, entry, num, doms, x, r)
    ensures r in doms && r in Chain(entry, num, doms, par[x]) && r in num && num[r] > num[x]
    ensures Common(g, entry, num, doms, x, r)
  {
    hide Reach;
    assert ParentOk(g.succs, num, par, x);
    ChainBounds(entry, num, doms, r);
    assert Common(g, entry, num, doms, x, r);
    assert Edge(g.preds, x, par[x]);
    ChainBounds(entry, num, doms, par[x]);
  }

  lemma NewParentHigh(g: Cfg, entry: Node, num: map<Node, nat>, par: map<Node, Node>, doms: map<Node, Node>, x: Node, r: Node)
    requires Numbering(g, entry, num, par) && TreeOk(entry, num, doms)
    requires x in num && x != entry && x in par && par[x] in doms && r in Chain(entry, num, doms, par[x])
    requires forall b {:trigger HighPath(g.succs, num, doms[b], b)} :: b in doms && b != entry ==> HighPath(g.succs, num, doms[b], b)
    ensures HighPath(g.succs, num, r, x)
  {
    hide Reach, HighPath, LowNodes;
    var u := par[x];
    assert ParentOk(g.succs, num, par, x);
    ChainBounds(entry, num, doms, u);
    if r != u {
      ChainHigh(g.succs, entry, num, doms, u, r);
    }
    HighSnoc(g.succs, num, r, u, x);
  }

  lemma HighSnoc(a: Adj, num: map<Node, nat>, e: Node, u: Node, x: Node)
    requires e == u || HighPath(a, num, e, u)
    requires e in num && u in num && x in num && num[x] < num[u] <= num[e] && Edge(a, u, x)
    ensures HighPath(a, num, e, x)
  {
    var p := [];
    if e != u {
      p :| Path(a, e, p, u) && LowNodes(num, e, p);
    }
    PathSnoc(a, e, p, u, x);
    assert LowNodes(num, e, p + [x]);
  }

  lemma DominatesUp(a: Adj, entry: Node, num: map<Node, nat>, d: Node, x: Node, c: Node)
    requires Dominates(a, entry, d, c) && HighPath(a, num, x, c)
    requires d in num && num[d] > num[x]
    ensures Dominates(a, entry, d, x)
  {
    var q :| Path(a, x, q, c) && LowNodes(num, x, q);
    forall p | Path(a, entry, p, x) ensures d == entry || d in p {
      PathConcat(a, entry, p, x, q, c);
    }
  }

  lemma DominatesPred(a: Adj, entry: Node, d: Node, x: Node, u: Node)
    requires Dominates(a, entry, d, x) && d != x && Edge(a, u, x)
    ensures Dominates(a, entry, d, u)
  {
    forall p | Path(a, entry, p, u) ensures d == entry || d in p {
      PathSnoc(a, entry, p, u, x);
    }
  }

  /** A strict dominator of `x` is an ancestor of `x`'s new parent. */
  lemma DominatorAboveMeet(g: Cfg, entry: Node, num: map<Node, nat>, doms: map<Node, Node>, x: Node, r: Node, d: Node)
    requires ValidCfg(g) && Global(g, entry, num, doms) && IsMeet(g, entry, num, doms, x, r)
    requires Dominates(g.succs, entry, d, x) && d != x
    ensures d in Chain(entry, num, doms, r)
  {
    forall p | p in Out(g.preds, x) && p in doms ensures d in Chain(entry, num, doms, p) {
      assert Edge(g.preds, x, p);
      DominatesPred(g.succs, entry, d, x, p);
      assert CompleteAt(g.succs, entry, num, doms, p);
    }
    assert Common(g, entry, num, doms, x, d);
  }

  lemma CompleteStep(g: Cfg, entry: Node, num: map<Node, nat>, doms: map<Node, Node>, x: Node, r: Node, doms': map<Node, Node>, c: Node)
    requires ValidCfg(g) && Global(g, entry, num, doms) && IsMeet(g, entry, num, doms, x, r)
    requires Rehang(entry, num, doms, x, r, doms') && TreeOk(entry, num, doms')
    requires c in doms'
    ensures CompleteAt(g.succs, entry, num, doms', c)
  {
    hide Dominates, HighPath, IsMeet, RankAt;
    forall d | Dominates(g.succs, entry, d, c) ensures d in Chain(entry, num, doms', c) {
      if c !in doms {
        RehangAbove(entry, num, doms, x, r, doms', r);
        assert Chain(entry, num, doms', x) == {x} + Chain(entry, num, doms', r);
        if d != x { DominatorAboveMeet(g, entry, num, doms, x, r, d); }
      } else {
        assert CompleteAt(g.succs, entry, num, doms, c);
        ChainBounds(entry, num, doms, c);
        if x !in Chain(entry, num, doms, c) {
          RehangOutside(entry, num, doms, x, r, doms', c);
        } else {
          RehangThrough(entry, num, doms, x, r, doms', c);
          if num[d] > num[x] {
            if c != x {
              ChainHigh(g.succs, entry, num, doms, c, x);
              DominatesUp(g.succs, entry, num, d, x, c);
            }
            DominatorAboveMeet(g, entry, num, doms, x, r, d);
          }
        }
      }
    }
  }

  lemma RankStep(g: Cfg, entry: Node, num: map<Node, nat>, doms: map<Node, Node>, x: Node, r: Node, doms': map<Node, Node>, b: Node)
    requires Global(g, entry, num, doms) && IsMeet(g, entry, num, doms, x, r)
    requires Rehang(entry, num, doms, x, r, doms') && TreeOk(entry, num, doms')
    requires x in doms ==> doms[x] in doms && r in Chain(entry, num, doms, doms[x])
    requires b in doms' && b != entry
    ensures RankAt(g, entry, num, doms', b)
  {
    hide Global, Common;
    GlobalParts(g, entry, num, doms, b);
    ChainBounds(entry, num, doms, r);
    forall c | Common(g, entry, num, doms', b, c) ensures c in num && num[c] >= num[doms'[b]] {
      CommonShrinks(g, entry, num, doms, x, r, doms', b, c);
    }
  }

  lemma NumberingParts(g: Cfg, entry: Node, num: map<Node, nat>, par: map<Node, Node>)
    requires Numbering(g, entry, num, par)
    ensures ValidCfg(g) && entry in num
    ensures forall b :: b in num <==> Reach(g.succs, entry, b)
    ensures forall b {:trigger ParentOk(g.succs, num, par, b)} :: b in num && b != entry ==> ParentOk(g.succs, num, par, b)
  {
  }

  lemma GlobalParts(g: Cfg, entry: Node, num: map<Node, nat>, doms: map<Node, Node>, b: Node)
    requires Global(g, entry, num, doms)
    ensures TreeOk(entry, num, doms) && (b in doms && b != entry ==> RankAt(g, entry, num, doms, b))
  {
  }

  lemma CommonShrinks(g: Cfg, entry: Node, num: map<Node, nat>, doms: map<Node, Node>, x: Node, r: Node, doms': map<Node, Node>, b: Node, c: Node)
    requires Rehang(entry, num, doms, x, r, doms') && TreeOk(entry, num, doms')
    requires x in doms ==> doms[x] in doms && r in Chain(entry, num, doms, doms[x])
    requires Common(g, entry, num, doms', b, c)
    ensures Common(g, entry, num, doms, b, c)
  {
    forall p | p in Out(g.preds, b) && p in doms ensures c in Chain(entry, num, doms, p) {
      RehangShrinks(entry, num, doms, x, r, doms', p);
    }
  }

  /** Assigning `x` the meet of its predecessors keeps everything. */
  lemma GlobalStep(g: Cfg, entry: Node, num: map<Node, nat>, par: map<Node, Node>, doms: map<Node, Node>, x: Node, r: Node, doms': map<Node, Node>)
    requires Numbering(g, entry, num, par) && Global(g, entry, num, doms)
    requires x in num && x != entry && x in par && par[x] in doms
    requires IsMeet(g, entry, num, doms, x, r) && doms' == doms[x := r]
    requires x in doms ==> doms[x] in doms && r in Chain(entry, num, doms, doms[x])
    ensures Rehang(entry, num, doms, x, r, doms') && Global(g, entry, num, doms')
  {
    hide Reach, HighPath, CompleteAt, RankAt, Common, IsMeet, Chain, TreeOk, Numbering;
    assert ValidCfg(g) && x in num by { NumberingParts(g, entry, num, par); }
    MeetFacts(g, entry, num, par, doms, x, r);
    RehangTree(entry, num, doms, x, r, doms');
    NewParentHigh(g, entry, num, par, doms, x, r);
    forall c | c in doms' ensures CompleteAt(g.succs, entry, num, doms', c) {
      CompleteStep(g, entry, num, doms, x, r, doms', c);
    }
    forall b | b in doms' && b != entry ensures RankAt(g, entry, num, doms', b) {
      RankStep(g, entry, num, doms, x, r, doms', b);
    }
  }

  // ----- one sweep in reverse post-order

  /** Between sweeps every block hangs below an ancestor of its chosen predecessor. */
  ghost predicate HangsBelowPar(entry: Node, num: map<Node, nat>, par: map<Node, Node>, doms: map<Node, Node>, b: Node)
    requires TreeOk(entry, num, doms) && b in doms
  {
    b in num && b in par && par[b] in doms && par[b] in num && num[par[b]] > num[b] && doms[b] in Chain(entry, num, doms, par[b])
  }

  ghost predicate Settled(entry: Node, num: map<Node, nat>, par: map<Node, Node>, doms: map<Node, Node>) {
    TreeOk(entry, num, doms) && forall b {:trigger HangsBelowPar(entry, num, par, doms, b)} :: b in doms && b != entry ==> HangsBelowPar(entry, num, par, doms, b)
  }

  /** `b` was evaluated in this sweep, which began with `doms0`: it only moved
      up its old chain. */
  ghost predicate Evaluated(entry: Node, num: map<Node, nat>, par: map<Node, Node>, doms0: map<Node, Node>, doms: map<Node, Node>, b: Node)
    requires TreeOk(entry, num, doms)
  {
    && b in doms && HangsBelowPar(entry, num, par, doms, b)
    && (b in doms0 ==> doms0[b] in doms && doms[b] in Chain(entry, num, doms, doms0[b]))
  }

  ghost predicate ChainShrunk(entry: Node, num: map<Node, nat>, doms0: map<Node, Node>, doms: map<Node, Node>, c: Node)
    requires TreeOk(entry, num, doms0) && TreeOk(entry, num, doms) && c in doms0 && c in doms
  {
    Chain(entry, num, doms, c) <= Chain(entry, num, doms0, c)
  }

  /** The sweep has evaluated the blocks numbered above `lim`. */
  ghost predicate Sweeping(entry: Node, num: map<Node, nat>, par: map<Node, Node>, doms0: map<Node, Node>, doms: map<Node, Node>, lim: int) {
    && Settled(entry, num, par, doms0) && TreeOk(entry, num, doms)
    && doms0.Keys <= doms.Keys <= num.Keys
    && (forall b :: b in num && num[b] <= lim && b in doms ==> b in doms0 && doms[b] == doms0[b])
    && (forall b {:trigger Evaluated(entry, num, par, doms0, doms, b)} ::
          b in num && num[b] > lim && b != entry ==> Evaluated(entry, num, par, doms0, doms, b))
    && (forall c {:trigger ChainShrunk(entry, num, doms0, doms, c)} :: c in doms0 ==> ChainShrunk(entry, num, doms0, doms, c))
  }

  /** A current ancestor of `p` that lies above an old ancestor `d` of `p` is a
      current ancestor of `d`. */
  lemma {:induction false} AncestorsAgree(entry: Node, num: map<Node, nat>, par: map<Node, Node>, doms0: map<Node, Node>, doms: map<Node, Node>, lim: int,
                       p: Node, d: Node, e: Node)
    requires Sweeping(entry, num, par, doms0, doms, lim)
    requires p in doms0 && p in num && num[p] > lim
    requires d in Chain(entry, num, doms0, p) && d in num && d in doms
    requires e in Chain(entry, num, doms, p) && e in num && num[e] >= num[d]
    ensures e in Chain(entry, num, doms, d)
    decreases num[entry] - num[p]
  {
    hide ChainShrunk;
    if p != d {
      ChainBounds(entry, num, doms0, p);
      ChainBounds(entry, num, doms, p);
      assert p != entry && LinkOk(num, doms0, p);
      var p' := doms0[p];
      assert Evaluated(entry, num, par, doms0, doms, p);
      ChainTrans(entry, num, doms, p', doms[p]);
      AncestorsAgree(entry, num, par, doms0, doms, lim, p', d, e);
    }
  }

  /** Re-evaluating `x` yields an ancestor of its old parent. */
  lemma MovesUp(g: Cfg, entry: Node, num: map<Node, nat>, par: map<Node, Node>, doms0: map<Node, Node>, doms: map<Node, Node>, x: Node, r: Node)
    requires Numbering(g, entry, num, par) && Global(g, entry, num, doms)
    requires x in num && x != entry && x in doms && Sweeping(entry, num, par, doms0, doms, num[x])
    requires IsMeet(g, entry, num, doms, x, r)
    ensures doms[x] in doms && r in Chain(entry, num, doms, doms[x])
  {
    hide Reach, HighPath, CompleteAt, ChainShrunk, IsMeet, Common;
    assert HangsBelowPar(entry, num, par, doms0, x);
    assert LinkOk(num, doms, x);
    assert par[x] == entry || Evaluated(entry, num, par, doms0, doms, par[x]);
    MeetFacts(g, entry, num, par, doms, x, r);
    assert RankAt(g, entry, num, doms, x);
    AncestorsAgree(entry, num, par, doms0, doms, num[x], par[x], doms[x], r);
  }

  lemma EvaluatedStays(entry: Node, num: map<Node, nat>, par: map<Node, Node>, doms0: map<Node, Node>, doms: map<Node, Node>,
                       x: Node, r: Node, doms': map<Node, Node>, b: Node)
    requires Rehang(entry, num, doms, x, r, doms') && TreeOk(entry, num, doms')
    requires TreeOk(entry, num, doms0)
    requires b in num && num[b] > num[x] && b != entry && Evaluated(entry, num, par, doms0, doms, b)
    ensures Evaluated(entry, num, par, doms0, doms', b)
  {
    RehangAbove(entry, num, doms, x, r, doms', par[b]);
    if b in doms0 {
      assert LinkOk(num, doms0, b);
      RehangAbove(entry, num, doms, x, r, doms', doms0[b]);
    }
  }

  lemma JustEvaluated(g: Cfg, entry: Node, num: map<Node, nat>, par: map<Node, Node>, doms0: map<Node, Node>, doms: map<Node, Node>,
                      x: Node, r: Node, doms': map<Node, Node>)
    requires Numbering(g, entry, num, par)
    requires Rehang(entry, num, doms, x, r, doms') && TreeOk(entry, num, doms') && TreeOk(entry, num, doms0)
    requires x in par && par[x] in doms && r in Chain(entry, num, doms, par[x])
    requires x in doms0 ==> x in doms && doms[x] == doms0[x]
    requires x in doms ==> doms[x] in doms && r in Chain(entry, num, doms, doms[x])
    ensures Evaluated(entry, num, par, doms0, doms', x)
  {
    hide Reach;
    assert ParentOk(g.succs, num, par, x);
    RehangAbove(entry, num, doms, x, r, doms', par[x]);
    if x in doms {
      assert LinkOk(num, doms, x);
      RehangAbove(entry, num, doms, x, r, doms', doms[x]);
    }
  }

  lemma SweepStep(g: Cfg, entry: Node, num: map<Node, nat>, par: map<Node, Node>, doms0: map<Node, Node>, doms: map<Node, Node>,
                  x: Node, r: Node, doms': map<Node, Node>, lim: int)
    requires Numbering(g, entry, num, par) && Global(g, entry, num, doms)
    requires x in num && x != entry && num[x] == lim && Sweeping(entry, num, par, doms0, doms, lim)
    requires IsMeet(g, entry, num, doms, x, r) && doms' == doms[x := r]
    ensures Global(g, entry, num, doms') && Sweeping(entry, num, par, doms0, doms', lim - 1)
    ensures TreeOk(entry, num, doms') && r in num
    ensures x in doms ==> doms[x] in num && num[doms[x]] <= num[r] && (r != doms[x] ==> num[doms[x]] < num[r])
  {
    hide Reach, HighPath, CompleteAt, RankAt, IsMeet, Common, Chain, HangsBelowPar;
    NumberingParts(g, entry, num, par);
    assert ParentOk(g.succs, num, par, x);
    assert par[x] == entry || Evaluated(entry, num, par, doms0, doms, par[x]);
    if x in doms {
      MovesUp(g, entry, num, par, doms0, doms, x, r);
      ChainBounds(entry, num, doms, doms[x]);
    }
    MeetFacts(g, entry, num, par, doms, x, r);
    GlobalStep(g, entry, num, par, doms, x, r, doms');
    JustEvaluated(g, entry, num, par, doms0, doms, x, r, doms');
    forall b | b in num && num[b] > lim - 1 && b != entry ensures Evaluated(entry, num, par, doms0, doms', b) {
      if b != x { EvaluatedStays(entry, num, par, doms0, doms, x, r, doms', b); }
    }
    forall c | c in doms0 ensures ChainShrunk(entry, num, doms0, doms', c) {
      assert ChainShrunk(entry, num, doms0, doms, c);
      RehangShrinks(entry, num, doms, x, r, doms', c);
    }
  }

  // ----- progress

  function Weight(num: map<Node, nat>, top: int, doms: map<Node, Node>, b: Node): int {
    if b in doms && doms[b] in num then top - num[doms[b]] else top + 1
  }

  /** Falls with every assignment that changes a parent. */
  function Potential(num: map<Node, nat>, top: int, doms: map<Node, Node>, order: seq<Node>): int {
    if |order| == 0 then 0 else
      Potential(num, top, doms, order[..|order| - 1]) + Weight(num, top, doms, order[|order| - 1])
  }

  lemma {:induction false} PotentialFalls(num: map<Node, nat>, top: int, doms0: map<Node, Node>, doms: map<Node, Node>, order: seq<Node>)
    requires forall b :: b in order ==> Weight(num, top, doms, b) <= Weight(num, top, doms0, b)
    ensures Potential(num, top, doms, order) <= Potential(num, top, doms0, order)
    ensures (exists b :: b in order && Weight(num, top, doms, b) < Weight(num, top, doms0, b)) ==>
              Potential(num, top, doms, order) < Potential(num, top, doms0, order)
  {
    if |order| > 0 {
      var rest := order[..|order| - 1];
      assert order == rest + [order[|order| - 1]];
      PotentialFalls(num, top, doms0, doms, rest);
    }
  }

  lemma {:induction false} PotentialNonneg(num: map<Node, nat>, top: int, doms: map<Node, Node>, order: seq<Node>)
    requires top >= 0 && forall b :: b in num ==> num[b] <= top
    ensures Potential(num, top, doms, order) >= 0
  {
    if |order| > 0 {
      PotentialNonneg(num, top, doms, order[..|order| - 1]);
    }
  }

  // ----- the fixpoint

  /** Nothing left to change: every parent is the meet of the predecessors. */
  ghost predicate Fixpoint(g: Cfg, entry: Node, num: map<Node, nat>, doms: map<Node, Node>) {
    && Global(g, entry, num, doms)
    && (forall b :: b in doms <==> Reach(g.succs, entry, b))
    && (forall b {:trigger IsMeet(g, entry, num, doms, b, doms[b])} ::
          b in doms && b != entry ==> IsMeet(g, entry, num, doms, b, doms[b]))
  }

  /** Ancestors are dominators: along any walk the last step leads from a
      predecessor, which shares all proper ancestors of `b`. */
  lemma {:induction false} AncestorsDominate(g: Cfg, entry: Node, num: map<Node, nat>, doms: map<Node, Node>, b: Node, p: seq<Node>, c: Node)
    requires ValidCfg(g) && Fixpoint(g, entry, num, doms)
    requires Path(g.succs, entry, p, b) && b in doms && c in Chain(entry, num, doms, b)
    ensures c == entry || c in p
    decreases |p|
  {
    hide Global, Reach;
    if b != entry {
      assert |p| > 0;
      var w := PathUnsnoc(g.succs, entry, p, b);
      if c != b {
        assert Reach(g.succs, entry, w) by { ReachByPath(g.succs, entry, p[..|p| - 1], w); }
        assert TreeOk(entry, num, doms) by { GlobalParts(g, entry, num, doms, b); }
        assert IsMeet(g, entry, num, doms, b, doms[b]);
        assert Common(g, entry, num, doms, b, c);
        assert Edge(g.preds, b, w);
        AncestorsDominate(g, entry, num, doms, w, p[..|p| - 1], c);
      }
    }
  }

  lemma ReachByPath(a: Adj, u: Node, p: seq<Node>, v: Node)
    requires Path(a, u, p, v)
    ensures Reach(a, u, v)
  {
  }

  /** At the fixpoint the ancestors of a reachable block are exactly its dominators. */
  lemma ChainIsDominators(g: Cfg, entry: Node, num: map<Node, nat>, doms: map<Node, Node>, b: Node, c: Node)
    requires ValidCfg(g) && Fixpoint(g, entry, num, doms) && b in doms
    ensures TreeOk(entry, num, doms)
    ensures c in Chain(entry, num, doms, b) <==> Dominates(g.succs, entry, c, b)
  {
    if c in Chain(entry, num, doms, b) {
      forall p | Path(g.succs, entry, p, b) ensures c == entry || c in p {
        AncestorsDominate(g, entry, num, doms, b, p, c);
      }
    }
    assert CompleteAt(g.succs, entry, num, doms, b);
  }

  // ----- bookkeeping of a sweep

  ghost predicate SameCommon(entry: Node, num: map<Node, nat>, doms: map<Node, Node>, b1: Node, b2: Node, x: Node, y: Node)
    requires TreeOk(entry, num, doms) && b1 in doms && b2 in doms && x in doms && y in doms
  {
    forall c :: c in Chain(entry, num, doms, x) && c in Chain(entry, num, doms, y) <==>
                c in Chain(entry, num, doms, b1) && c in Chain(entry, num, doms, b2)
  }

  ghost predicate MeetSoFar(entry: Node, num: map<Node, nat>, doms: map<Node, Node>, first: Node, preds: seq<Node>, r: Node)
    requires TreeOk(entry, num, doms) && first in doms && r in doms
  {
    forall c :: c in Chain(entry, num, doms, r) <==>
                c in Chain(entry, num, doms, first) && forall p :: p in preds && p in doms ==> c in Chain(entry, num, doms, p)
  }

  /** `rpo` lists the numbered blocks from the entry downwards. */
  ghost predicate Numbers(rpo: seq<Node>, num: map<Node, nat>, entry: Node) {
    && |rpo| > 0 && rpo[0] == entry
    && (forall b :: b in rpo <==> b in num)
    && (forall i :: 0 <= i < |rpo| ==> NumberAt(rpo, num, i))
  }

  ghost predicate NumberAt(rpo: seq<Node>, num: map<Node, nat>, i: nat)
    requires i < |rpo|
  {
    rpo[i] in num && num[rpo[i]] == |rpo| - i
  }

  lemma NumbersBound(rpo: seq<Node>, num: map<Node, nat>, entry: Node)
    requires Numbers(rpo, num, entry)
    ensures forall b :: b in num ==> 0 < num[b] <= |rpo|
    ensures entry in num && num[entry] == |rpo|
    ensures Injective(num)
  {
    forall b | b in num ensures 0 < num[b] <= |rpo| && rpo[|rpo| - num[b]] == b {
      assert b in rpo;
      var i :| 0 <= i < |rpo| && rpo[i] == b;
      assert NumberAt(rpo, num, i);
    }
    assert NumberAt(rpo, num, 0);
  }

  ghost predicate WeightsFell(num: map<Node, nat>, top: int, doms0: map<Node, Node>, doms: map<Node, Node>) {
    forall b :: Weight(num, top, doms, b) <= Weight(num, top, doms0, b)
  }

  ghost predicate SomeFell(num: map<Node, nat>, top: int, doms0: map<Node, Node>, doms: map<Node, Node>, order: seq<Node>) {
    exists b :: b in order && Weight(num, top, doms, b) < Weight(num, top, doms0, b)
  }

  /** The blocks above `lim` already have the meet of their predecessors as parent. */
  ghost predicate AllMeets(g: Cfg, entry: Node, num: map<Node, nat>, doms: map<Node, Node>, lim: int)
    requires TreeOk(entry, num, doms)
  {
    forall b {:trigger IsMeet(g, entry, num, doms, b, doms[b])} ::
      b in num && num[b] > lim && b != entry && b in doms ==> IsMeet(g, entry, num, doms, b, doms[b])
  }

  lemma SweepBegin(g: Cfg, entry: Node, num: map<Node, nat>, par: map<Node, Node>, doms: map<Node, Node>, rpo: seq<Node>)
    requires Numbering(g, entry, num, par) && Settled(entry, num, par, doms) && doms.Keys <= num.Keys
    requires Numbers(rpo, num, entry)
    ensures Sweeping(entry, num, par, doms, doms, |rpo| - 1)
    ensures AllMeets(g, entry, num, doms, |rpo| - 1)
    ensures WeightsFell(num, num[entry], doms, doms)
  {
    hide Reach;
    NumbersBound(rpo, num, entry);
    assert forall b :: b in num && num[b] > |rpo| - 1 ==> b == entry;
    forall c | c in doms ensures ChainShrunk(entry, num, doms, doms, c) {}
  }

  /** The block about to be evaluated has a processed predecessor. */
  lemma SweepHere(g: Cfg, entry: Node, num: map<Node, nat>, par: map<Node, Node>, doms0: map<Node, Node>, doms: map<Node, Node>, rpo: seq<Node>, i: nat)
    requires Numbering(g, entry, num, par) && Sweeping(entry, num, par, doms0, doms, |rpo| - i)
    requires Numbers(rpo, num, entry) && 0 < i < |rpo|
    ensures TreeOk(entry, num, doms) && Injective(num)
    ensures rpo[i] in num && rpo[i] != entry && num[rpo[i]] == |rpo| - i
    ensures exists p :: p in Out(g.preds, rpo[i]) && p in doms
  {
    hide Reach;
    var x := rpo[i];
    assert NumberAt(rpo, num, i) && NumberAt(rpo, num, 0);
    assert ParentOk(g.succs, num, par, x);
    assert par[x] == entry || Evaluated(entry, num, par, doms0, doms, par[x]);
    assert Edge(g.preds, x, par[x]);
  }

  lemma SweepTracks(g: Cfg, entry: Node, num: map<Node, nat>, doms0: map<Node, Node>, doms: map<Node, Node>,
                    rpo: seq<Node>, i: nat, r: Node, changed: bool)
    requires TreeOk(entry, num, doms) && Numbers(rpo, num, entry) && 0 < i < |rpo|
    requires TreeOk(entry, num, doms[rpo[i] := r])
    requires IsMeet(g, entry, num, doms, rpo[i], r)
    requires r in num && (rpo[i] in doms ==> doms[rpo[i]] in num && num[doms[rpo[i]]] <= num[r] && (r != doms[rpo[i]] ==> num[doms[rpo[i]]] < num[r]))
    requires WeightsFell(num, num[entry], doms0, doms)
    requires changed ==> SomeFell(num, num[entry], doms0, doms, rpo)
    requires !changed ==> doms == doms0 && AllMeets(g, entry, num, doms, |rpo| - i)
    ensures var x := rpo[i]; var doms' := doms[x := r]; var changed' := changed || x !in doms || doms[x] != r;
            && WeightsFell(num, num[entry], doms0, doms')
            && (changed' ==> SomeFell(num, num[entry], doms0, doms', rpo))
            && (!changed' ==> doms' == doms0 && AllMeets(g, entry, num, doms', |rpo| - i - 1))
  {
    hide IsMeet;
    var x := rpo[i];
    var doms' := doms[x := r];
    var top := num[entry];
    NumbersBound(rpo, num, entry);
    assert NumberAt(rpo, num, i);
    forall b ensures Weight(num, top, doms', b) <= Weight(num, top, doms, b) {
      assert b != x ==> Weight(num, top, doms', b) == Weight(num, top, doms, b);
    }
    if changed {
      var b :| b in rpo && Weight(num, top, doms, b) < Weight(num, top, doms0, b);
      assert Weight(num, top, doms', b) < Weight(num, top, doms0, b);
    } else if x !in doms || doms[x] != r {
      assert Weight(num, top, doms', x) < Weight(num, top, doms0, x);
    } else {
      assert doms' == doms;
      forall b | b in num && num[b] > |rpo| - i - 1 && b != entry && b in doms
        ensures IsMeet(g, entry, num, doms, b, doms[b])
      {
        assert b == x || num[b] > |rpo| - i;
      }
    }
  }

  lemma SweepFalls(num: map<Node, nat>, top: int, doms0: map<Node, Node>, doms: map<Node, Node>, rpo: seq<Node>)
    requires WeightsFell(num, top, doms0, doms) && SomeFell(num, top, doms0, doms, rpo)
    ensures Potential(num, top, doms, rpo) < Potential(num, top, doms0, rpo)
  {
    PotentialFalls(num, top, doms0, doms, rpo);
  }

  lemma SweepEnd(g: Cfg, entry: Node, num: map<Node, nat>, par: map<Node, Node>, doms0: map<Node, Node>, doms: map<Node, Node>, rpo: seq<Node>, changed: bool)
    requires Numbering(g, entry, num, par) && Global(g, entry, num, doms) && Numbers(rpo, num, entry)
    requires Sweeping(entry, num, par, doms0, doms, 0)
    requires !changed ==> AllMeets(g, entry, num, doms, 0)
    ensures Settled(entry, num, par, doms) && doms.Keys == num.Keys
    ensures !changed ==> Fixpoint(g, entry, num, doms)
  {
    hide Reach, HighPath, CompleteAt, RankAt, IsMeet;
    NumbersBound(rpo, num, entry);
    forall b | b in num ensures b in doms && (b != entry ==> HangsBelowPar(entry, num, par, doms, b)) {
      if b != entry { assert Evaluated(entry, num, par, doms0, doms, b); }
    }
  }

  // ----- the data structure

  class DomTree {
    var doms: map<BlockId, BlockId>
    var rpo: seq<BlockId>
    /** The numbering `Compute` used. */
    ghost var num: map<BlockId, nat>

    constructor ()
      ensures doms == map[] && rpo == []
    {
      doms, rpo, num := map[], [], map[];
    }

    method Clear()
      modifies this
      ensures doms == map[] && rpo == []
    {
      doms, rpo := map[], [];
    }

    /** The nearest common ancestor. */
    method Intersect(b1: BlockId, b2: BlockId, rpoNums: map<BlockId, nat>, ghost entry: BlockId) returns (b: BlockId)
      requires TreeOk(entry, rpoNums, doms) && Injective(rpoNums) && b1 in doms && b2 in doms
      ensures b in doms && forall c :: c in Chain(entry, rpoNums, doms, b) <==>
                c in Chain(entry, rpoNums, doms, b1) && c in Chain(entry, rpoNums, doms, b2)
    {
      var x, y := b1, b2;
      ChainBounds(entry, rpoNums, doms, x);
      ChainBounds(entry, rpoNums, doms, y);
      while x != y
        invariant x in doms && y in doms && x in rpoNums && y in rpoNums
        invariant SameCommon(entry, rpoNums, doms, b1, b2, x, y)
        decreases 2 * rpoNums[entry] - rpoNums[x] - rpoNums[y], 1
      {
        ghost var x0, y0 := x, y;
        while rpoNums[x] < rpoNums[y]
          invariant x in doms && x in rpoNums && rpoNums[x] >= rpoNums[x0]
          invariant x != x0 ==> rpoNums[x] > rpoNums[x0]
          invariant SameCommon(entry, rpoNums, doms, b1, b2, x, y)
          decreases rpoNums[entry] - rpoNums[x]
        {
          assert LinkOk(rpoNums, doms, x);
          ChainBounds(entry, rpoNums, doms, y);
          x := doms[x];
        }
        while rpoNums[y] < rpoNums[x]
          invariant y in doms && y in rpoNums && rpoNums[y] >= rpoNums[y0]
          invariant y != y0 ==> rpoNums[y] > rpoNums[y0]
          invariant SameCommon(entry, rpoNums, doms, b1, b2, x, y)
          decreases rpoNums[entry] - rpoNums[y]
        {
          assert LinkOk(rpoNums, doms, y);
          ChainBounds(entry, rpoNums, doms, x);
          y := doms[y];
        }
      }
      b := x;
    }

    /** The meet of the processed predecessors of `block`, if there are any. */
    method MeetOfPreds(g: Cfg, block: BlockId, rpoNums: map<BlockId, nat>, ghost entry: BlockId) returns (r: Option<BlockId>)
      requires TreeOk(entry, rpoNums, doms) && Injective(rpoNums)
      ensures r.None? <==> forall p :: p in Out(g.preds, block) ==> p !in doms
      ensures r.Some? ==> IsMeet(g, entry, rpoNums, doms, block, r.value)
    {
      var preds := Out(g.preds, block);
      var k := 0;
      while k < |preds| && preds[k] !in doms
        invariant 0 <= k <= |preds| && forall j :: 0 <= j < k ==> preds[j] !in doms
      {
        k := k + 1;
      }
      if k == |preds| { return None; }
      var processedPred := preds[k];
      var newDom := processedPred;
      var j := 0;
      while j < |preds|
        invariant 0 <= j <= |preds| && newDom in doms
        invariant MeetSoFar(entry, rpoNums, doms, processedPred, preds[..j], newDom)
      {
        var pred := preds[j];
        assert preds[..j + 1] == preds[..j] + [pred];
        ghost var before := newDom;
        if pred != processedPred && pred in doms {
          newDom := Intersect(newDom, pred, rpoNums, entry);
        }
        j := j + 1;
      }
      assert preds[..j] == preds && processedPred in preds;
      r := Some(newDom);
    }

    /** One pass over the blocks after the entry in reverse post-order. */
    method Sweep(g: Cfg, rpoNums: map<BlockId, nat>, ghost entry: BlockId, ghost par: map<BlockId, BlockId>) returns (changed: bool)
      requires Numbering(g, entry, rpoNums, par) && Global(g, entry, rpoNums, doms) && Settled(entry, rpoNums, par, doms)
      requires doms.Keys <= rpoNums.Keys && Numbers(rpo, rpoNums, entry)
      modifies this`doms
      ensures Global(g, entry, rpoNums, doms) && Settled(entry, rpoNums, par, doms) && doms.Keys == rpoNums.Keys
      ensures changed ==> Potential(rpoNums, rpoNums[entry], doms, rpo) < Potential(rpoNums, rpoNums[entry], old(doms), rpo)
      ensures !changed ==> doms == old(doms) && Fixpoint(g, entry, rpoNums, doms)
    {
      hide Reach, Global, Settled, Sweeping, Numbering, IsMeet, SomeFell, WeightsFell, AllMeets, Potential, Fixpoint;
      assert TreeOk(entry, rpoNums, doms) by { GlobalParts(g, entry, rpoNums, doms, entry); }
      changed := false;
      ghost var doms0 := doms;
      var n := |rpo|;
      var i := 1;
      SweepBegin(g, entry, rpoNums, par, doms, rpo);
      while i < n
        invariant 1 <= i <= n
        invariant TreeOk(entry, rpoNums, doms)
        invariant Global(g, entry, rpoNums, doms) && Sweeping(entry, rpoNums, par, doms0, doms, n - i)
        invariant WeightsFell(rpoNums, rpoNums[entry], doms0, doms)
        invariant changed ==> SomeFell(rpoNums, rpoNums[entry], doms0, doms, rpo)
        invariant !changed ==> doms == doms0 && AllMeets(g, entry, rpoNums, doms, n - i)
      {
        var block := rpo[i];
        SweepHere(g, entry, rpoNums, par, doms0, doms, rpo, i);
        var newDom := MeetOfPreds(g, block, rpoNums, entry);
        var r := newDom.value;
        SweepStep(g, entry, rpoNums, par, doms0, doms, block, r, doms[block := r], n - i);
        SweepTracks(g, entry, rpoNums, doms0, doms, rpo, i, r, changed);
        if block !in doms || doms[block] != r {
          changed := true;
          doms := doms[block := r];
        } else {
          assert doms[block := r] == doms;
        }
        i := i + 1;
      }
      SweepEnd(g, entry, rpoNums, par, doms0, doms, rpo, changed);
      if changed { SweepFalls(rpoNums, rpoNums[entry], doms0, doms, rpo); }
    }

    /** What the tree holds after `Compute`. */
    ghost predicate Describes(g: Cfg)
      reads this
    {
      && ValidCfg(g)
      && if g.entry.None? then doms == map[] && rpo == []
         else Numbers(rpo, num, g.entry.value) && DfsPostOrder(g.succs, g.entry.value, Reversed(rpo))
              && Fixpoint(g, g.entry.value, num, doms)
    }

    method Compute(g: Cfg)
      requires ValidCfg(g)
      modifies this
      ensures Describes(g)
    {
      hide Reach, Global, Settled, Numbering, DfsPostOrder, Fixpoint, Numbers, Potential, NumberAt, NoDup, RecursiveOrder;
      Clear();
      var po := PostOrder(g);
      rpo := Reversed(po);
      var order := rpo;
      assert Reversed(rpo) == po;
      ReversedNoDup(g, po);
      var rpoNums := Number(order);
      if g.entry.None? { return; }
      var entry := g.entry.value;
      ghost var par := NumberingOfOrder(g, entry, po, order, rpoNums);
      doms := map[entry := entry];
      EntryAlone(g, entry, rpoNums, par, doms);
      NumbersBound(order, rpoNums, entry);
      var changed := true;
      while changed
        invariant rpo == order
        invariant entry in rpoNums && Numbers(order, rpoNums, entry)
        invariant Global(g, entry, rpoNums, doms) && Settled(entry, rpoNums, par, doms) && doms.Keys <= rpoNums.Keys
        invariant !changed ==> Fixpoint(g, entry, rpoNums, doms)
        decreases Potential(rpoNums, rpoNums[entry], doms, order), changed
      {
        NumbersBound(order, rpoNums, entry);
        PotentialNonneg(rpoNums, rpoNums[entry], doms, order);
        changed := Sweep(g, rpoNums, entry, par);
        PotentialNonneg(rpoNums, rpoNums[entry], doms, order);
      }
      num := rpoNums;
    }

    /** `None` for the entry and for unreachable blocks. */
    function IdomOf(block: BlockId): Option<BlockId>
      requires |rpo| > 0
      reads this
    {
      if rpo[0] == block then None
      else if block in doms then Some(doms[block]) else None
    }

    /** Walks up the tree from `block2`. */
    method StrictlyDominates(g: Cfg, block1: BlockId, block2: BlockId) returns (r: bool)
      requires g.entry.Some? && Describes(g)
      ensures r <==> Reach(g.succs, g.entry.value, block2) && StrictDominator(g.succs, g.entry.value, block1, block2)
    {
      hide Reach, Global, DfsPostOrder, Dominates;
      ghost var entry := g.entry.value;
      FixpointTree(g, entry, num, doms, rpo);
      var current := block2;
      if block2 in doms { ChainIsDominators(g, entry, num, doms, block2, block1); }
      while true
        invariant block2 in doms ==> current in doms && current in num
        invariant block2 !in doms ==> current == block2
        invariant block2 in doms ==>
                    (StrictDominator(g.succs, entry, block1, block2) <==>
                     block1 in Chain(entry, num, doms, current) && block1 != current)
        decreases if current in num then num[entry] - num[current] else 0
      {
        var idom := IdomOf(current);
        if idom.None? { return false; }
        assert LinkOk(num, doms, current);
        ChainBounds(entry, num, doms, idom.value);
        if idom.value == block1 { return true; }
        current := idom.value;
      }
    }

    method DominatesBlock(g: Cfg, block1: BlockId, block2: BlockId) returns (r: bool)
      requires g.entry.Some? && Describes(g)
      ensures r <==> block1 == block2 ||
                     (Reach(g.succs, g.entry.value, block2) && Dominates(g.succs, g.entry.value, block1, block2))
    {
      if block1 == block2 {
        return true;
      }
      r := this.StrictlyDominates(g, block1, block2);
    }
  }

  /** `rpo_nums`: the first block gets the largest number. */
  method Number(rpo: seq<BlockId>) returns (nums: map<BlockId, nat>)
    requires NoDup(rpo)
    ensures forall i :: 0 <= i < |rpo| ==> NumberAt(rpo, nums, i)
    ensures forall b :: b in nums <==> b in rpo
  {
    nums := map[];
    var i := 0;
    while i < |rpo|
      invariant 0 <= i <= |rpo|
      invariant forall j :: 0 <= j < i ==> NumberAt(rpo, nums, j)
      invariant forall b :: b in nums <==> b in rpo[..i]
    {
      assert rpo[..i + 1] == rpo[..i] + [rpo[i]];
      ghost var before := nums;
      nums := nums[rpo[i] := |rpo| - i];
      forall j | 0 <= j < i ensures NumberAt(rpo, nums, j) {
        assert NumberAt(rpo, before, j) && rpo[j] != rpo[i];
      }
      assert NumberAt(rpo, nums, i);
      i := i + 1;
    }
    assert rpo[..i] == rpo;
  }

  ghost predicate HasPar(a: Adj, num: map<Node, nat>, b: Node) {
    exists u :: u in num && b in num && num[u] > num[b] && Edge(a, u, b)
  }

  ghost function ParOf(a: Adj, num: map<Node, nat>, b: Node): (u: Node)
    requires HasPar(a, num, b)
    ensures u in num && b in num && num[u] > num[b] && Edge(a, u, b)
  {
    var u :| u in num && b in num && num[u] > num[b] && Edge(a, u, b);
    u
  }

  lemma NumberingOfOrder(g: Cfg, entry: Node, po: seq<Node>, rpo: seq<Node>, num: map<Node, nat>) returns (par: map<Node, Node>)
    requires ValidCfg(g) && DfsPostOrder(g.succs, entry, po) && rpo == Reversed(po)
    requires forall i :: 0 <= i < |rpo| ==> NumberAt(rpo, num, i)
    requires forall b :: b in num <==> b in rpo
    ensures Numbering(g, entry, num, par) && Numbers(rpo, num, entry)
  {
    hide Reach, DfsPostOrder, NumberAt, NoDup;
    OrderFacts(g.succs, entry, po);
    EntryYieldedLast(g.succs, entry, po);
    assert rpo[0] == entry;
    NumbersBound(rpo, num, entry);
    forall b | b in num && b != entry ensures HasPar(g.succs, num, b) {
      var u := EarlierPredecessor(g.succs, entry, po, b);
      NumberIsPosition(po, rpo, num, b);
      NumberIsPosition(po, rpo, num, u);
    }
    par := map b | b in num && b != entry :: ParOf(g.succs, num, b);
    forall b | b in num && b != entry ensures ParentOk(g.succs, num, par, b) {}
  }

  lemma OrderFacts(a: Adj, entry: Node, po: seq<Node>)
    requires DfsPostOrder(a, entry, po)
    ensures NoDup(po) && forall b :: b in po <==> Reach(a, entry, b)
  {
  }

  lemma ReversedNoDup(g: Cfg, po: seq<Node>)
    requires if g.entry.Some? then DfsPostOrder(g.succs, g.entry.value, po) else po == []
    ensures NoDup(Reversed(po))
  {
  }

  lemma NumberIsPosition(po: seq<Node>, rpo: seq<Node>, num: map<Node, nat>, b: Node)
    requires NoDup(po) && rpo == Reversed(po) && b in po
    requires forall i :: 0 <= i < |rpo| ==> NumberAt(rpo, num, i)
    ensures b in num && num[b] == Position(po, b) + 1
  {
    var k := Position(po, b);
    assert rpo[|po| - 1 - k] == b;
    assert NumberAt(rpo, num, |po| - 1 - k);
  }

  lemma EntryAlone(g: Cfg, entry: Node, num: map<Node, nat>, par: map<Node, Node>, doms: map<Node, Node>)
    requires Numbering(g, entry, num, par) && doms == map[entry := entry]
    ensures Global(g, entry, num, doms) && Settled(entry, num, par, doms) && doms.Keys <= num.Keys
  {
    hide Reach;
    forall d | Dominates(g.succs, entry, d, entry) ensures d in Chain(entry, num, doms, entry) {
      assert Path(g.succs, entry, [], entry);
    }
    assert CompleteAt(g.succs, entry, num, doms, entry);
  }

  lemma FixpointTree(g: Cfg, entry: Node, num: map<Node, nat>, doms: map<Node, Node>, rpo: seq<Node>)
    requires Fixpoint(g, entry, num, doms) && Numbers(rpo, num, entry)
    ensures TreeOk(entry, num, doms) && |rpo| > 0 && rpo[0] == entry
    ensures forall b :: b in doms <==> Reach(g.succs, entry, b)
    ensures forall b :: b in doms ==> b in num
  {
    hide Reach, HighPath, CompleteAt, RankAt;
    forall b | b in doms ensures b in num { ChainBounds(entry, num, doms, b); }
  }

  // ----- what a client can rely on

  /** The immediate dominator is the one strict dominator that all the others
      dominate; only the entry, among the reachable blocks, has none. */
  lemma IdomExact(g: Cfg, t: DomTree, b: BlockId)
    requires g.entry.Some? && t.Describes(g)
    ensures |t.rpo| > 0
    ensures t.IdomOf(b).Some? <==> Reach(g.succs, g.entry.value, b) && b != g.entry.value
    ensures t.IdomOf(b).Some? ==> forall d :: IsImmediate(g.succs, g.entry.value, d, b) <==> d == t.IdomOf(b).value
  {
    hide Reach, Global, DfsPostOrder, Dominates;
    var entry, num, doms := g.entry.value, t.num, t.doms;
    FixpointTree(g, entry, num, doms, t.rpo);
    if b in doms && b != entry {
      assert LinkOk(num, doms, b);
      var i := doms[b];
      ChainBounds(entry, num, doms, i);
      ChainBounds(entry, num, doms, b);
      forall c ensures StrictDominator(g.succs, entry, c, b) <==> Dominates(g.succs, entry, c, i) {
        ChainIsDominators(g, entry, num, doms, b, c);
        ChainIsDominators(g, entry, num, doms, i, c);
      }
      ChainIsDominators(g, entry, num, doms, i, i);
      assert IsImmediate(g.succs, entry, i, b);
      forall d | IsImmediate(g.succs, entry, d, b) ensures d == i {
        // each of `d` and `i` dominates the other
        assert Dominates(g.succs, entry, i, d) && Dominates(g.succs, entry, d, i);
        ChainIsDominators(g, entry, num, doms, i, d);
        ChainIsDominators(g, entry, num, doms, d, i);
        ChainBounds(entry, num, doms, d);
      }
    }
  }

  ghost predicate IsImmediate(a: Adj, entry: Node, d: Node, b: Node) {
    && StrictDominator(a, entry, d, b)
    && (forall c :: StrictDominator(a, entry, c, b) ==> Dominates(a, entry, c, d))
  }
}
