/**
 Block liveness by path exploration and instruction liveness by a backward scan
 (crates/codegen/src/liveness.rs).
 */
module Livenesses {
  import opened Graphs
  import opened Options
  import opened Cfgs

  type ValueId = nat

  datatype Inst = Phi(result: Option<ValueId>, args: seq<(ValueId, BlockId)>)
                | Plain(result: Option<ValueId>, operands: seq<ValueId>)

  datatype Func = Func(args: seq<ValueId>, imms: set<ValueId>, insts: map<BlockId, seq<Inst>>) {
    function Insts(b: BlockId): seq<Inst> { if b in insts then insts[b] else [] }
  }

  datatype ValDef = FnArg | NormalDef(block: BlockId) | PhiDef(block: BlockId)

  // ----- the liveness that is meant

  /** From `b` along `p` to `u` without meeting a normal definition of the value,
      nor, after `b`, the block whose phi defines it. */
  ghost predicate LivePath(a: Adj, def: ValDef, b: BlockId, p: seq<BlockId>, u: BlockId) {
    && Path(a, b, p, u) && def != NormalDef(b)
    && (forall x :: x in p ==> def != NormalDef(x) && def != PhiDef(x))
  }

  /** Live at the start of `b`: such a path leads to a block that uses the value. */
  ghost predicate LiveAt(a: Adj, def: ValDef, uses: set<BlockId>, b: BlockId) {
    exists p, u {:trigger LivePath(a, def, b, p, u)} :: u in uses && LivePath(a, def, b, p, u)
  }

  /** Live at the end of `b`: live at the start of a successor that is not where
      its phi is. */
  ghost predicate LiveOutOf(a: Adj, def: ValDef, uses: set<BlockId>, b: BlockId) {
    exists s :: Edge(a, b, s) && def != PhiDef(s) && LiveAt(a, def, uses, s)
  }

  lemma LiveBefore(a: Adj, def: ValDef, uses: set<BlockId>, p: BlockId, b: BlockId)
    requires Edge(a, p, b) && LiveAt(a, def, uses, b) && def != PhiDef(b) && def != NormalDef(p)
    ensures LiveAt(a, def, uses, p)
  {
    var q, u :| u in uses && LivePath(a, def, b, q, u);
    assert ([b] + q)[1..] == q;
    assert LivePath(a, def, p, [b] + q, u);
  }

  lemma LiveAtUse(a: Adj, def: ValDef, uses: set<BlockId>, u: BlockId)
    requires u in uses && def != NormalDef(u)
    ensures LiveAt(a, def, uses, u)
  {
    assert LivePath(a, def, u, [], u);
  }

  lemma LiveMore(a: Adj, def: ValDef, uses: set<BlockId>, more: set<BlockId>, b: BlockId)
    requires uses <= more && LiveAt(a, def, uses, b)
    ensures LiveAt(a, def, more, b)
  {
    var q, u :| u in uses && LivePath(a, def, b, q, u);
    assert u in more && LivePath(a, def, b, q, u);
  }

  // ----- tables of sets

  type Table = map<nat, set<nat>>

  function Row(t: Table, k: nat): set<nat> { if k in t then t[k] else {} }

  predicate In(t: Table, k: nat, x: nat) { x in Row(t, k) }

  function Added(t: Table, k: nat, x: nat): Table { t[k := Row(t, k) + {x}] }

  // ----- the marks of one value

  /** The marks of one value: the blocks it is live into, out of and in. */
  datatype Marks = Marks(ins: set<BlockId>, outs: set<BlockId>, blocks: set<BlockId>)

  ghost predicate Explained(a: Adj, def: ValDef, uses: set<BlockId>, m: Marks, b: BlockId) {
    && (b in m.ins ==> LiveAt(a, def, uses, b))
    && (b in m.outs ==> LiveOutOf(a, def, uses, b))
    && (b in m.blocks ==> b in uses || b in m.outs)
  }

  /** The marks at the predecessors of a block the value is live into. */
  ghost predicate Spread(g: Cfg, def: ValDef, m: Marks, b: BlockId) {
    b in m.ins && def != PhiDef(b) ==>
      forall p :: p in Out(g.preds, b) ==> p in m.outs && p in m.blocks && (def == NormalDef(p) || p in m.ins)
  }

  /** Every mark is right; those not in `open` have been carried on. */
  ghost predicate Marking(g: Cfg, def: ValDef, uses: set<BlockId>, m: Marks, open: set<BlockId>) {
    && (forall b {:trigger Explained(g.succs, def, uses, m, b)} :: Explained(g.succs, def, uses, m, b))
    && (forall b {:trigger Spread(g, def, m, b)} :: b !in open ==> Spread(g, def, m, b))
  }

  predicate Grown(m: Marks, n: Marks) {
    m.ins <= n.ins && m.outs <= n.outs && m.blocks <= n.blocks
  }

  predicate Seen(def: ValDef, m: Marks, b: BlockId) {
    b in m.blocks && (def == NormalDef(b) || b in m.ins)
  }

  /** Complete marks are exactly the liveness that is meant. */
  lemma {:induction false} PathMarked(g: Cfg, def: ValDef, uses: set<BlockId>, m: Marks, b: BlockId, p: seq<BlockId>, u: BlockId)
    requires ValidCfg(g) && Marking(g, def, uses, m, {}) && (forall x :: x in uses ==> Seen(def, m, x))
    requires LivePath(g.succs, def, b, p, u) && u in uses
    ensures b in m.ins
    decreases |p|
  {
    if p != [] {
      PathMarked(g, def, uses, m, p[0], p[1..], u);
      assert Spread(g, def, m, p[0]);
      assert Edge(g.preds, p[0], b);
    }
  }

  lemma MarksExact(g: Cfg, def: ValDef, uses: set<BlockId>, m: Marks, b: BlockId)
    requires ValidCfg(g) && Marking(g, def, uses, m, {}) && (forall x :: x in uses ==> Seen(def, m, x))
    ensures b in m.ins <==> LiveAt(g.succs, def, uses, b)
    ensures b in m.outs <==> LiveOutOf(g.succs, def, uses, b)
    ensures b in m.blocks <==> b in uses || LiveOutOf(g.succs, def, uses, b)
  {
    assert Explained(g.succs, def, uses, m, b);
    if LiveAt(g.succs, def, uses, b) {
      var p, u :| u in uses && LivePath(g.succs, def, b, p, u);
      PathMarked(g, def, uses, m, b, p, u);
    }
    if LiveOutOf(g.succs, def, uses, b) {
      var s :| Edge(g.succs, b, s) && def != PhiDef(s) && LiveAt(g.succs, def, uses, s);
      var p, u :| u in uses && LivePath(g.succs, def, s, p, u);
      PathMarked(g, def, uses, m, s, p, u);
      assert Spread(g, def, m, s) && Edge(g.preds, s, b);
    }
  }

  lemma MarkBlock(g: Cfg, def: ValDef, uses: set<BlockId>, m: Marks, open: set<BlockId>, b: BlockId)
    requires Marking(g, def, uses, m, open) && (b in uses || b in m.outs)
    ensures Marking(g, def, uses, m.(blocks := m.blocks + {b}), open)
  {
    var n := m.(blocks := m.blocks + {b});
    forall x ensures Explained(g.succs, def, uses, n, x) { assert Explained(g.succs, def, uses, m, x); }
    forall x | x !in open ensures Spread(g, def, n, x) { assert Spread(g, def, m, x); }
  }

  lemma MarkIn(g: Cfg, def: ValDef, uses: set<BlockId>, m: Marks, open: set<BlockId>, b: BlockId)
    requires Marking(g, def, uses, m, open) && LiveAt(g.succs, def, uses, b)
    ensures Marking(g, def, uses, m.(ins := m.ins + {b}), open + {b})
  {
    var n := m.(ins := m.ins + {b});
    forall x ensures Explained(g.succs, def, uses, n, x) { assert Explained(g.succs, def, uses, m, x); }
    forall x | x !in open + {b} ensures Spread(g, def, n, x) { assert Spread(g, def, m, x); }
  }

  lemma MarkOut(g: Cfg, def: ValDef, uses: set<BlockId>, m: Marks, open: set<BlockId>, b: BlockId)
    requires Marking(g, def, uses, m, open) && LiveOutOf(g.succs, def, uses, b)
    ensures Marking(g, def, uses, m.(outs := m.outs + {b}), open)
  {
    var n := m.(outs := m.outs + {b});
    forall x ensures Explained(g.succs, def, uses, n, x) { assert Explained(g.succs, def, uses, m, x); }
    forall x | x !in open ensures Spread(g, def, n, x) { assert Spread(g, def, m, x); }
  }

  /** A block whose predecessors have all been seen is no longer open. */
  lemma Close(g: Cfg, def: ValDef, uses: set<BlockId>, m: Marks, open: set<BlockId>, b: BlockId)
    requires Marking(g, def, uses, m, open + {b})
    requires def != PhiDef(b) ==> forall p :: p in Out(g.preds, b) ==> p in m.outs && Seen(def, m, p)
    ensures Marking(g, def, uses, m, open)
  {
    forall x | x !in open ensures Spread(g, def, m, x) {
      if x != b { assert x !in open + {b}; }
    }
  }

  lemma PredOf(g: Cfg, all: set<BlockId>, def: ValDef, uses: set<BlockId>, b: BlockId, p: BlockId)
    requires ValidCfg(g) && Closed(g.preds, all) && b in all && p in Out(g.preds, b)
    requires LiveAt(g.succs, def, uses, b) && def != PhiDef(b)
    ensures p in all && LiveOutOf(g.succs, def, uses, p)
    ensures def != NormalDef(p) ==> LiveAt(g.succs, def, uses, p)
  {
    hide LiveAt;
    assert Edge(g.preds, b, p) && Edge(g.succs, p, b);
    if def != NormalDef(p) { LiveBefore(g.succs, def, uses, p, b); }
  }

  // ----- uses and definitions

  type Use = (ValueId, BlockId)

  function Pairs(vs: seq<ValueId>, b: BlockId): seq<Use> {
    if vs == [] then [] else Pairs(vs[..|vs| - 1], b) + [(vs[|vs| - 1], b)]
  }

  function NonImm(f: Func, us: seq<Use>): seq<Use> {
    if us == [] then []
    else NonImm(f, us[..|us| - 1]) + if us[|us| - 1].0 in f.imms then [] else [us[|us| - 1]]
  }

  /** `for_each_use` without the immediates: an operand is used in its block, an
      incoming value of a phi in the block it comes from. */
  function InstUses(f: Func, b: BlockId, inst: Inst): seq<Use> {
    NonImm(f, if inst.Phi? then inst.args else Pairs(inst.operands, b))
  }

  function BlockUses(f: Func, b: BlockId, insts: seq<Inst>): seq<Use> {
    if insts == [] then [] else BlockUses(f, b, insts[..|insts| - 1]) + InstUses(f, b, insts[|insts| - 1])
  }

  function UseList(f: Func, order: seq<BlockId>): seq<Use> {
    if order == [] then []
    else UseList(f, order[..|order| - 1]) + BlockUses(f, order[|order| - 1], f.Insts(order[|order| - 1]))
  }

  function UsesIn(us: seq<Use>, v: ValueId): set<BlockId> {
    set x | x in us && x.0 == v :: x.1
  }

  /** The instruction uses `v` in block `u`: an ordinary one where it is, a phi at
      the end of the block the value comes from. */
  predicate UsesAt(inst: Inst, b: BlockId, v: ValueId, u: BlockId) {
    match inst
    case Phi(_, args) => (v, u) in args
    case Plain(_, operands) => u == b && v in operands
  }

  /** A value that is no immediate is used in block `u` by an instruction of one
      of the blocks listed. */
  ghost predicate UsedBy(f: Func, order: seq<BlockId>, v: ValueId, u: BlockId) {
    v !in f.imms && exists b, inst {:trigger UsesAt(inst, b, v, u)} :: b in order && inst in f.Insts(b) && UsesAt(inst, b, v, u)
  }

  lemma {:induction false} PairsAre(vs: seq<ValueId>, b: BlockId, x: Use)
    ensures x in Pairs(vs, b) <==> x.0 in vs && x.1 == b
  {
    if vs != [] {
      PairsAre(vs[..|vs| - 1], b, x);
      assert vs == vs[..|vs| - 1] + [vs[|vs| - 1]];
    }
  }

  lemma {:induction false} NonImmAre(f: Func, us: seq<Use>, x: Use)
    ensures x in NonImm(f, us) <==> x in us && x.0 !in f.imms
  {
    if us != [] {
      NonImmAre(f, us[..|us| - 1], x);
      assert us == us[..|us| - 1] + [us[|us| - 1]];
    }
  }

  lemma InstUsesAre(f: Func, b: BlockId, inst: Inst, v: ValueId, u: BlockId)
    ensures (v, u) in InstUses(f, b, inst) <==> v !in f.imms && UsesAt(inst, b, v, u)
  {
    if inst.Plain? { PairsAre(inst.operands, b, (v, u)); }
    NonImmAre(f, if inst.Phi? then inst.args else Pairs(inst.operands, b), (v, u));
  }

  lemma {:induction false} BlockUsesAre(f: Func, b: BlockId, insts: seq<Inst>, v: ValueId, u: BlockId)
    ensures (v, u) in BlockUses(f, b, insts) <==> v !in f.imms && exists inst :: inst in insts && UsesAt(inst, b, v, u)
  {
    if insts != [] {
      var (start, last) := (insts[..|insts| - 1], insts[|insts| - 1]);
      assert insts == start + [last];
      BlockUsesAre(f, b, start, v, u);
      InstUsesAre(f, b, last, v, u);
      hide InstUses, UsesAt;
      assert BlockUses(f, b, insts) == BlockUses(f, b, start) + InstUses(f, b, last);
    }
  }

  /** The blocks that liveness starts from are those that use the value. */
  lemma {:induction false} UsesAreReal(f: Func, order: seq<BlockId>, v: ValueId, u: BlockId)
    ensures u in UsesIn(UseList(f, order), v) <==> UsedBy(f, order, v, u)
  {
    assert u in UsesIn(UseList(f, order), v) <==> (v, u) in UseList(f, order);
    if order != [] {
      var (start, last) := (order[..|order| - 1], order[|order| - 1]);
      assert order == start + [last];
      UsesAreReal(f, start, v, u);
      assert u in UsesIn(UseList(f, start), v) <==> (v, u) in UseList(f, start);
      BlockUsesAre(f, last, f.Insts(last), v, u);
    }
  }

  ghost function BlocksOf(f: Func, g: Cfg, order: seq<BlockId>): set<BlockId> {
    Universe(g.preds) + Elems(order) + set x | x in UseList(f, order) :: x.1
  }

  function ArgDefs(args: seq<ValueId>): map<ValueId, ValDef> {
    if args == [] then map[] else ArgDefs(args[..|args| - 1])[args[|args| - 1] := FnArg]
  }

  function InstDef(b: BlockId, inst: Inst): ValDef { if inst.Phi? then PhiDef(b) else NormalDef(b) }

  function BlockDefs(b: BlockId, insts: seq<Inst>, base: map<ValueId, ValDef>): map<ValueId, ValDef> {
    if insts == [] then base
    else
      var (rest, last) := (BlockDefs(b, insts[..|insts| - 1], base), insts[|insts| - 1]);
      if last.result.Some? then rest[last.result.value := InstDef(b, last)] else rest
  }

  function DefsOf(f: Func, order: seq<BlockId>, base: map<ValueId, ValDef>): map<ValueId, ValDef> {
    if order == [] then base
    else BlockDefs(order[|order| - 1], f.Insts(order[|order| - 1]), DefsOf(f, order[..|order| - 1], base))
  }

  /** `d` is where `f` says `v` comes from. */
  ghost predicate Source(f: Func, order: seq<BlockId>, v: ValueId, d: ValDef) {
    match d
    case FnArg => v in f.args
    case NormalDef(b) => b in order && exists inst :: inst in f.Insts(b) && inst.Plain? && inst.result == Some(v)
    case PhiDef(b) => b in order && exists inst :: inst in f.Insts(b) && inst.Phi? && inst.result == Some(v)
  }

  ghost predicate Defines(f: Func, b: BlockId, v: ValueId) {
    exists inst :: inst in f.Insts(b) && inst.result == Some(v)
  }

  ghost predicate Reachable(g: Cfg, b: BlockId) {
    g.entry.Some? && Reach(g.succs, g.entry.value, b)
  }

  /** What a reachable block uses is an argument or defined in a reachable block;
      the source unwraps the definition of every value it meets. */
  ghost predicate AllDefined(f: Func, g: Cfg) {
    forall b, x {:trigger x in BlockUses(f, b, f.Insts(b))} :: Reachable(g, b) && x in BlockUses(f, b, f.Insts(b)) ==>
      x.0 in f.args || exists c {:trigger Defines(f, c, x.0)} :: Reachable(g, c) && Defines(f, c, x.0)
  }

  lemma {:induction false} ArgsDefined(f: Func, args: seq<ValueId>)
    requires forall v :: v in args ==> v in f.args
    ensures forall v :: v in ArgDefs(args) <==> v in args
    ensures forall v :: v in args ==> ArgDefs(args)[v] == FnArg
  {
    if args != [] { ArgsDefined(f, args[..|args| - 1]); }
  }

  lemma {:induction false} BlockSources(f: Func, order: seq<BlockId>, b: BlockId, insts: seq<Inst>, base: map<ValueId, ValDef>, v: ValueId)
    requires b in order && forall inst :: inst in insts ==> inst in f.Insts(b)
    requires v in base ==> Source(f, order, v, base[v])
    ensures v in BlockDefs(b, insts, base) <==> v in base || exists inst :: inst in insts && inst.result == Some(v)
    ensures v in BlockDefs(b, insts, base) ==> Source(f, order, v, BlockDefs(b, insts, base)[v])
  {
    if insts != [] {
      var last := insts[|insts| - 1];
      assert insts == insts[..|insts| - 1] + [last];
      BlockSources(f, order, b, insts[..|insts| - 1], base, v);
      assert last in f.Insts(b);
    }
  }

  /** Every recorded definition is a real one, and every definition is recorded:
      in SSA form, where a value has one source, that is its source. */
  lemma {:induction false} DefsAreSources(f: Func, order: seq<BlockId>, done: seq<BlockId>, v: ValueId)
    requires forall b :: b in done ==> b in order
    ensures var d := DefsOf(f, done, ArgDefs(f.args));
      && (v in d <==> v in f.args || exists b {:trigger Defines(f, b, v)} :: b in done && Defines(f, b, v))
      && (v in d ==> Source(f, order, v, d[v]))
  {
    ArgsDefined(f, f.args);
    if done != [] {
      var (rest, b) := (done[..|done| - 1], done[|done| - 1]);
      assert done == rest + [b];
      DefsAreSources(f, order, rest, v);
      BlockSources(f, order, b, f.Insts(b), DefsOf(f, rest, ArgDefs(f.args)), v);
      assert Defines(f, b, v) <==> exists inst :: inst in f.Insts(b) && inst.result == Some(v);
    }
  }

  lemma {:induction false} UseListed(f: Func, order: seq<BlockId>, k: nat, x: Use)
    requires k < |order| && x in BlockUses(f, order[k], f.Insts(order[k]))
    ensures x in UseList(f, order)
  {
    if k < |order| - 1 { UseListed(f, order[..|order| - 1], k, x); }
  }

  lemma UseKnown(f: Func, g: Cfg, order: seq<BlockId>, k: nat, x: Use)
    requires g.entry.Some? && DfsPostOrder(g.succs, g.entry.value, order) && AllDefined(f, g)
    requires k < |order| && x in BlockUses(f, order[k], f.Insts(order[k]))
    ensures x.0 in DefsOf(f, order, ArgDefs(f.args)) && x.1 in BlocksOf(f, g, order)
  {
    hide DfsOrder, DefsOf, Universe, BlockUses;
    UseListed(f, order, k, x);
    DefsAreSources(f, order, order, x.0);
    assert Reachable(g, order[k]);
    if x.0 !in f.args {
      var c :| Reachable(g, c) && Defines(f, c, x.0);
      assert c in order;
    }
  }

  lemma AllClosed(f: Func, g: Cfg, order: seq<BlockId>)
    ensures Closed(g.preds, BlocksOf(f, g, order))
  {
    forall u, v | Edge(g.preds, u, v) ensures v in Universe(g.preds) { EdgeInUniverse(g.preds, u, v); }
  }

  // ----- the marks of all values

  ghost predicate TrackedAt(g: Cfg, defs: map<ValueId, ValDef>, done: seq<Use>, t: Tabs, all: set<BlockId>, v: ValueId)
    requires v in defs
  {
    && Marking(g, defs[v], UsesIn(done, v), MarksOf(t, v, all), {})
    && (forall x :: x in UsesIn(done, v) ==> Seen(defs[v], MarksOf(t, v, all), x))
  }

  ghost predicate Tracked(g: Cfg, defs: map<ValueId, ValDef>, done: seq<Use>, t: Tabs, all: set<BlockId>) {
    forall v {:trigger TrackedAt(g, defs, done, t, all, v)} :: v in defs ==> TrackedAt(g, defs, done, t, all, v)
  }

  /** The tables answer for `v` and `b` as is meant. */
  ghost predicate Exact(g: Cfg, d: ValDef, uses: set<BlockId>, t: Tabs, v: ValueId, b: BlockId) {
    && (In(t.ins, b, v) <==> LiveAt(g.succs, d, uses, b))
    && (In(t.outs, b, v) <==> LiveOutOf(g.succs, d, uses, b))
    && (In(t.blocks, v, b) <==> b in uses || LiveOutOf(g.succs, d, uses, b))
  }

  lemma UsesGrow(done: seq<Use>, v: ValueId, u: BlockId)
    ensures UsesIn(done + [(v, u)], v) == UsesIn(done, v) + {u}
  {
  }

  lemma OthersUses(done: seq<Use>, v: ValueId, u: BlockId, w: ValueId)
    requires w != v
    ensures UsesIn(done + [(v, u)], w) == UsesIn(done, w)
  {
  }

  lemma SameMarks(s: Tabs, t: Tabs, v: ValueId, w: ValueId, all: set<BlockId>)
    requires OtherSame(s, t, v) && w != v
    ensures MarksOf(s, w, all) == MarksOf(t, w, all)
  {
    assert forall b :: In(t.ins, b, w) <==> In(s.ins, b, w);
    assert forall b :: In(t.outs, b, w) <==> In(s.outs, b, w);
    assert forall b :: In(t.blocks, w, b) <==> In(s.blocks, w, b);
  }

  lemma SeenGrows(def: ValDef, m: Marks, n: Marks, x: BlockId)
    requires Grown(m, n) && Seen(def, m, x)
    ensures Seen(def, n, x)
  {
  }

  lemma MoreUses(g: Cfg, def: ValDef, uses: set<BlockId>, more: set<BlockId>, m: Marks)
    requires uses <= more && Marking(g, def, uses, m, {})
    ensures Marking(g, def, more, m, {})
  {
    hide LiveAt;
    forall b ensures Explained(g.succs, def, more, m, b) {
      assert Explained(g.succs, def, uses, m, b);
      if b in m.ins { LiveMore(g.succs, def, uses, more, b); }
      if b in m.outs {
        var s :| Edge(g.succs, b, s) && def != PhiDef(s) && LiveAt(g.succs, def, uses, s);
        LiveMore(g.succs, def, uses, more, s);
      }
    }
  }

  lemma NoUses(g: Cfg, defs: map<ValueId, ValDef>, t: Tabs, all: set<BlockId>)
    requires t == Tabs(map[], map[], map[])
    ensures Tracked(g, defs, [], t, all)
  {
    hide LiveAt, LiveOutOf;
    forall v | v in defs ensures TrackedAt(g, defs, [], t, all, v) {
      var m := MarksOf(t, v, all);
      assert m == Marks({}, {}, {}) && UsesIn([], v) == {};
      forall b ensures Explained(g.succs, defs[v], {}, m, b) && Spread(g, defs[v], m, b) {}
    }
  }

  /** The three tables that marking writes. */
  datatype Tabs = Tabs(ins: Table, outs: Table, blocks: Table)

  /** What the tables say about one value. */
  ghost function MarksOf(t: Tabs, v: ValueId, all: set<BlockId>): Marks {
    Marks(set b | b in all && In(t.ins, b, v), set b | b in all && In(t.outs, b, v), set b | b in all && In(t.blocks, v, b))
  }

  /** Only what is said about `val` differs. */
  ghost predicate OtherSame(s: Tabs, t: Tabs, val: ValueId) {
    && (forall b, v {:trigger In(t.ins, b, v)} :: v != val ==> (In(t.ins, b, v) <==> In(s.ins, b, v)))
    && (forall b, v {:trigger In(t.outs, b, v)} :: v != val ==> (In(t.outs, b, v) <==> In(s.outs, b, v)))
    && (forall v, b {:trigger In(t.blocks, v, b)} :: v != val ==> (In(t.blocks, v, b) <==> In(s.blocks, v, b)))
  }

  lemma InIns(t: Tabs, v: ValueId, all: set<BlockId>, b: BlockId)
    requires b in all
    ensures In(t.ins, b, v) <==> b in MarksOf(t, v, all).ins
  {
  }

  lemma OtherTwice(s: Tabs, t: Tabs, u: Tabs, val: ValueId)
    requires OtherSame(s, t, val) && OtherSame(t, u, val)
    ensures OtherSame(s, u, val)
  {
    forall b, v | v != val ensures In(u.ins, b, v) <==> In(s.ins, b, v) { assert In(t.ins, b, v) <==> In(s.ins, b, v); }
    forall b, v | v != val ensures In(u.outs, b, v) <==> In(s.outs, b, v) { assert In(t.outs, b, v) <==> In(s.outs, b, v); }
    forall v, b | v != val ensures In(u.blocks, v, b) <==> In(s.blocks, v, b) { assert In(t.blocks, v, b) <==> In(s.blocks, v, b); }
  }

  class Liveness {
    var liveIns: Table
    var liveOuts: Table
    var defs: map<ValueId, ValDef>
    var valLiveBlocks: Table

    function View(): Tabs
      reads this`liveIns, this`liveOuts, this`valLiveBlocks
    {
      Tabs(liveIns, liveOuts, valLiveBlocks)
    }

    method MarkLiveIn(b: BlockId, v: ValueId, ghost all: set<BlockId>)
      requires b in all
      modifies this`liveIns
      ensures MarksOf(View(), v, all) == var m := MarksOf(old(View()), v, all); m.(ins := m.ins + {b})
      ensures OtherSame(old(View()), View(), v)
    {
      liveIns := Added(liveIns, b, v);
    }

    method MarkLiveOut(b: BlockId, v: ValueId, ghost all: set<BlockId>)
      requires b in all
      modifies this`liveOuts
      ensures MarksOf(View(), v, all) == var m := MarksOf(old(View()), v, all); m.(outs := m.outs + {b})
      ensures OtherSame(old(View()), View(), v)
    {
      liveOuts := Added(liveOuts, b, v);
    }

    method MarkLiveBlock(b: BlockId, v: ValueId, ghost all: set<BlockId>)
      requires b in all
      modifies this`valLiveBlocks
      ensures MarksOf(View(), v, all) == var m := MarksOf(old(View()), v, all); m.(blocks := m.blocks + {b})
      ensures OtherSame(old(View()), View(), v)
    {
      valLiveBlocks := Added(valLiveBlocks, v, b);
    }

    /** `up_and_mark`: carries the liveness of `val` up from `block`.  `all` holds
        every block there is; `open` those whose predecessors are being visited. */
    method UpAndMark(g: Cfg, block: BlockId, val: ValueId, ghost all: set<BlockId>, ghost uses: set<BlockId>, ghost open: set<BlockId>)
      requires ValidCfg(g) && val in defs && block in all && Closed(g.preds, all)
      requires Marking(g, defs[val], uses, MarksOf(View(), val, all), open)
      requires block in uses || block in MarksOf(View(), val, all).outs
      requires defs[val] != NormalDef(block) ==> LiveAt(g.succs, defs[val], uses, block)
      modifies this`liveIns, this`liveOuts, this`valLiveBlocks
      ensures Marking(g, defs[val], uses, MarksOf(View(), val, all), open)
      ensures Grown(MarksOf(old(View()), val, all), MarksOf(View(), val, all)) && Seen(defs[val], MarksOf(View(), val, all), block)
      ensures OtherSame(old(View()), View(), val)
      decreases all - MarksOf(View(), val, all).ins
    {
      hide Marking, LiveAt, LiveOutOf, OtherSame, Closed, MarksOf, In;
      var def := defs[val];
      ghost var t0 := View();
      MarkBlock(g, def, uses, MarksOf(t0, val, all), open, block);
      MarkLiveBlock(block, val, all);
      if def == NormalDef(block) { return; }
      InIns(View(), val, all, block);
      if In(liveIns, block, val) { return; }
      ghost var t1 := View();
      MarkIn(g, def, uses, MarksOf(t1, val, all), open, block);
      MarkLiveIn(block, val, all);
      OtherTwice(t0, t1, View(), val);
      if def == PhiDef(block) {
        Close(g, def, uses, MarksOf(View(), val, all), open, block);
        return;
      }
      var preds, k := Out(g.preds, block), 0;
      ghost var t2 := View();
      while k < |preds|
        invariant 0 <= k <= |preds| && OtherSame(t0, View(), val)
        invariant Marking(g, def, uses, MarksOf(View(), val, all), open + {block})
        invariant Grown(MarksOf(t2, val, all), MarksOf(View(), val, all))
        invariant forall p :: p in preds[..k] ==> p in MarksOf(View(), val, all).outs && Seen(def, MarksOf(View(), val, all), p)
      {
        var p := preds[k];
        ghost var t := View();
        PredOf(g, all, def, uses, block, p);
        MarkOut(g, def, uses, MarksOf(t, val, all), open + {block}, p);
        MarkLiveOut(p, val, all);
        ghost var u := View();
        OtherTwice(t0, t, u, val);
        UpAndMark(g, p, val, all, uses, open + {block});
        OtherTwice(t0, u, View(), val);
        assert preds[..k + 1] == preds[..k] + [p];
        k := k + 1;
      }
      assert preds[..k] == preds;
      Close(g, def, uses, MarksOf(View(), val, all), open, block);
    }

    constructor ()
    {
      liveIns, liveOuts, defs, valLiveBlocks := map[], map[], map[], map[];
    }

    method Clear()
      modifies this
      ensures View() == Tabs(map[], map[], map[]) && defs == map[]
    {
      liveIns, liveOuts, defs, valLiveBlocks := map[], map[], map[], map[];
    }

    /** One use of a value that is no immediate. */
    method AddUse(g: Cfg, v: ValueId, u: BlockId, ghost done: seq<Use>, ghost all: set<BlockId>)
      requires ValidCfg(g) && v in defs && u in all && Closed(g.preds, all)
      requires Tracked(g, defs, done, View(), all)
      modifies this`liveIns, this`liveOuts, this`valLiveBlocks
      ensures Tracked(g, defs, done + [(v, u)], View(), all)
    {
      hide Marking, LiveAt, Closed, OtherSame, MarksOf, Seen;
      ghost var t := View();
      ghost var uses, more := UsesIn(done, v), UsesIn(done + [(v, u)], v);
      assert TrackedAt(g, defs, done, t, all, v);
      UsesGrow(done, v, u);
      MoreUses(g, defs[v], uses, more, MarksOf(t, v, all));
      if defs[v] != NormalDef(u) { LiveAtUse(g.succs, defs[v], more, u); }
      UpAndMark(g, u, v, all, more, {});
      forall w | w in defs ensures TrackedAt(g, defs, done + [(v, u)], View(), all, w) {
        assert TrackedAt(g, defs, done, t, all, w);
        if w != v {
          OthersUses(done, v, u, w);
          SameMarks(t, View(), v, w, all);
        } else {
          forall x | x in more ensures Seen(defs[v], MarksOf(View(), v, all), x) {
            if x != u { SeenGrows(defs[v], MarksOf(t, v, all), MarksOf(View(), v, all), x); }
          }
        }
      }
    }

    method CollectDefs(f: Func, order: seq<BlockId>)
      modifies this`defs
      ensures defs == DefsOf(f, order, ArgDefs(f.args))
    {
      var k := 0;
      defs := map[];
      while k < |f.args|
        invariant 0 <= k <= |f.args| && defs == ArgDefs(f.args[..k])
      {
        assert f.args[..k + 1][..k] == f.args[..k];
        defs := defs[f.args[k] := FnArg];
        k := k + 1;
      }
      assert f.args[..k] == f.args;
      k := 0;
      ghost var base := defs;
      while k < |order|
        invariant 0 <= k <= |order| && defs == DefsOf(f, order[..k], base)
      {
        assert order[..k + 1][..k] == order[..k];
        var insts, j := f.Insts(order[k]), 0;
        ghost var before := defs;
        while j < |insts|
          invariant 0 <= j <= |insts| && defs == BlockDefs(order[k], insts[..j], before)
        {
          assert insts[..j + 1][..j] == insts[..j];
          if insts[j].result.Some? { defs := defs[insts[j].result.value := InstDef(order[k], insts[j])]; }
          j := j + 1;
        }
        assert insts[..j] == insts;
        k := k + 1;
      }
      assert order[..k] == order;
    }

    method AddUses(g: Cfg, us: seq<Use>, ghost done: seq<Use>, ghost all: set<BlockId>)
      requires ValidCfg(g) && Closed(g.preds, all) && Tracked(g, defs, done, View(), all)
      requires forall x :: x in us ==> x.0 in defs && x.1 in all
      modifies this`liveIns, this`liveOuts, this`valLiveBlocks
      ensures Tracked(g, defs, done + us, View(), all)
    {
      hide Tracked, Closed;
      var j := 0;
      assert done + us[..0] == done;
      while j < |us|
        invariant 0 <= j <= |us| && defs == old(defs) && Tracked(g, defs, done + us[..j], View(), all)
      {
        var (v, u) := us[j];
        AddUse(g, v, u, done + us[..j], all);
        assert done + us[..j + 1] == done + us[..j] + [(v, u)];
        j := j + 1;
      }
      assert us[..j] == us;
    }

    /** `compute`: for every value with a definition and every block, the tables
        are exact.  `po` is the post-order it goes by. */
    method Compute(f: Func, g: Cfg) returns (ghost po: seq<BlockId>)
      requires ValidCfg(g) && AllDefined(f, g)
      modifies this
      ensures if g.entry.Some? then DfsPostOrder(g.succs, g.entry.value, po) else po == []
      ensures defs == DefsOf(f, po, ArgDefs(f.args))
      ensures AllExact(f, g, po, defs, View())
    {
      hide Tracked, DfsPostOrder, DefsOf, Closed, UsesIn, AllExact, UseList, BlockUses, AllDefined, ValidCfg, BlocksOf, RecursiveOrder;
      Clear();
      var order := PostOrder(g);
      po := order;
      CollectDefs(f, order);
      ghost var all, done, d := BlocksOf(f, g, po), [], defs;
      NoUses(g, d, View(), all);
      AllClosed(f, g, po);
      NoUseYet(f, order);
      var k := 0;
      while k < |order|
        invariant 0 <= k <= |order| && defs == d
        invariant done == UseList(f, order[..k]) && Tracked(g, d, done, View(), all)
      {
        var us := UsesOfBlock(f, order[k]);
        forall x | x in us ensures x.0 in d && x.1 in all { UseKnown(f, g, order, k, x); }
        AddUses(g, us, done, all);
        UseListNext(f, order, k);
        done := done + us;
        k := k + 1;
      }
      assert order[..k] == order;
      TrackedExact(f, g, po, d, View());
    }
  }

  lemma NoUseYet(f: Func, order: seq<BlockId>)
    ensures UseList(f, order[..0]) == []
  {
  }

  lemma UseListNext(f: Func, order: seq<BlockId>, k: nat)
    requires k < |order|
    ensures UseList(f, order[..k + 1]) == UseList(f, order[..k]) + BlockUses(f, order[k], f.Insts(order[k]))
  {
    assert order[..k + 1][..k] == order[..k];
  }

  ghost predicate AllExact(f: Func, g: Cfg, po: seq<BlockId>, defs: map<ValueId, ValDef>, t: Tabs) {
    forall v, b {:trigger Exact(g, defs[v], UsesIn(UseList(f, po), v), t, v, b)} :: v in defs && b in BlocksOf(f, g, po) ==>
      Exact(g, defs[v], UsesIn(UseList(f, po), v), t, v, b)
  }

  lemma TrackedExact(f: Func, g: Cfg, po: seq<BlockId>, defs: map<ValueId, ValDef>, t: Tabs)
    requires ValidCfg(g) && Tracked(g, defs, UseList(f, po), t, BlocksOf(f, g, po))
    ensures AllExact(f, g, po, defs, t)
  {
    hide Marking, LiveAt, LiveOutOf, BlocksOf, UseList, UsesIn;
    var (all, done) := (BlocksOf(f, g, po), UseList(f, po));
    forall v, b | v in defs && b in all ensures Exact(g, defs[v], UsesIn(done, v), t, v, b) {
      assert TrackedAt(g, defs, done, t, all, v);
      MarksExact(g, defs[v], UsesIn(done, v), MarksOf(t, v, all), b);
    }
  }

  method AddNonImm(f: Func, us0: seq<Use>, all: seq<Use>) returns (us: seq<Use>)
    ensures us == us0 + NonImm(f, all)
  {
    us := us0;
    var j := 0;
    while j < |all|
      invariant 0 <= j <= |all| && us == us0 + NonImm(f, all[..j])
    {
      assert all[..j + 1][..j] == all[..j];
      if all[j].0 !in f.imms { us := us + [all[j]]; }
      j := j + 1;
    }
    assert all[..j] == all;
  }

  /** `for_each_use` on the instructions of a block. */
  method UsesOfBlock(f: Func, b: BlockId) returns (us: seq<Use>)
    ensures us == BlockUses(f, b, f.Insts(b))
  {
    us := [];
    var insts, k := f.Insts(b), 0;
    while k < |insts|
      invariant 0 <= k <= |insts| && us == BlockUses(f, b, insts[..k])
    {
      assert insts[..k + 1][..k] == insts[..k];
      us := AddNonImm(f, us, if insts[k].Phi? then insts[k].args else Pairs(insts[k].operands, b));
      k := k + 1;
    }
    assert insts[..k] == insts;
  }

  // ----- liveness at instructions

  predicate UsesHere(f: Func, inst: Inst, v: ValueId) {
    inst.Plain? && v in inst.operands && v !in f.imms
  }

  predicate NoDef(insts: seq<Inst>, from: nat, to: nat, v: ValueId) {
    forall i :: from <= i < to && i < |insts| ==> insts[i].result != Some(v)
  }

  /** After position `k`: some later instruction of the block uses the value, or
      the end of the block needs it, with no definition in between. */
  ghost predicate LiveAfter(f: Func, insts: seq<Inst>, end: set<ValueId>, k: nat, v: ValueId) {
    || (exists j {:trigger UsesHere(f, insts[j], v)} :: k < j < |insts| && UsesHere(f, insts[j], v) && NoDef(insts, k + 1, j, v))
    || (v in end && NoDef(insts, k + 1, |insts|, v))
  }

  /** One step of the backward scan. */
  function Before(f: Func, inst: Inst, live: set<ValueId>): set<ValueId> {
    var rest := if inst.result.Some? then live - {inst.result.value} else live;
    if inst.Phi? then rest else rest + set v | v in inst.operands && v !in f.imms
  }

  lemma LiveStep(f: Func, insts: seq<Inst>, end: set<ValueId>, k: nat, live: set<ValueId>, v: ValueId)
    requires 0 < k < |insts| && (v in live <==> LiveAfter(f, insts, end, k, v))
    ensures v in Before(f, insts[k], live) <==> LiveAfter(f, insts, end, k - 1, v)
  {
    if UsesHere(f, insts[k], v) {
      assert NoDef(insts, k, k, v);
    } else if insts[k].result != Some(v) {
      if LiveAfter(f, insts, end, k, v) && !(v in end && NoDef(insts, k + 1, |insts|, v)) {
        var j :| k < j < |insts| && UsesHere(f, insts[j], v) && NoDef(insts, k + 1, j, v);
        assert NoDef(insts, k, j, v);
      }
      if LiveAfter(f, insts, end, k - 1, v) && !(v in end && NoDef(insts, k, |insts|, v)) {
        var j :| k - 1 < j < |insts| && UsesHere(f, insts[j], v) && NoDef(insts, k, j, v);
        assert j > k && NoDef(insts, k + 1, j, v);
      }
    }
  }

  /** After position `k` of `b`, by paths: some later instruction of the block uses
      the value, or a path from the end of the block leads to a block that uses it,
      with no definition in between. */
  ghost predicate LiveAfterByPath(f: Func, g: Cfg, d: ValDef, uses: set<BlockId>, b: BlockId, k: nat, v: ValueId) {
    var insts := f.Insts(b);
    || (exists j {:trigger UsesHere(f, insts[j], v)} :: k < j < |insts| && UsesHere(f, insts[j], v) && NoDef(insts, k + 1, j, v))
    || (LiveOutOf(g.succs, d, uses, b) && NoDef(insts, k + 1, |insts|, v))
  }

  /** `InstLiveness::compute` on one block: what is live after each instruction. */
  method ScanBlock(f: Func, insts: seq<Inst>, end: set<ValueId>) returns (out: seq<set<ValueId>>)
    ensures |out| == |insts|
    ensures forall k: nat, v :: k < |insts| ==> (v in out[k] <==> LiveAfter(f, insts, end, k, v))
  {
    if |insts| > 0 { forall v ensures v in end <==> LiveAfter(f, insts, end, |insts| - 1, v) {} }
    hide LiveAfter, Before;
    out := [];
    var live, k := end, |insts|;
    while k > 0
      invariant 0 <= k <= |insts| && |out| == |insts| - k
      invariant k > 0 ==> forall v :: v in live <==> LiveAfter(f, insts, end, k - 1, v)
      invariant forall j: nat, v :: k <= j < |insts| ==> (v in out[j - k] <==> LiveAfter(f, insts, end, j, v))
    {
      k := k - 1;
      out := [live] + out;
      if k > 0 {
        forall v ensures v in Before(f, insts[k], live) <==> LiveAfter(f, insts, end, k - 1, v) {
          LiveStep(f, insts, end, k, live, v);
        }
      }
      live := Before(f, insts[k], live);
    }
  }

  lemma RowLive(f: Func, g: Cfg, po: seq<BlockId>, defs: map<ValueId, ValDef>, t: Tabs, b: BlockId, k: nat, v: ValueId)
    requires AllExact(f, g, po, defs, t) && b in po && v in defs
    ensures LiveAfter(f, f.Insts(b), Row(t.outs, b), k, v) <==> LiveAfterByPath(f, g, defs[v], UsesIn(UseList(f, po), v), b, k, v)
  {
    assert Exact(g, defs[v], UsesIn(UseList(f, po), v), t, v, b);
    hide UsesIn, UseList, LiveOutOf, NoDef, AllExact;
  }

  /** What `live` says of the instructions of `b` is right by paths. */
  ghost predicate BlockLive(f: Func, g: Cfg, po: seq<BlockId>, defs: map<ValueId, ValDef>, live: map<BlockId, seq<set<ValueId>>>, b: BlockId) {
    b in live && |live[b]| == |f.Insts(b)| &&
    forall k: nat, v {:trigger LiveAfterByPath(f, g, defs[v], UsesIn(UseList(f, po), v), b, k, v)} :: k < |f.Insts(b)| && v in defs ==>
      (v in live[b][k] <==> LiveAfterByPath(f, g, defs[v], UsesIn(UseList(f, po), v), b, k, v))
  }

  class InstLiveness {
    /** The values live after each instruction, by block and position. */
    var liveOut: map<BlockId, seq<set<ValueId>>>

    constructor ()
      ensures liveOut == map[]
    {
      liveOut := map[];
    }

    /** `compute`: from exact block liveness, a value is live after an instruction
        exactly when a path from there reaches a use of it before a definition. */
    method Compute(f: Func, g: Cfg, liveness: Liveness, ghost po: seq<BlockId>)
      requires ValidCfg(g) && AllExact(f, g, po, liveness.defs, liveness.View())
      requires if g.entry.Some? then DfsPostOrder(g.succs, g.entry.value, po) else po == []
      modifies this
      ensures forall b :: b in po ==> BlockLive(f, g, po, liveness.defs, liveOut, b)
    {
      hide AllExact, BlockLive, LiveAfterByPath, LiveAfter, UsesIn, UseList, DfsPostOrder, ValidCfg, RecursiveOrder;
      liveOut := map[];
      var order := PostOrder(g);
      var k := 0;
      SameBlocks(g, order, po);
      ghost var t, defs := liveness.View(), liveness.defs;
      while k < |order|
        invariant 0 <= k <= |order|
        invariant forall b :: b in order[..k] ==> BlockLive(f, g, po, defs, liveOut, b)
      {
        var b := order[k];
        ghost var before := liveOut;
        var out := ScanBlock(f, f.Insts(b), Row(liveness.liveOuts, b));
        liveOut := liveOut[b := out];
        ScannedLive(f, g, po, defs, t, liveOut, b);
        forall c | c in order[..k] ensures BlockLive(f, g, po, defs, liveOut, c) {
          if c != b { OtherBlockLive(f, g, po, defs, before, b, out, c); }
        }
        assert order[..k + 1] == order[..k] + [b];
        k := k + 1;
      }
      assert order[..k] == order;
    }
  }

  /** Two post-orders list the same blocks. */
  lemma SameBlocks(g: Cfg, x: seq<BlockId>, y: seq<BlockId>)
    requires if g.entry.Some? then DfsPostOrder(g.succs, g.entry.value, x) else x == []
    requires if g.entry.Some? then DfsPostOrder(g.succs, g.entry.value, y) else y == []
    ensures forall b :: b in x <==> b in y
  {
    hide Reach, NoDup, DfsOrder;
  }

  lemma ScannedLive(f: Func, g: Cfg, po: seq<BlockId>, defs: map<ValueId, ValDef>, t: Tabs, live: map<BlockId, seq<set<ValueId>>>, b: BlockId)
    requires AllExact(f, g, po, defs, t) && b in po && b in live && |live[b]| == |f.Insts(b)|
    requires forall k: nat, v :: k < |f.Insts(b)| ==> (v in live[b][k] <==> LiveAfter(f, f.Insts(b), Row(t.outs, b), k, v))
    ensures BlockLive(f, g, po, defs, live, b)
  {
    hide AllExact, LiveAfterByPath, LiveAfter, UsesIn, UseList;
    forall k: nat, v: ValueId | k < |f.Insts(b)| && v in defs
      ensures v in live[b][k] <==> LiveAfterByPath(f, g, defs[v], UsesIn(UseList(f, po), v), b, k, v)
    {
      RowLive(f, g, po, defs, t, b, k, v);
    }
  }

  lemma OtherBlockLive(f: Func, g: Cfg, po: seq<BlockId>, defs: map<ValueId, ValDef>, live: map<BlockId, seq<set<ValueId>>>, c: BlockId, out: seq<set<ValueId>>, b: BlockId)
    requires BlockLive(f, g, po, defs, live, b) && b != c
    ensures BlockLive(f, g, po, defs, live[c := out], b)
  {
    hide LiveAfterByPath, UsesIn, UseList;
  }
}
