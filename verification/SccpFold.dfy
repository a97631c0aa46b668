/**
 The rewriting that follows constant propagation
 (crates/codegen/src/optim/sccp.rs:333-418, crates/ir/src/inst/control_flow.rs):
 branches lose the destinations never found executable, blocks never found
 executable disappear, phis keep the incoming values of executable edges, and
 results known to be constant become that constant.  Every run that returns is
 matched by a run of the rewritten function.
 */
module SccpFold {
  import opened Options
  import opened Words
  import opened Ir
  import opened Sccps
  import opened SccpSound

  // ----- removing destinations of a branch

  function Without(table: seq<(ValueId, BlockId)>, gone: set<BlockId>): (r: seq<(ValueId, BlockId)>) {
    if table == [] then []
    else (if table[0].1 in gone then [] else [table[0]]) + Without(table[1..], gone)
  }

  /** A table with what is left of its destinations; a single one is a jump. */
  function Rebuilt(scrutinee: ValueId, default: Option<BlockId>, table: seq<(ValueId, BlockId)>): Inst {
    var ds := TableDests(default, table);
    if |ds| == 0 then Unreachable
    else if |ds| == 1 then Jump(ds[0])
    else BrTable(scrutinee, default, table)
  }

  function DropDefault(default: Option<BlockId>, gone: set<BlockId>): Option<BlockId> {
    if default.Some? && default.value in gone then None else default
  }

  /** `BranchInfo::remove_dest`. */
  function RemoveDest(inst: Inst, d: BlockId): Inst {
    match inst
    case Jump(t) => if t == d then Unreachable else inst
    case Br(_, nz, z) =>
      if nz == d && z == d then Unreachable
      else if nz == d then Jump(z)
      else if z == d then Jump(nz)
      else inst
    case BrTable(v, default, table) => Rebuilt(v, DropDefault(default, {d}), Without(table, {d}))
    case _ => inst
  }

  /** `CfgEditor::remove_succ` leaves a branch alone that does not go to `d`. */
  function RemoveSucc(inst: Inst, d: BlockId): Inst {
    if d in Dests(inst) then RemoveDest(inst, d) else inst
  }

  /** A branch with all of `gone` removed. */
  function Shrunk(inst: Inst, gone: set<BlockId>): Inst {
    match inst
    case Jump(t) => if t in gone then Unreachable else inst
    case Br(_, nz, z) =>
      if nz in gone && z in gone then Unreachable
      else if nz in gone then Jump(z)
      else if z in gone then Jump(nz)
      else inst
    case BrTable(v, default, table) =>
      if forall d :: d in Dests(inst) ==> d !in gone then inst
      else Rebuilt(v, DropDefault(default, gone), Without(table, gone))
    case _ => inst
  }

  lemma {:induction false} WithoutTwice(table: seq<(ValueId, BlockId)>, gone: set<BlockId>, d: BlockId)
    ensures Without(Without(table, gone), {d}) == Without(table, gone + {d})
  {
    if table != [] {
      WithoutTwice(table[1..], gone, d);
      var rest := Without(table[1..], gone);
      if table[0].1 in gone {
        assert Without(table, gone) == rest;
      } else {
        assert Without(table, gone) == [table[0]] + rest;
        assert ([table[0]] + rest)[1..] == rest;
      }
    }
  }

  lemma {:induction false} WithoutDests(table: seq<(ValueId, BlockId)>, gone: set<BlockId>)
    ensures forall d :: d in Second(Without(table, gone)) <==> d in Second(table) && d !in gone
  {
    if table != [] {
      var rest := Without(table[1..], gone);
      WithoutDests(table[1..], gone);
      assert Second(table) == [table[0].1] + Second(table[1..]);
      if table[0].1 !in gone {
        assert ([table[0]] + rest)[1..] == rest;
        assert Second([table[0]] + rest) == [table[0].1] + Second(rest);
      } else {
        assert Without(table, gone) == rest;
      }
    }
  }

  lemma {:induction false} WithoutNone(table: seq<(ValueId, BlockId)>, gone: set<BlockId>)
    requires forall d :: d in Second(table) ==> d !in gone
    ensures Without(table, gone) == table
  {
    if table != [] {
      assert Second(table) == [table[0].1] + Second(table[1..]);
      WithoutNone(table[1..], gone);
    }
  }

  lemma RebuiltDests(v: ValueId, default: Option<BlockId>, table: seq<(ValueId, BlockId)>)
    ensures forall d :: d in Dests(Rebuilt(v, default, table)) <==> d in TableDests(default, table)
  {
  }

  /** What is left is exactly what was not removed. */
  lemma ShrunkDests(inst: Inst, gone: set<BlockId>)
    ensures forall d :: d in Dests(Shrunk(inst, gone)) <==> d in Dests(inst) && d !in gone
  {
    if inst.BrTable? {
      WithoutDests(inst.table, gone);
      RebuiltDests(inst.scrutinee, DropDefault(inst.default, gone), Without(inst.table, gone));
      hide Rebuilt, Without;
    }
  }

  /** Removing one destination after others is removing them together. */
  lemma ShrunkStep(inst: Inst, gone: set<BlockId>, d: BlockId)
    ensures RemoveSucc(Shrunk(inst, gone), d) == Shrunk(inst, gone + {d})
  {
    if inst.BrTable? { RebuiltStep(inst, gone, d); }
  }

  lemma RebuiltStep(inst: Inst, gone: set<BlockId>, d: BlockId)
    requires inst.BrTable?
    ensures RemoveSucc(Shrunk(inst, gone), d) == Shrunk(inst, gone + {d})
  {
    var (v, default, table) := (inst.scrutinee, inst.default, inst.table);
    WithoutTwice(table, gone, d);
    WithoutDests(table, gone);
    ShrunkDests(inst, gone);
    if forall t :: t in Dests(inst) ==> t !in gone {
      WithoutNone(table, gone);
      assert d in Dests(inst) ==> !(forall t :: t in Dests(inst) ==> t !in gone + {d});
      assert DropDefault(DropDefault(default, gone), {d}) == DropDefault(default, gone + {d});
    } else {
      var (e, rest) := (DropDefault(default, gone), Without(table, gone));
      assert DropDefault(e, {d}) == DropDefault(default, gone + {d});
      if d !in TableDests(e, rest) {
        WithoutNone(rest, {d});
        assert Without(table, gone + {d}) == rest;
      }
      RebuiltRemove(v, e, rest, d);
    }
  }

  lemma FirstListed(ds: seq<BlockId>)
    ensures |ds| > 0 ==> ds[0] in ds
  {
  }

  lemma RebuiltRemove(v: ValueId, default: Option<BlockId>, table: seq<(ValueId, BlockId)>, d: BlockId)
    ensures d in TableDests(default, table) ==>
      RemoveSucc(Rebuilt(v, default, table), d) == Rebuilt(v, DropDefault(default, {d}), Without(table, {d}))
    ensures d !in TableDests(default, table) ==> RemoveSucc(Rebuilt(v, default, table), d) == Rebuilt(v, default, table)
  {
    WithoutDests(table, {d});
    var ds := TableDests(default, table);
    if |ds| == 1 && d in ds {
      assert ds[0] == d;
      var left := TableDests(DropDefault(default, {d}), Without(table, {d}));
      assert forall t :: t in left ==> t in ds && t != d;
      FirstListed(left);
    }
  }

  predicate NoneLeft(ds: seq<BlockId>, gone: set<BlockId>) {
    forall k {:trigger ds[k]} :: 0 <= k < |ds| ==> ds[k] in gone
  }

  /** Of all places in `ds` only the k-th is not gone. */
  predicate OnlyLeft(ds: seq<BlockId>, gone: set<BlockId>, k: nat) {
    k < |ds| && ds[k] !in gone && forall j {:trigger ds[j]} :: 0 <= j < |ds| && j != k ==> ds[j] in gone
  }

  predicate OneLeft(ds: seq<BlockId>, gone: set<BlockId>) {
    exists k :: 0 <= k < |ds| && OnlyLeft(ds, gone, k)
  }

  lemma {:induction false} WithoutCount(table: seq<(ValueId, BlockId)>, gone: set<BlockId>)
    ensures |Without(table, gone)| == 0 <==> NoneLeft(Second(table), gone)
    ensures |Without(table, gone)| == 1 <==> OneLeft(Second(table), gone)
  {
    if table != [] {
      WithoutCount(table[1..], gone);
      var (ds, rest) := (Second(table), Second(table[1..]));
      LeftFirst(ds, gone);
      assert ds[1..] == rest;
    }
  }

  lemma LeftFirst(ds: seq<BlockId>, gone: set<BlockId>)
    requires ds != []
    ensures NoneLeft(ds, gone) <==> ds[0] in gone && NoneLeft(ds[1..], gone)
    ensures OneLeft(ds, gone) <==> if ds[0] in gone then OneLeft(ds[1..], gone) else NoneLeft(ds[1..], gone)
  {
    var rest := ds[1..];
    assert forall k :: 0 < k < |ds| ==> ds[k] == rest[k - 1];
    if k :| 0 <= k < |rest| && OnlyLeft(rest, gone, k) { assert ds[0] in gone ==> OnlyLeft(ds, gone, k + 1); }
    if NoneLeft(rest, gone) { assert ds[0] !in gone ==> OnlyLeft(ds, gone, 0); }
    if k :| 0 <= k < |ds| && OnlyLeft(ds, gone, k) {
      assert forall j :: 0 <= j < |rest| && j != k - 1 ==> rest[j] == ds[j + 1] && ds[j + 1] in gone;
      assert k > 0 ==> OnlyLeft(rest, gone, k - 1);
    }
    assert NoneLeft(ds, gone) ==> forall j :: 0 <= j < |rest| ==> rest[j] == ds[j + 1] && ds[j + 1] in gone;
  }

  /** A branch is left alone if nothing is removed; otherwise it is unreachable
      when nothing is left, a jump when one entry is, and a table still when more
      are. */
  ghost predicate FormOk(inst: Inst, gone: set<BlockId>, left: Inst) {
    var ds := Dests(inst);
    if forall d :: d in ds ==> d !in gone then left == inst
    else if NoneLeft(ds, gone) then left == Unreachable
    else if OneLeft(ds, gone) then left.Jump?
    else left.BrTable? && inst.BrTable? && left.scrutinee == inst.scrutinee
  }

  lemma ShrunkForm(inst: Inst, gone: set<BlockId>)
    requires IsBranch(inst)
    ensures FormOk(inst, gone, Shrunk(inst, gone))
  {
    var ds := Dests(inst);
    match inst
    case Jump(d) => assert ds[0] == d;
    case Br(_, nz, z) =>
      assert ds[0] == nz && ds[1] == z;
      if nz in gone && z !in gone { assert OnlyLeft(ds, gone, 1); }
      if nz !in gone && z in gone { assert OnlyLeft(ds, gone, 0); }
    case BrTable(v, default, table) =>
      WithoutCount(table, gone);
      if default.Some? {
        LeftFirst(ds, gone);
        assert ds[1..] == Second(table);
      } else {
        assert ds == Second(table);
      }
      hide Without, Second;
      RebuiltForm(v, DropDefault(default, gone), Without(table, gone));
  }

  lemma RebuiltForm(v: ValueId, default: Option<BlockId>, table: seq<(ValueId, BlockId)>)
    ensures var (left, n) := (Rebuilt(v, default, table), Once(default) + |table|);
      if n == 0 then left == Unreachable else if n == 1 then left.Jump? else left == BrTable(v, default, table)
  {
  }

  function Once(default: Option<BlockId>): nat { if default.Some? then 1 else 0 }

  // ----- a branch that loses only other destinations still goes the same way

  predicate Refines(e: EvalValue, x: EvalValue) { e.Undef? || e == x }

  ghost predicate ValRefines(val: Valuation, wal: Valuation, vs: seq<ValueId>) {
    forall v :: v in vs ==> Refines(val(v), wal(v))
  }

  lemma {:induction false} TableKept(val: Valuation, wal: Valuation, c: Imm, table: seq<(ValueId, BlockId)>, gone: set<BlockId>)
    requires forall k :: 0 <= k < |table| ==> val(table[k].0) == wal(table[k].0) && val(table[k].0).Word?
    ensures var hit := TableTarget(val, c, table);
      hit.Some? && hit.value !in gone ==> TableTarget(wal, c, Without(table, gone)) == hit
    ensures TableTarget(val, c, table).None? ==> TableTarget(wal, c, Without(table, gone)).None?
  {
    if table != [] {
      TableKept(val, wal, c, table[1..], gone);
      var rest := Without(table[1..], gone);
      if table[0].1 in gone {
        assert Without(table, gone) == rest;
      } else {
        assert Without(table, gone) == [table[0]] + rest;
        assert ([table[0]] + rest)[1..] == rest;
      }
    }
  }

  lemma RebuiltTarget(val: Valuation, v: ValueId, default: Option<BlockId>, table: seq<(ValueId, BlockId)>, t: BlockId)
    requires val(v).Word? && t in TableDests(default, table)
    requires var hit := TableTarget(val, val(v).imm, table); (if hit.Some? then hit else default) == Some(t)
    ensures Target(val, Rebuilt(v, default, table)) == Some(t)
  {
  }

  lemma StillListed(default: Option<BlockId>, table: seq<(ValueId, BlockId)>, gone: set<BlockId>, t: BlockId)
    requires t !in gone && (default == Some(t) || t in Second(Without(table, gone)))
    ensures t in TableDests(DropDefault(default, gone), Without(table, gone))
  {
  }

  lemma TableTargetKept(val: Valuation, wal: Valuation, inst: Inst, gone: set<BlockId>)
    requires inst.BrTable? && val(inst.scrutinee) == wal(inst.scrutinee)
    requires forall k :: 0 <= k < |inst.table| ==> val(inst.table[k].0) == wal(inst.table[k].0) && val(inst.table[k].0).Word?
    requires Target(val, inst).Some? && Target(val, inst).value !in gone
    ensures Target(wal, Shrunk(inst, gone)) == Target(val, inst)
  {
    hide Rebuilt, TableDests, Dests;
    var (v, default, table) := (inst.scrutinee, inst.default, inst.table);
    var t := Target(val, inst).value;
    TableKept(val, wal, val(v).imm, table, gone);
    TableKept(val, wal, val(v).imm, table, {});
    WithoutNone(table, {});
    TableTargetListed(val, val(v).imm, table);
    WithoutDests(table, gone);
    StillListed(default, table, gone, t);
    RebuiltTarget(wal, v, DropDefault(default, gone), Without(table, gone), t);
  }

  lemma TargetKept(f: Function, i: InstId, val: Valuation, wal: Valuation, gone: set<BlockId>)
    requires TypeOk(f, i) && ValRefines(val, wal, Operands(f.At(i)))
    requires forall v :: f.Data(v).Immediate? ==> val(v) == wal(v) == Word(f.Data(v).imm)
    requires Target(val, f.At(i)).Some? && Target(val, f.At(i)).value !in gone
    ensures Target(wal, Shrunk(f.At(i), gone)) == Target(val, f.At(i))
  {
    var inst := f.At(i);
    match inst
    case Br(c, _, _) => assert c in Operands(inst);
    case BrTable(v, default, table) =>
      assert val(v).Word?;
      hide Shrunk, Target, TableTarget;
      assert v in Operands(inst);
      forall k | 0 <= k < |table| ensures val(table[k].0) == wal(table[k].0) && val(table[k].0).Word? {}
      TableTargetKept(val, wal, inst, gone);
    case _ =>
  }

  // ----- the rewritten function

  /** The destinations of `i` whose edge was never found executable. */
  function Dead(f: Function, s: Facts, i: InstId): set<BlockId> {
    set d | d in Dests(f.At(i)) && FlowEdge(i, d) !in s.edges
  }

  predicate Folded(f: Function, s: Facts, i: InstId) {
    Executable(f, s, i) && f.ResultOf(i).Some? && CellAt(s, f.ResultOf(i).value).Const?
  }

  /** The instructions that stay. */
  function Kept(f: Function, s: Facts, insts: seq<InstId>): seq<InstId> {
    if insts == [] then []
    else
      var n := |insts| - 1;
      Kept(f, s, insts[..n]) + if Folded(f, s, insts[n]) then [] else [insts[n]]
  }

  /** `Phi::retain` with the executable predecessors. */
  function Retained(f: Function, s: Facts, block: BlockId, args: seq<(ValueId, BlockId)>): seq<(ValueId, BlockId)> {
    if args == [] then []
    else (if IsReachable(f, s, args[0].1, block) then [args[0]] else []) + Retained(f, s, block, args[1..])
  }

  function NewData(f: Function, s: Facts, v: ValueId): ValueData {
    match f.Data(v)
    case Result(i) => if Executable(f, s, i) && CellAt(s, v).Const? then Immediate(CellAt(s, v).imm) else Result(i)
    case d => d
  }

  /** A branch, a phi or another instruction of `f` after the rewriting; `g` is
      the function whose branches have been pruned. */
  function NewInst(f: Function, g: Function, s: Facts, i: InstId): Inst {
    match f.At(i)
    case Phi(args) => Phi(Retained(g, s, Home(f, i), args))
    case inst => Shrunk(inst, Dead(f, s, i))
  }

  /** `g` is `f` without the blocks and edges never found executable. */
  ghost predicate Pruned(f: Function, s: Facts, g: Function) {
    && g.args == f.args && g.entry == f.entry && g.values == f.values && g.results == f.results
    && g.types == f.types && g.home == f.home
    && (forall b :: b in g.layout <==> b in f.layout && b in s.blocks)
    && (forall b :: b in g.layout ==> g.Body(b) == f.Body(b))
    && (forall i {:trigger g.At(i)} :: Executable(f, s, i) ==> g.At(i) == Shrunk(f.At(i), Dead(f, s, i)))
  }

  /** `h` is `f` pruned and folded. */
  ghost predicate Rewritten(f: Function, s: Facts, g: Function, h: Function) {
    && Pruned(f, s, g)
    && h.args == f.args && h.entry == f.entry && h.results == f.results && h.types == f.types
    && (forall v {:trigger h.Data(v)} :: h.Data(v) == NewData(f, s, v))
    && (forall b :: b in h.layout <==> b in g.layout)
    && (forall b :: b in h.layout ==> h.Body(b) == Kept(f, s, f.Body(b)))
    && (forall i {:trigger h.At(i)} :: Executable(f, s, i) && !Folded(f, s, i) ==> h.At(i) == NewInst(f, g, s, i))
  }

  // ----- what the rewritten function looks like

  /** The branch at the end of `p` has been found to go to `d`. */
  predicate Live(f: Function, s: Facts, p: BlockId, d: BlockId) {
    p in s.blocks && HasEdge(f, p, d) && FlowEdge(f.LastInst(p).value, d) in s.edges
  }

  function Closed(f: Function, s: Facts, p: BlockId, ds: seq<BlockId>): set<BlockId> {
    set d | d in ds && !Live(f, s, p, d)
  }

  /** The result of `i` is known. */
  predicate Constant(f: Function, s: Facts, i: InstId) {
    f.ResultOf(i).Some? && CellAt(s, f.ResultOf(i).value).Const?
  }

  /** In `left` the instructions of `body` without a known result, in their order. */
  ghost predicate Sieved(f: Function, s: Facts, body: seq<InstId>, left: seq<InstId>) {
    && (forall i {:trigger i in left} :: i in left <==> i in body && !Constant(f, s, i))
    && (forall j, k :: 0 <= j < k < |left| ==> Before(body, left[j], left[k]))
  }

  ghost predicate Before(body: seq<InstId>, i: InstId, j: InstId) {
    exists k, l :: 0 <= k < l < |body| && body[k] == i && body[l] == j
  }

  /** An instruction of `h` in block `b`: branches lead into blocks of `h`, phis
      have exactly the predecessors that are left, with the values they had, and
      everything else is as it was. */
  ghost predicate InstTidy(f: Function, s: Facts, h: Function, b: BlockId, i: InstId) {
    var (was, now) := (f.At(i), h.At(i));
    && (forall d {:trigger d in Dests(now)} :: d in Dests(now) <==> d in Dests(was) && Live(f, s, b, d))
    && (forall d {:trigger d in Dests(now)} :: d in Dests(now) ==> d in h.layout)
    && (IsBranch(was) ==> FormOk(was, Closed(f, s, b, Dests(was)), now))
    && (was.Phi? ==> now.Phi? && forall v, p :: (v, p) in now.args <==> (v, p) in was.args && Live(f, s, p, b))
    && (!IsBranch(was) && !was.Phi? ==> now == was)
  }

  /** `h` has the blocks found executable; in them no known result is computed any
      more, it is a constant instead, and the graph and the phis fit each other. */
  ghost predicate Tidy(f: Function, s: Facts, h: Function) {
    && (forall b {:trigger b in h.layout} :: b in h.layout <==> b in f.layout && b in s.blocks)
    && (forall b {:trigger h.Body(b)} :: b in h.layout ==> Sieved(f, s, f.Body(b), h.Body(b)))
    && (forall b, i {:trigger InstTidy(f, s, h, b, i)} :: i in h.Body(b) ==> InstTidy(f, s, h, b, i))
    && h.entry == f.entry && h.args == f.args && h.results == f.results
    && (forall v {:trigger h.Data(v)} :: !(f.Data(v).Result? && CellAt(s, v).Const?) ==> h.Data(v) == f.Data(v))
    && (forall i {:trigger Constant(f, s, i)} :: Executable(f, s, i) && Constant(f, s, i) ==>
          h.Data(f.ResultOf(i).value) == Immediate(CellAt(s, f.ResultOf(i).value).imm))
    && (forall p, d {:trigger HasEdge(h, p, d)} :: HasEdge(h, p, d) <==> Live(f, s, p, d))
    && (PhisFit(f) ==> forall b, i {:trigger h.At(i), h.Body(b)} :: i in h.Body(b) && h.At(i).Phi? ==> PhiFits(h, b, h.At(i).args))
  }

  lemma {:induction false} KeptSieves(f: Function, s: Facts, insts: seq<InstId>)
    requires forall i :: i in insts ==> Executable(f, s, i)
    ensures Sieved(f, s, insts, Kept(f, s, insts))
    decreases |insts|
  {
    if insts != [] {
      var n := |insts| - 1;
      var (start, last, left) := (insts[..n], insts[n], Kept(f, s, insts[..n]));
      KeptSieves(f, s, start);
      assert insts == start + [last];
      var all := Kept(f, s, insts);
      forall j, k | 0 <= j < k < |all| ensures Before(insts, all[j], all[k]) {
        if k < |left| {
          assert Before(start, left[j], left[k]);
          var x, y :| 0 <= x < y < |start| && start[x] == left[j] && start[y] == left[k];
          assert insts[x] == left[j] && insts[y] == left[k];
        } else {
          assert left[j] in left && left[j] in start;
          var x :| 0 <= x < n && start[x] == left[j];
          assert insts[x] == left[j] && insts[n] == all[k];
        }
      }
    }
  }

  lemma PrunedReaches(f: Function, s: Facts, g: Function, p: BlockId, b: BlockId)
    requires WellFormed(f) && EdgesOk(f, s) && Pruned(f, s, g)
    ensures IsReachable(g, s, p, b) <==> Live(f, s, p, b)
  {
    hide WellFormed, Shrunk, Dests;
    if Live(f, s, p, b) {
      LastPlaced(f, p);
      DestsInside(f, p, b);
      assert FlowEdge(f.LastInst(p).value, b).to in s.blocks;
      ReachableInPruned(f, s, g, p, b);
    } else if IsReachable(g, s, p, b) {
      assert g.Body(p) == f.Body(p);
      LastPlaced(f, p);
      var last := f.LastInst(p).value;
      assert g.At(last) == Shrunk(f.At(last), Dead(f, s, last));
      ShrunkDests(f.At(last), Dead(f, s, last));
    }
  }

  lemma DestsInside(f: Function, p: BlockId, b: BlockId)
    requires WellFormed(f) && HasEdge(f, p, b)
    ensures p in f.layout && b in f.layout
  {
    LastPlaced(f, p);
    InstOf(f, f.LastInst(p).value);
  }

  predicate SourcesDiffer(args: seq<(ValueId, BlockId)>) {
    forall j, k :: 0 <= j < k < |args| ==> args[j].1 != args[k].1
  }

  lemma {:induction false} RetainedAre(f: Function, s: Facts, g: Function, b: BlockId, args: seq<(ValueId, BlockId)>)
    requires WellFormed(f) && EdgesOk(f, s) && Pruned(f, s, g)
    ensures forall v, p :: (v, p) in Retained(g, s, b, args) <==> (v, p) in args && Live(f, s, p, b)
    ensures SourcesDiffer(args) ==> SourcesDiffer(Retained(g, s, b, args))
    decreases |args|
  {
    hide WellFormed, EdgesOk, Pruned, IsReachable, Live, SourcesDiffer;
    if args != [] {
      var rest := Retained(g, s, b, args[1..]);
      RetainedAre(f, s, g, b, args[1..]);
      PrunedReaches(f, s, g, args[0].1, b);
      assert args == [args[0]] + args[1..];
      FirstDiffers(args, rest);
      if IsReachable(g, s, args[0].1, b) {
        assert Retained(g, s, b, args) == [args[0]] + rest;
      } else {
        assert Retained(g, s, b, args) == rest;
      }
    }
  }

  lemma FirstDiffers(args: seq<(ValueId, BlockId)>, rest: seq<(ValueId, BlockId)>)
    requires args != [] && forall v, p :: (v, p) in rest ==> (v, p) in args[1..]
    ensures SourcesDiffer(args) ==> SourcesDiffer(args[1..])
    ensures SourcesDiffer(args) && SourcesDiffer(rest) ==> SourcesDiffer([args[0]] + rest)
  {
    if SourcesDiffer(args) {
      forall k | 0 <= k < |rest| ensures rest[k].1 != args[0].1 {
        var (v, p) := rest[k];
        assert (v, p) in args[1..];
        var j :| 0 <= j < |args[1..]| && args[1..][j] == (v, p);
        assert args[j + 1] == (v, p);
      }
    }
  }

  lemma SecondIn(args: seq<(ValueId, BlockId)>, p: BlockId)
    ensures p in Second(args) <==> exists v: ValueId :: (v, p) in args
  {
    if p in Second(args) {
      var k :| 0 <= k < |args| && Second(args)[k] == p;
      assert (args[k].0, p) in args;
    }
    if v: ValueId :| (v, p) in args {
      var k :| 0 <= k < |args| && args[k] == (v, p);
      assert Second(args)[k] == p;
    }
  }

  /** An instruction that stays in a block found executable. */
  lemma StaysIn(f: Function, s: Facts, g: Function, h: Function, b: BlockId, i: InstId)
    requires WellFormed(f) && Rewritten(f, s, g, h) && i in h.Body(b)
    ensures b in h.layout && b in f.layout && b in s.blocks && i in f.Body(b) && PlacedAt(f, b, i) && Executable(f, s, i) && !Folded(f, s, i)
    ensures h.At(i) == NewInst(f, g, s, i)
  {
    hide WellFormed, NewInst;
    forall j | j in f.Body(b) ensures PlacedAt(f, b, j) { PlacedOf(f, b, j); }
    KeptSieves(f, s, f.Body(b));
    assert h.Body(b) == Kept(f, s, f.Body(b));
  }

  lemma BodiesSieved(f: Function, s: Facts, g: Function, h: Function, b: BlockId)
    requires WellFormed(f) && Rewritten(f, s, g, h) && b in h.layout
    ensures Sieved(f, s, f.Body(b), h.Body(b))
  {
    hide WellFormed, NewInst;
    forall j | j in f.Body(b) ensures PlacedAt(f, b, j) { PlacedOf(f, b, j); }
    KeptSieves(f, s, f.Body(b));
  }

  lemma NoDests(inst: Inst)
    ensures !IsBranch(inst) ==> Dests(inst) == []
  {
  }

  lemma PhiStays(f: Function, s: Facts, g: Function, h: Function, b: BlockId, i: InstId)
    requires WellFormed(f) && EdgesOk(f, s) && Rewritten(f, s, g, h) && i in h.Body(b) && f.At(i).Phi?
    ensures h.At(i).Phi? && InstTidy(f, s, h, b, i)
    ensures SourcesDiffer(f.At(i).args) ==> SourcesDiffer(h.At(i).args)
  {
    hide Rewritten, WellFormed, EdgesOk, Live, Dests, SourcesDiffer, FormOk, Pruned, Retained, IsBranch;
    PhiNow(f, s, g, h, b, i);
    NoDests(f.At(i));
    NoDests(h.At(i));
    RetainedAre(f, s, g, b, f.At(i).args);
  }

  lemma PhiNow(f: Function, s: Facts, g: Function, h: Function, b: BlockId, i: InstId)
    requires WellFormed(f) && Rewritten(f, s, g, h) && i in h.Body(b) && f.At(i).Phi?
    ensures Pruned(f, s, g) && h.At(i) == Phi(Retained(g, s, b, f.At(i).args)) && !IsBranch(f.At(i)) && !IsBranch(h.At(i))
  {
    StaysIn(f, s, g, h, b, i);
    hide WellFormed, Retained;
  }

  lemma BranchTidy(f: Function, s: Facts, g: Function, h: Function, b: BlockId, i: InstId)
    requires WellFormed(f) && EdgesOk(f, s) && Rewritten(f, s, g, h) && i in h.Body(b) && IsBranch(f.At(i))
    ensures InstTidy(f, s, h, b, i)
  {
    StaysIn(f, s, g, h, b, i);
    var (was, gone) := (f.At(i), Dead(f, s, i));
    ShrunkDests(was, gone);
    ShrunkForm(was, gone);
    assert f.LastInst(b) == Some(i);
    assert h.At(i) == Shrunk(was, gone);
    assert gone == Closed(f, s, b, Dests(was));
    hide WellFormed, Rewritten, Shrunk, FormOk, Dests, EdgesOk;
    forall d | d in Dests(h.At(i)) ensures d in h.layout { LiveInside(f, s, g, h, b, i, d); }
  }

  lemma StaysTidy(f: Function, s: Facts, g: Function, h: Function, b: BlockId, i: InstId)
    requires WellFormed(f) && EdgesOk(f, s) && Rewritten(f, s, g, h) && i in h.Body(b)
    ensures InstTidy(f, s, h, b, i)
  {
    hide WellFormed, EdgesOk, InstTidy, Rewritten;
    if f.At(i).Phi? {
      PhiStays(f, s, g, h, b, i);
    } else if IsBranch(f.At(i)) {
      BranchTidy(f, s, g, h, b, i);
    } else {
      OtherStays(f, s, g, h, b, i);
    }
  }

  lemma OtherStays(f: Function, s: Facts, g: Function, h: Function, b: BlockId, i: InstId)
    requires WellFormed(f) && Rewritten(f, s, g, h) && i in h.Body(b) && !f.At(i).Phi? && !IsBranch(f.At(i))
    ensures InstTidy(f, s, h, b, i)
  {
    StaysIn(f, s, g, h, b, i);
    ShrunkOther(f.At(i));
    hide Rewritten, WellFormed, Live;
    NoDests(f.At(i));
  }

  lemma LiveInside(f: Function, s: Facts, g: Function, h: Function, b: BlockId, i: InstId, d: BlockId)
    requires WellFormed(f) && EdgesOk(f, s) && Rewritten(f, s, g, h) && f.LastInst(b) == Some(i) && Live(f, s, b, d)
    ensures d in h.layout
  {
    hide NewInst, NewData;
    DestsInside(f, b, d);
    assert FlowEdge(i, d).to in s.blocks;
  }

  lemma EdgesLeft(f: Function, s: Facts, g: Function, h: Function, p: BlockId, d: BlockId)
    requires WellFormed(f) && EdgesOk(f, s) && Rewritten(f, s, g, h)
    ensures HasEdge(h, p, d) <==> Live(f, s, p, d)
  {
    if HasEdge(h, p, d) {
      var last := h.LastInst(p).value;
      StaysIn(f, s, g, h, p, last);
      StaysTidy(f, s, g, h, p, last);
    }
    if Live(f, s, p, d) {
      var last := f.LastInst(p).value;
      LastPlaced(f, p);
      DestsInside(f, p, d);
      NoDests(f.At(last));
      InstOf(f, last);
      assert !Folded(f, s, last);
      assert h.Body(p) == Kept(f, s, f.Body(p)[..|f.Body(p)| - 1]) + [last];
      StaysTidy(f, s, g, h, p, last);
    }
  }

  /** The result of the rewriting by facts that explain themselves. */
  lemma RewrittenTidy(f: Function, s: Facts, g: Function, h: Function)
    requires WellFormed(f) && EdgesOk(f, s) && Rewritten(f, s, g, h)
    ensures Tidy(f, s, h)
  {
    forall b | b in h.layout ensures Sieved(f, s, f.Body(b), h.Body(b)) { BodiesSieved(f, s, g, h, b); }
    forall b, i | i in h.Body(b) ensures InstTidy(f, s, h, b, i) { StaysTidy(f, s, g, h, b, i); }
    forall p, d ensures HasEdge(h, p, d) <==> Live(f, s, p, d) { EdgesLeft(f, s, g, h, p, d); }
    forall i: InstId | Executable(f, s, i) && Constant(f, s, i)
      ensures h.Data(f.ResultOf(i).value) == Immediate(CellAt(s, f.ResultOf(i).value).imm)
    {
      InstOf(f, i);
    }
    if PhisFit(f) {
      forall b, i | i in h.Body(b) && h.At(i).Phi? ensures PhiFits(h, b, h.At(i).args) { PhiTidy(f, s, g, h, b, i); }
    }
  }

  lemma PhiTidy(f: Function, s: Facts, g: Function, h: Function, b: BlockId, i: InstId)
    requires WellFormed(f) && EdgesOk(f, s) && Rewritten(f, s, g, h) && PhisFit(f) && i in h.Body(b) && h.At(i).Phi?
    ensures PhiFits(h, b, h.At(i).args)
  {
    StaysIn(f, s, g, h, b, i);
    assert f.At(i).Phi? && PhiFits(f, b, f.At(i).args);
    hide WellFormed, Rewritten, EdgesOk, HasEdge, NewInst, PlacedAt;
    PhiStays(f, s, g, h, b, i);
    forall p ensures HasEdge(h, p, b) <==> Live(f, s, p, b) { EdgesLeft(f, s, g, h, p, b); }
    StillFits(f, s, h, b, f.At(i).args, h.At(i).args);
  }

  lemma StillFits(f: Function, s: Facts, h: Function, b: BlockId, args: seq<(ValueId, BlockId)>, left: seq<(ValueId, BlockId)>)
    requires PhiFits(f, b, args) && SourcesDiffer(left)
    requires forall v, p :: (v, p) in left <==> (v, p) in args && Live(f, s, p, b)
    requires forall p {:trigger HasEdge(h, p, b)} :: HasEdge(h, p, b) <==> Live(f, s, p, b)
    ensures PhiFits(h, b, left)
  {
    assert forall p {:trigger Live(f, s, p, b)} :: Live(f, s, p, b) ==> HasEdge(f, p, b);
    hide HasEdge, Live, Second;
    forall p: BlockId ensures p in Second(left) <==> HasEdge(h, p, b) {
      SecondIn(args, p);
      SecondIn(left, p);
    }
  }

  // ----- simulation

  ghost predicate EventsRefine(xs: seq<Event>, ys: seq<Event>) {
    |xs| == |ys| && forall k :: 0 <= k < |xs| ==> EventRefines(xs[k], ys[k])
  }

  ghost predicate EventRefines(x: Event, y: Event) {
    x.inst == y.inst && |x.args| == |y.args| && forall k :: 0 <= k < |x.args| ==> Refines(x.args[k], y.args[k])
  }

  predicate ValueMatches(f: Function, h: Function, m: Machine, w: Machine, v: ValueId) {
    Refines(Lookup(f, m, v), Lookup(h, w, v)) && Typed(Lookup(h, w, v), f.Type(v))
  }

  ghost predicate ValuesMatch(f: Function, h: Function, m: Machine, w: Machine) {
    forall v {:trigger ValueMatches(f, h, m, w, v)} :: ValueMatches(f, h, m, w, v)
  }

  /** `w` runs `h` where `m` runs `f`. */
  ghost predicate Matches(f: Function, s: Facts, h: Function, m: Machine, w: Machine) {
    && w.block == m.block && w.prev == m.prev && m.at <= |f.Body(m.block)|
    && w.at == |Kept(f, s, f.Body(m.block)[..m.at])|
    && EventsRefine(m.events, w.events)
    && ValuesMatch(f, h, m, w)
  }

  lemma {:induction false} KeptPrefix(f: Function, s: Facts, insts: seq<InstId>, n: nat)
    requires n <= |insts|
    ensures Kept(f, s, insts[..n]) <= Kept(f, s, insts)
    decreases |insts|
  {
    if n < |insts| {
      KeptPrefix(f, s, insts[..|insts| - 1], n);
      assert insts[..|insts| - 1][..n] == insts[..n];
    } else {
      assert insts[..n] == insts;
    }
  }

  /** The instruction at `n`, if it stays, is where the count says. */
  lemma KeptAt(f: Function, s: Facts, insts: seq<InstId>, n: nat)
    requires n < |insts|
    ensures var k := Kept(f, s, insts[..n]);
      Kept(f, s, insts[..n + 1]) == if Folded(f, s, insts[n]) then k else k + [insts[n]]
    ensures !Folded(f, s, insts[n]) ==>
      |Kept(f, s, insts[..n])| < |Kept(f, s, insts)| && Kept(f, s, insts)[|Kept(f, s, insts[..n])|] == insts[n]
  {
    assert insts[..n + 1][..n] == insts[..n];
    KeptPrefix(f, s, insts, n + 1);
  }

  // values under the two functions

  lemma LookupNew(f: Function, s: Facts, g: Function, h: Function, w: Machine, v: ValueId)
    requires Rewritten(f, s, g, h)
    ensures Lookup(h, w, v) ==
      if f.Data(v).Immediate? then Word(f.Data(v).imm)
      else if f.Data(v).Result? && Executable(f, s, f.Data(v).inst) && CellAt(s, v).Const? then Word(CellAt(s, v).imm)
      else Local(w, v)
  {
    assert h.Data(v) == NewData(f, s, v);
  }

  lemma LookupImmediate(f: Function, m: Machine, v: ValueId)
    ensures f.Data(v).Immediate? ==> Lookup(f, m, v) == Word(f.Data(v).imm)
  {
  }

  lemma StartMatches(f: Function, s: Facts, g: Function, h: Function, actuals: seq<EvalValue>)
    requires WellFormed(f) && Solved(f, s) && ActualsTyped(f, actuals) && Rewritten(f, s, g, h)
    ensures Matches(f, s, h, Start(f, actuals), Start(h, actuals))
  {
    var (m, w) := (Start(f, actuals), Start(f, actuals));
    assert Start(h, actuals) == w;
    hide UpToDate, InstOk, BodyOk, HomeOk, Rewritten;
    StartDescribed(f, s, actuals);
    forall v ensures ValueMatches(f, h, m, w, v) {
      assert ValueOk(f, v) && ValueDescribed(f, s, m, v) && CellTyped(f, s, v);
      LookupNew(f, s, g, h, w, v);
    }
    assert f.Body(f.entry)[..0] == [];
  }

  lemma ReachableInPruned(f: Function, s: Facts, g: Function, from: BlockId, to: BlockId)
    requires WellFormed(f) && Pruned(f, s, g) && from in s.blocks && to in s.blocks
    requires IsReachable(f, s, from, to)
    ensures IsReachable(g, s, from, to)
  {
    hide WellFormed, Shrunk, Dests;
    var last := f.LastInst(from).value;
    LastPlaced(f, from);
    assert g.Body(from) == f.Body(from);
    ShrunkDests(f.At(last), Dead(f, s, last));
    assert g.At(last) == Shrunk(f.At(last), Dead(f, s, last));
  }

  lemma LastPlaced(f: Function, b: BlockId)
    requires WellFormed(f) && f.LastInst(b).Some?
    ensures var last := f.LastInst(b).value; last in f.home && f.home[last] == b
  {
    hide InstOk, ValueOk, HomeOk;
    assert BodyOk(f, b) && PlacedAt(f, b, f.LastInst(b).value);
  }

  lemma {:induction false} IncomingRetained(f: Function, g: Function, h: Function, s: Facts, m: Machine, w: Machine, block: BlockId, args: seq<(ValueId, BlockId)>, prev: BlockId)
    requires IsReachable(g, s, prev, block) && ValuesMatch(f, h, m, w)
    ensures Refines(Incoming(Values(f, m), args, prev), Incoming(Values(h, w), Retained(g, s, block, args), prev))
    decreases |args|
  {
    hide IsReachable, Lookup;
    if args != [] {
      var rest := Retained(g, s, block, args[1..]);
      IncomingRetained(f, g, h, s, m, w, block, args[1..], prev);
      assert ValueMatches(f, h, m, w, args[0].0);
      if IsReachable(g, s, args[0].1, block) {
        assert Retained(g, s, block, args) == [args[0]] + rest && ([args[0]] + rest)[1..] == rest;
      } else {
        assert Retained(g, s, block, args) == rest;
      }
    }
  }

  lemma EvaluateRefines(f: Function, h: Function, m: Machine, w: Machine, i: InstId)
    requires TypeOk(f, i) && IsPure(f.At(i)) && ValuesMatch(f, h, m, w)
    requires Evaluable(Values(f, m), f.At(i))
    ensures Evaluable(Values(h, w), f.At(i))
    ensures Refines(Evaluate(Values(f, m), f.At(i)), Evaluate(Values(h, w), f.At(i)))
    ensures f.ResultOf(i).Some? ==> Typed(Evaluate(Values(h, w), f.At(i)), f.Type(f.ResultOf(i).value))
  {
    hide Apply, ApplyUnary, ApplyCast, Lookup;
    forall v ensures Typed(Values(h, w)(v), f.Type(v)) { assert ValueMatches(f, h, m, w, v); }
    EvaluateTyped(f, Values(h, w), i);
    match f.At(i)
    case Binary(_, l, r) => assert ValueMatches(f, h, m, w, l) && ValueMatches(f, h, m, w, r);
    case Unary(_, a) => assert ValueMatches(f, h, m, w, a);
    case Cast(_, a, _) => assert ValueMatches(f, h, m, w, a);
  }

  /** An instruction that stays produces a value where it did, no less defined. */
  lemma ProducedRefines(f: Function, s: Facts, g: Function, h: Function, world: World, m: Machine, w: Machine, i: InstId)
    requires WellFormed(f) && WorldTyped(f, world) && Described(f, s, m) && Rewritten(f, s, g, h) && Matches(f, s, h, m, w)
    requires Executable(f, s, i) && f.home[i] == m.block && !Folded(f, s, i) && !IsBranch(f.At(i))
    requires Produced(f, world, m, i).Some?
    ensures var (e, x) := (Produced(f, world, m, i), Produced(h, world, w, i));
      x.Some? && Refines(e.value, x.value) && (f.ResultOf(i).Some? ==> Typed(x.value, f.Type(f.ResultOf(i).value)))
  {
    hide BodyOk, HomeOk, UsersOk, Evaluate, Evaluable, IsReachable, Retained, Incoming, Lookup;
    var inst := f.At(i);
    assert InstOk(f, i) && h.At(i) == NewInst(f, g, s, i);
    if inst.Phi? {
      ReachableInPruned(f, s, g, m.prev.value, m.block);
      IncomingRetained(f, g, h, s, m, w, m.block, inst.args, m.prev.value);
      if f.ResultOf(i).Some? {
        RetainedTyped(f, g, h, s, m, w, m.block, inst.args, m.prev.value, f.Type(f.ResultOf(i).value));
      }
    } else if IsPure(inst) {
      EvaluateRefines(f, h, m, w, i);
    }
  }

  lemma {:induction false} RetainedTyped(f: Function, g: Function, h: Function, s: Facts, m: Machine, w: Machine, block: BlockId, args: seq<(ValueId, BlockId)>, prev: BlockId, width: nat)
    requires ValuesMatch(f, h, m, w) && forall k :: 0 <= k < |args| ==> f.Type(args[k].0) == width
    ensures Typed(Incoming(Values(h, w), Retained(g, s, block, args), prev), width)
    decreases |args|
  {
    hide IsReachable, Lookup;
    if args != [] {
      var rest := Retained(g, s, block, args[1..]);
      RetainedTyped(f, g, h, s, m, w, block, args[1..], prev, width);
      assert ValueMatches(f, h, m, w, args[0].0);
      if IsReachable(g, s, args[0].1, block) {
        assert Retained(g, s, block, args) == [args[0]] + rest && ([args[0]] + rest)[1..] == rest;
      } else {
        assert Retained(g, s, block, args) == rest;
      }
    }
  }

  // ----- one step

  /** The program counter of `w` is at the same instruction when it stays. */
  lemma SameInst(f: Function, s: Facts, g: Function, h: Function, m: Machine, w: Machine)
    requires WellFormed(f) && Rewritten(f, s, g, h) && Matches(f, s, h, m, w) && m.block in s.blocks
    requires m.at < |f.Body(m.block)| && !Folded(f, s, f.Body(m.block)[m.at])
    ensures w.at < |h.Body(w.block)| && h.Body(w.block)[w.at] == f.Body(m.block)[m.at]
    ensures Executable(f, s, f.Body(m.block)[m.at]) && f.home[f.Body(m.block)[m.at]] == m.block
  {
    hide HomeOk, InstOk, ValueOk, ValuesMatch, Folded;
    assert BodyOk(f, m.block) && PlacedAt(f, m.block, f.Body(m.block)[m.at]);
    KeptAt(f, s, f.Body(m.block), m.at);
  }

  /** Only pure instructions and phis fold. */
  lemma FoldedKind(f: Function, s: Facts, i: InstId)
    requires WellFormed(f) && Solved(f, s) && Folded(f, s, i)
    ensures IsPure(f.At(i)) || f.At(i).Phi?
  {
    hide BodyOk, HomeOk;
    assert InstOk(f, i) && CellTyped(f, s, f.ResultOf(i).value);
    assert Plain(f, i) ==> UpToDate(f, s, i);
  }

  lemma FoldedStep(f: Function, s: Facts, g: Function, h: Function, world: World, m: Machine, w: Machine)
    requires WellFormed(f) && Solved(f, s) && WorldTyped(f, world) && Described(f, s, m) && !Trips(f, s, m)
    requires Rewritten(f, s, g, h) && Matches(f, s, h, m, w)
    requires m.at < |f.Body(m.block)| && Folded(f, s, f.Body(m.block)[m.at])
    ensures var o := Step(f, world, m); !o.Returned? && (o.Running? ==> Matches(f, s, h, o.m, w))
  {
    hide HomeOk, Trips, Rewritten, IsReachable, Produced, CellsTyped, EventsRefine;
    var i := f.Body(m.block)[m.at];
    assert BodyOk(f, m.block) && PlacedAt(f, m.block, i) && InstOk(f, i);
    FoldedKind(f, s, i);
    var o := Step(f, world, m);
    if o.Running? {
      StepDescribed(f, s, world, m);
      KeptAt(f, s, f.Body(m.block), m.at);
      assert m.events + [] == m.events;
      var r := f.ResultOf(i).value;
      forall v ensures ValueMatches(f, h, o.m, w, v) {
        assert ValueMatches(f, h, m, w, v);
        LookupNew(f, s, g, h, w, v);
        assert v == r ==> ValueDescribed(f, s, o.m, v);
      }
    }
  }

  lemma TargetBranches(val: Valuation, inst: Inst)
    ensures Target(val, inst).Some? ==> IsBranch(inst)
  {
  }

  /** Both take the same branch. */
  lemma BranchTarget(f: Function, s: Facts, g: Function, h: Function, m: Machine, w: Machine, i: InstId)
    requires WellFormed(f) && Solved(f, s) && Described(f, s, m) && Rewritten(f, s, g, h) && Matches(f, s, h, m, w)
    requires i in f.Body(m.block) && Executable(f, s, i) && IsBranch(f.At(i)) && Target(Values(f, m), f.At(i)).Some?
    ensures IsBranch(h.At(i)) && Target(Values(h, w), h.At(i)) == Target(Values(f, m), f.At(i))
  {
    hide BodyOk, HomeOk, UpToDate, Target, Shrunk, Kept, IsReachable, Lookup, Described, CellsTyped, ArgsTop;
    assert InstOk(f, i);
    BranchDescribed(f, s, m, i);
    hide WellFormed, Solved;
    assert !Folded(f, s, i) && h.At(i) == Shrunk(f.At(i), Dead(f, s, i));
    forall v: ValueId ensures f.Data(v).Immediate? ==> Lookup(f, m, v) == Lookup(h, w, v) == Word(f.Data(v).imm)
      ensures Refines(Lookup(f, m, v), Lookup(h, w, v))
    {
      LookupNew(f, s, g, h, w, v);
      LookupImmediate(f, m, v);
      assert ValueMatches(f, h, m, w, v);
    }
    TargetKept(f, i, Values(f, m), Values(h, w), Dead(f, s, i));
    TargetBranches(Values(h, w), h.At(i));
  }

  lemma BothJump(f: Function, s: Facts, h: Function, m: Machine, w: Machine, d: BlockId)
    requires Matches(f, s, h, m, w)
    ensures Matches(f, s, h, JumpTo(m, d), JumpTo(w, d))
  {
    hide EventsRefine, Typed;
    var (n, p) := (JumpTo(m, d), JumpTo(w, d));
    forall v: ValueId ensures ValueMatches(f, h, n, p, v) { assert ValueMatches(f, h, m, w, v); }
    assert f.Body(d)[..0] == [];
  }

  lemma BranchStep(f: Function, s: Facts, g: Function, h: Function, world: World, m: Machine, w: Machine)
    requires WellFormed(f) && Solved(f, s) && Described(f, s, m)
    requires Rewritten(f, s, g, h) && Matches(f, s, h, m, w)
    requires m.at < |f.Body(m.block)| && IsBranch(f.At(f.Body(m.block)[m.at])) && Step(f, world, m).Running?
    ensures var p := Step(h, world, w); p.Running? && Matches(f, s, h, Step(f, world, m).m, p.m)
  {
    hide WellFormed, Solved, Rewritten, Matches, Target, Folded;
    var i := f.Body(m.block)[m.at];
    BranchStays(f, s, i);
    SameInst(f, s, g, h, m, w);
    BranchTarget(f, s, g, h, m, w, i);
    BothJump(f, s, h, m, w, Target(Values(f, m), f.At(i)).value);
  }

  lemma BranchStays(f: Function, s: Facts, i: InstId)
    requires WellFormed(f) && IsBranch(f.At(i))
    ensures !Folded(f, s, i)
  {
    if i in f.home { assert InstOk(f, i); }
  }

  lemma ObservedRefines(f: Function, s: Facts, g: Function, h: Function, m: Machine, w: Machine, i: InstId)
    requires Rewritten(f, s, g, h) && Matches(f, s, h, m, w) && Executable(f, s, i) && !Folded(f, s, i)
    ensures EventsRefine(m.events + Observed(f, m, i), w.events + Observed(h, w, i))
  {
    hide Lookup, Kept;
    assert h.At(i) == NewInst(f, g, s, i);
    if f.At(i).Effect? {
      var vs := f.At(i).operands;
      var (x, y) := (Event(i, Map(Values(f, m), vs)), Event(i, Map(Values(h, w), vs)));
      forall k | 0 <= k < |vs| ensures Refines(x.args[k], y.args[k]) { assert ValueMatches(f, h, m, w, vs[k]); }
      assert EventRefines(x, y);
    }
  }

  lemma KeptCell(f: Function, s: Facts, i: InstId, v: ValueId)
    requires Executable(f, s, i) && !Folded(f, s, i)
    ensures f.ResultOf(i) == Some(v) ==> !CellAt(s, v).Const?
  {
  }

  lemma KeptStep(f: Function, s: Facts, g: Function, h: Function, world: World, m: Machine, w: Machine)
    requires WellFormed(f) && Solved(f, s) && WorldTyped(f, world) && Described(f, s, m)
    requires Rewritten(f, s, g, h) && Matches(f, s, h, m, w)
    requires m.at < |f.Body(m.block)| && !IsBranch(f.At(f.Body(m.block)[m.at])) && !Folded(f, s, f.Body(m.block)[m.at])
    requires Step(f, world, m).Running?
    ensures var p := Step(h, world, w); p.Running? && Matches(f, s, h, Step(f, world, m).m, p.m)
  {
    hide HomeOk, UpToDate, Kept, IsReachable, Produced, Observed, EventsRefine, WellFormed, Solved, Folded;
    var i := f.Body(m.block)[m.at];
    SameInst(f, s, g, h, m, w);
    assert h.At(i) == NewInst(f, g, s, i);
    ProducedRefines(f, s, g, h, world, m, w, i);
    ObservedRefines(f, s, g, h, m, w, i);
    KeptAt(f, s, f.Body(m.block), m.at);
    var (n, p) := (Step(f, world, m).m, Step(h, world, w).m);
    forall v: ValueId ensures ValueMatches(f, h, n, p, v) {
      assert ValueMatches(f, h, m, w, v);
      LookupNew(f, s, g, h, w, v);
      LookupNew(f, s, g, h, p, v);
      KeptCell(f, s, i, v);
    }
  }

  lemma ReturnStep(f: Function, s: Facts, g: Function, h: Function, world: World, m: Machine, w: Machine)
    requires WellFormed(f) && Rewritten(f, s, g, h) && Matches(f, s, h, m, w) && m.block in s.blocks
    requires Step(f, world, m).Returned? && !Folded(f, s, f.Body(m.block)[m.at])
    ensures var (o, p) := (Step(f, world, m), Step(h, world, w));
      p.Returned? && Refines(o.value, p.value) && EventsRefine(o.events, p.events)
  {
    hide HomeOk, WellFormed, Kept, Produced, Target, EventsRefine, Folded;
    var i := f.Body(m.block)[m.at];
    SameInst(f, s, g, h, m, w);
    assert h.At(i) == NewInst(f, g, s, i);
    if f.At(i).Return? && f.At(i).ret.Some? { assert ValueMatches(f, h, m, w, f.At(i).ret.value); }
  }

  // ----- all runs

  /** After `j` steps `h` has returned what `o` says, or something defined where
      `o` is undefined, with effects alike. */
  ghost predicate ReturnsLike(h: Function, world: World, w: Machine, j: nat, o: Outcome)
    requires o.Returned?
  {
    var p := Run(h, world, w, j);
    p.Returned? && Refines(o.value, p.value) && EventsRefine(o.events, p.events)
  }

  lemma ReturnsNow(h: Function, world: World, w: Machine, o: Outcome)
    requires o.Returned? && var p := Step(h, world, w); p.Returned? && Refines(o.value, p.value) && EventsRefine(o.events, p.events)
    ensures ReturnsLike(h, world, w, 1, o)
  {
  }

  lemma ReturnsLater(h: Function, world: World, w: Machine, j: nat, o: Outcome)
    requires o.Returned? && Step(h, world, w).Running? && ReturnsLike(h, world, Step(h, world, w).m, j, o)
    ensures ReturnsLike(h, world, w, j + 1, o)
  {
    hide Step, EventsRefine;
  }

  lemma DescribedBlock(f: Function, s: Facts, m: Machine)
    requires Described(f, s, m)
    ensures m.block in s.blocks
  {
  }

  lemma {:induction false} RunMatches(f: Function, s: Facts, g: Function, h: Function, world: World, m: Machine, w: Machine, k: nat)
    returns (j: nat)
    requires WellFormed(f) && Solved(f, s) && WorldTyped(f, world) && Described(f, s, m) && NeverTrips(f, s, world, m, k)
    requires Rewritten(f, s, g, h) && Matches(f, s, h, m, w)
    requires Run(f, world, m, k).Returned?
    ensures j <= k && ReturnsLike(h, world, w, j, Run(f, world, m, k))
    decreases k
  {
    hide WellFormed, Solved, WorldTyped, Described, Rewritten, Matches, EventsRefine, Folded, Step, ReturnsLike, Trips, NeverTrips;
    var o := Step(f, world, m);
    RunSteps(f, world, m, k);
    NoTripNow(f, s, world, m, k);
    if o.Running? { NeverTripsLater(f, s, world, m, k); }
    DescribedBlock(f, s, m);
    if Folded(f, s, f.Body(m.block)[m.at]) {
      FoldedStep(f, s, g, h, world, m, w);
      StepDescribed(f, s, world, m);
      j := RunMatches(f, s, g, h, world, o.m, w, k - 1);
    } else if o.Returned? {
      ReturnStep(f, s, g, h, world, m, w);
      j := 1;
      ReturnsNow(h, world, w, o);
    } else {
      if IsBranch(f.At(f.Body(m.block)[m.at])) {
        BranchStep(f, s, g, h, world, m, w);
      } else {
        KeptStep(f, s, g, h, world, m, w);
      }
      StepDescribed(f, s, world, m);
      var p := Step(h, world, w).m;
      var rest := RunMatches(f, s, g, h, world, o.m, p, k - 1);
      j := rest + 1;
      ReturnsLater(h, world, w, rest, Run(f, world, o.m, k - 1));
    }
  }

  lemma NoTripNow(f: Function, s: Facts, world: World, m: Machine, k: nat)
    requires NeverTrips(f, s, world, m, k) && k > 0
    ensures !Trips(f, s, m)
  {
    assert !TripsAfter(f, s, world, m, 0);
  }

  lemma RunSteps(f: Function, world: World, m: Machine, k: nat)
    requires Run(f, world, m, k).Returned?
    ensures k > 0 && !Step(f, world, m).Panicked? && m.at < |f.Body(m.block)|
    ensures var o := Step(f, world, m); Run(f, world, m, k) == if o.Running? then Run(f, world, o.m, k - 1) else o
  {
  }

  /** The rewriting preserves meaning: whenever `f` returns without tripping, so
      does the rewritten function, with the same value unless `f` returned an
      undefined one, and with the same effects in the same order. */
  lemma MeaningPreserved(f: Function, turns: nat, g: Function, h: Function, actuals: seq<EvalValue>, world: World, k: nat)
    requires WellFormed(f) && Finished(Iterate(f, turns).facts)
    requires ActualsTyped(f, actuals) && WorldTyped(f, world)
    requires NeverTrips(f, Iterate(f, turns).facts, world, Start(f, actuals), k)
    requires Rewritten(f, Iterate(f, turns).facts, g, h) && |h.args| == |actuals|
    requires Run(f, world, Start(f, actuals), k).Returned?
    ensures exists j: nat {:trigger ReturnsLike(h, world, Start(h, actuals), j, Run(f, world, Start(f, actuals), k))} ::
      j <= k && ReturnsLike(h, world, Start(h, actuals), j, Run(f, world, Start(f, actuals), k))
  {
    hide WellFormed, Solved, WorldTyped, Described, Rewritten, Matches, Iterate, Finished, Run, Step, ReturnsLike, NeverTrips;
    var s := Iterate(f, turns).facts;
    SolvedWhenFinished(f, turns);
    StartDescribed(f, s, actuals);
    StartMatches(f, s, g, h, actuals);
    var j := RunMatches(f, s, g, h, world, Start(f, actuals), Start(h, actuals), k);
  }

  // ----- the rewriting, step by step

  lemma ShrunkRelevant(inst: Inst, x: set<BlockId>, y: set<BlockId>)
    requires forall d :: d in Dests(inst) ==> (d in x <==> d in y)
    ensures Shrunk(inst, x) == Shrunk(inst, y)
  {
    if inst.BrTable? { WithoutRelevant(inst.table, x, y); }
  }

  lemma ShrunkOther(inst: Inst)
    ensures !IsBranch(inst) ==> forall gone {:trigger Shrunk(inst, gone)} :: Shrunk(inst, gone) == inst
  {
  }

  lemma {:induction false} WithoutRelevant(table: seq<(ValueId, BlockId)>, x: set<BlockId>, y: set<BlockId>)
    requires forall d :: d in Second(table) ==> (d in x <==> d in y)
    ensures Without(table, x) == Without(table, y)
  {
    if table != [] {
      assert Second(table) == [table[0].1] + Second(table[1..]);
      WithoutRelevant(table[1..], x, y);
    }
  }

  function WithInst(f: Function, i: InstId, inst: Inst): Function {
    f.(insts := f.insts[i := inst])
  }

  ghost predicate SameBut(f: Function, g: Function) {
    g.args == f.args && g.entry == f.entry && g.values == f.values && g.results == f.results && g.types == f.types && g.home == f.home
  }

  /** The blocks of `g` are those of `f` that are not gone. */
  ghost predicate BlocksLeft(f: Function, g: Function, gone: set<BlockId>) {
    (forall c :: c in g.layout <==> c in f.layout && c !in gone) && (forall c :: c in g.layout ==> g.Body(c) == f.Body(c))
  }

  /** The executable branches have lost `gone`, in the blocks of `done` all of their dead destinations. */
  ghost predicate Progress(f: Function, s: Facts, g: Function, gone: set<BlockId>, done: set<BlockId>) {
    && SameBut(f, g)
    && (forall i {:trigger g.At(i)} :: Executable(f, s, i) ==>
          g.At(i) == Shrunk(f.At(i), if f.home[i] in done then Dead(f, s, i) else gone))
  }

  /** `CfgEditor::remove_succ` on the terminator of `p`. */
  function CutEdge(g: Function, p: BlockId, b: BlockId): Function {
    if g.LastInst(p).None? then g else WithInst(g, g.LastInst(p).value, RemoveSucc(g.At(g.LastInst(p).value), b))
  }

  /** Between deleting blocks: the edges into `b` are cut in the blocks of `cut`. */
  ghost predicate Cutting(f: Function, s: Facts, g: Function, gone: set<BlockId>, b: BlockId, cut: set<BlockId>) {
    && SameBut(f, g)
    && (forall i {:trigger g.At(i)} :: Executable(f, s, i) ==>
          g.At(i) == Shrunk(f.At(i), if f.home[i] in cut then gone + {b} else gone))
  }

  lemma CutShrinks(f: Function, s: Facts, g: Function, gone: set<BlockId>, b: BlockId, cut: set<BlockId>, p: BlockId)
    requires WellFormed(f) && Cutting(f, s, g, gone, b, cut) && g.Body(p) == f.Body(p) && p !in cut
    ensures Cutting(f, s, CutEdge(g, p, b), gone, b, cut + {p})
    ensures CutEdge(g, p, b).layout == g.layout
  {
    hide IsBranch, Shrunk, RemoveSucc, WellFormed;
    var h := CutEdge(g, p, b);
    forall i {:trigger h.At(i)} | Executable(f, s, i)
      ensures h.At(i) == Shrunk(f.At(i), if f.home[i] in cut + {p} then gone + {b} else gone)
    {
      assert g.At(i) == Shrunk(f.At(i), if f.home[i] in cut then gone + {b} else gone);
      if g.LastInst(p) == Some(i) {
        PlacedOf(f, p, i);
        ShrunkStep(f.At(i), gone, b);
      } else if f.home[i] == p {
        OnlyLastBranches(f, i);
        ShrunkOther(f.At(i));
      }
    }
  }

  lemma NoneCut(f: Function, s: Facts, g: Function, gone: set<BlockId>, b: BlockId)
    requires Progress(f, s, g, gone, {})
    ensures Cutting(f, s, g, gone, b, {})
  {
    hide Shrunk;
  }

  /** `CfgEditor::delete_block_unreachable`: cut the edges into `b`, then drop it. */
  method DeleteBlock(f: Function, s: Facts, g0: Function, b: BlockId, ghost gone: set<BlockId>) returns (g: Function)
    requires WellFormed(f) && Progress(f, s, g0, gone, {}) && b !in s.blocks
    requires BlocksLeft(f, g0, gone) && gone !! s.blocks
    ensures Progress(f, s, g, gone + {b}, {}) && BlocksLeft(f, g, gone + {b})
  {
    hide WellFormed, CutEdge, Shrunk;
    NoneCut(f, s, g0, gone, b);
    g := g0;
    var preds := g0.layout.Keys;
    ghost var cut: set<BlockId> := {};
    while preds != {}
      invariant g.layout == g0.layout && cut == g0.layout.Keys - preds && preds <= g0.layout.Keys
      invariant Cutting(f, s, g, gone, b, cut)
      decreases |preds|
    {
      var p: BlockId :| p in preds;
      preds := preds - {p};
      assert g0.Body(p) == f.Body(p);
      CutShrinks(f, s, g, gone, b, cut, p);
      g := CutEdge(g, p, b);
      cut := cut + {p};
    }
    BlockDropped(f, s, g, gone, b, cut);
    g := g.(layout := g.layout - {b});
  }

  lemma BlockDropped(f: Function, s: Facts, g: Function, gone: set<BlockId>, b: BlockId, cut: set<BlockId>)
    requires WellFormed(f) && Cutting(f, s, g, gone, b, cut) && BlocksLeft(f, g, gone) && cut == g.layout.Keys && b !in s.blocks && gone !! s.blocks
    ensures var h := g.(layout := g.layout - {b}); Progress(f, s, h, gone + {b}, {}) && BlocksLeft(f, h, gone + {b})
  {
    hide InstOk, ValueOk, BodyOk, Shrunk;
    var h := g.(layout := g.layout - {b});
    forall i: InstId | Executable(f, s, i) ensures h.At(i) == Shrunk(f.At(i), gone + {b}) {
      assert HomeOk(f, i) && g.At(i) == Shrunk(f.At(i), if f.home[i] in cut then gone + {b} else gone);
    }
  }

  lemma OnlyLastBranches(f: Function, i: InstId)
    requires WellFormed(f) && i in f.home && f.LastInst(f.home[i]) != Some(i)
    ensures !IsBranch(f.At(i))
  {
    assert HomeOk(f, i) && BodyOk(f, f.home[i]) && PlacedAt(f, f.home[i], i);
  }

  /** Removes the dead destinations of the terminator of `b`, one at a time. */
  method PruneBlock(f: Function, s: Facts, g0: Function, b: BlockId, ghost gone: set<BlockId>, ghost done: set<BlockId>) returns (g: Function)
    requires WellFormed(f) && Progress(f, s, g0, gone, done) && g0.Body(b) == f.Body(b)
    requires b in s.blocks && b !in done
    requires forall i, d :: d in gone ==> FlowEdge(i, d) !in s.edges
    ensures Progress(f, s, g, gone, done + {b}) && g.layout == g0.layout
  {
    hide InstOk, ValueOk, HomeOk, RemoveSucc, Shrunk, Dests;
    g := g0;
    if g0.LastInst(b).Some? {
      var last := g0.LastInst(b).value;
      assert BodyOk(f, b) && PlacedAt(f, b, last) && Executable(f, s, last);
      var ds, k := Dests(g0.At(last)), 0;
      var inst := g0.At(last);
      ghost var cut := gone;
      ShrunkDests(f.At(last), gone);
      while k < |ds|
        invariant 0 <= k <= |ds| && inst == Shrunk(f.At(last), cut)
        invariant forall d :: d in cut ==> FlowEdge(last, d) !in s.edges
        invariant gone <= cut && forall d :: d in ds[..k] && FlowEdge(last, d) !in s.edges ==> d in cut
      {
        if FlowEdge(last, ds[k]) !in s.edges {
          ShrunkStep(f.At(last), cut, ds[k]);
          inst := RemoveSucc(inst, ds[k]);
          cut := cut + {ds[k]};
        }
        k := k + 1;
      }
      assert ds[..k] == ds;
      ShrunkRelevant(f.At(last), cut, Dead(f, s, last));
      g := WithInst(g, last, inst);
    }
    PrunedBlock(f, s, g0, g, b, gone, done);
  }

  lemma PrunedBlock(f: Function, s: Facts, g0: Function, g: Function, b: BlockId, gone: set<BlockId>, done: set<BlockId>)
    requires WellFormed(f) && Progress(f, s, g0, gone, done) && g0.Body(b) == f.Body(b)
    requires f.LastInst(b).None? ==> g == g0
    requires f.LastInst(b).Some? ==> var last := f.LastInst(b).value; g == WithInst(g0, last, Shrunk(f.At(last), Dead(f, s, last)))
    ensures Progress(f, s, g, gone, done + {b})
  {
    hide InstOk, ValueOk, HomeOk, WellFormed, Shrunk, Dead;
    forall i {:trigger g.At(i)} | Executable(f, s, i)
      ensures g.At(i) == Shrunk(f.At(i), if f.home[i] in done + {b} then Dead(f, s, i) else gone)
    {
      assert g0.At(i) == Shrunk(f.At(i), if f.home[i] in done then Dead(f, s, i) else gone);
      if f.LastInst(b) == Some(i) {
        PlacedOf(f, b, i);
      } else if f.home[i] == b {
        OnlyLastBranches(f, i);
        ShrunkOther(f.At(i));
      }
    }
  }

  lemma NothingGone(f: Function, s: Facts)
    ensures Progress(f, s, f, {}, {})
  {
    forall i ensures f.At(i) == Shrunk(f.At(i), {}) {}
  }

  method DeleteUnreachable(f: Function, s: Facts) returns (g: Function, ghost gone: set<BlockId>)
    requires WellFormed(f)
    ensures gone == f.layout.Keys - s.blocks && BlocksLeft(f, g, gone) && Progress(f, s, g, gone, {})
  {
    hide WellFormed, Progress;
    g, gone := f, {};
    NothingGone(f, s);
    var todo := f.layout.Keys - s.blocks;
    while todo != {}
      invariant todo <= f.layout.Keys - s.blocks && gone == f.layout.Keys - s.blocks - todo
      invariant Progress(f, s, g, gone, {}) && BlocksLeft(f, g, gone)
      decreases |todo|
    {
      var b: BlockId :| b in todo;
      todo := todo - {b};
      g := DeleteBlock(f, s, g, b, gone);
      gone := gone + {b};
    }
  }

  /** `SccpSolver::remove_unreachable_edges`. */
  method RemoveUnreachableEdges(f: Function, s: Facts) returns (g: Function)
    requires WellFormed(f) && EdgesOk(f, s)
    ensures Pruned(f, s, g)
  {
    hide HomeOk, Shrunk, Dead, WellFormed, Progress;
    ghost var gone: set<BlockId>;
    g, gone := DeleteUnreachable(f, s);
    var todo := g.layout.Keys;
    ghost var done: set<BlockId> := {};
    while todo != {}
      invariant todo <= g.layout.Keys && done == g.layout.Keys - todo
      invariant Progress(f, s, g, gone, done) && BlocksLeft(f, g, gone)
      decreases |todo|
    {
      var b: BlockId :| b in todo;
      todo := todo - {b};
      g := PruneBlock(f, s, g, b, gone, done);
      done := done + {b};
    }
    AllPruned(f, s, g, gone, done);
  }

  lemma AllPruned(f: Function, s: Facts, g: Function, gone: set<BlockId>, done: set<BlockId>)
    requires WellFormed(f) && Progress(f, s, g, gone, done)
    requires gone == f.layout.Keys - s.blocks && BlocksLeft(f, g, gone) && done == g.layout.Keys
    ensures Pruned(f, s, g)
  {
    hide Shrunk, Dead, InstOk, ValueOk, BodyOk;
    forall i {:trigger g.At(i)} | Executable(f, s, i) ensures g.At(i) == Shrunk(f.At(i), Dead(f, s, i)) {
      assert HomeOk(f, i);
    }
  }

  /** While folding: the instructions of `seen` have been dealt with. */
  ghost predicate Folding(f: Function, s: Facts, g: Function, h: Function, seen: set<InstId>) {
    && h.args == f.args && h.entry == f.entry && h.results == f.results && h.types == f.types
    && (forall v {:trigger h.Data(v)} :: h.Data(v) ==
          if f.Data(v).Result? && f.Data(v).inst in seen then NewData(f, s, v) else f.Data(v))
    && (forall i {:trigger h.At(i)} :: i in seen && !Folded(f, s, i) && f.At(i).Phi? ==> h.At(i) == NewInst(f, g, s, i))
    && (forall i {:trigger h.At(i)} :: (i !in seen || !f.At(i).Phi?) ==> h.At(i) == g.At(i))
  }

  lemma ResultUnique(f: Function, s: Facts, i: InstId, v: ValueId)
    requires WellFormed(f) && f.Data(v) == Result(i)
    ensures f.ResultOf(i) == Some(v)
  {
    assert ValueOk(f, v);
  }

  lemma ConstFolds(f: Function, s: Facts, g: Function, h: Function, i: InstId, seen: set<InstId>)
    requires WellFormed(f) && Folding(f, s, g, h, seen) && Folded(f, s, i) && i !in seen
    ensures var r := f.ResultOf(i).value;
      Folding(f, s, g, h.(values := h.values[r := Immediate(CellAt(s, r).imm)]), seen + {i})
  {
    hide WellFormed;
    var r := f.ResultOf(i).value;
    var w := h.(values := h.values[r := Immediate(CellAt(s, r).imm)]);
    InstOf(f, i);
    forall v: ValueId ensures w.Data(v) == if f.Data(v).Result? && f.Data(v).inst in seen + {i} then NewData(f, s, v) else f.Data(v) {
      assert h.Data(v) == if f.Data(v).Result? && f.Data(v).inst in seen then NewData(f, s, v) else f.Data(v);
      if f.Data(v) == Result(i) { ResultUnique(f, s, i, v); }
    }
    forall j: InstId ensures w.At(j) == h.At(j) {}
  }

  lemma PhiFolds(f: Function, s: Facts, g: Function, h: Function, i: InstId, seen: set<InstId>)
    requires WellFormed(f) && Folding(f, s, g, h, seen) && !Folded(f, s, i) && i !in seen && Executable(f, s, i)
    ensures !f.At(i).Phi? ==> Folding(f, s, g, h, seen + {i})
    ensures f.At(i).Phi? ==> Folding(f, s, g, WithInst(h, i, NewInst(f, g, s, i)), seen + {i})
  {
    hide WellFormed, NewInst;
    var w := if f.At(i).Phi? then WithInst(h, i, NewInst(f, g, s, i)) else h;
    forall v: ValueId ensures w.Data(v) == if f.Data(v).Result? && f.Data(v).inst in seen + {i} then NewData(f, s, v) else f.Data(v) {
      assert h.Data(v) == if f.Data(v).Result? && f.Data(v).inst in seen then NewData(f, s, v) else f.Data(v);
      if f.Data(v) == Result(i) { ResultUnique(f, s, i, v); }
    }
    forall j: InstId ensures w.At(j) == if j == i && f.At(i).Phi? then NewInst(f, g, s, i) else h.At(j) {}
  }

  /** `SccpSolver::fold` on one instruction: a constant result takes the place of
      the instruction, a phi drops the incoming values of dead edges. */
  method FoldInst(f: Function, s: Facts, g: Function, h0: Function, i: InstId, ghost seen: set<InstId>) returns (h: Function, keep: bool)
    requires WellFormed(f) && Pruned(f, s, g) && Folding(f, s, g, h0, seen) && Executable(f, s, i) && i !in seen
    ensures Folding(f, s, g, h, seen + {i}) && h.layout == h0.layout && (keep <==> !Folded(f, s, i))
  {
    hide WellFormed, Retained;
    h, keep := h0, true;
    if f.ResultOf(i).Some? && CellAt(s, f.ResultOf(i).value).Const? {
      var r := f.ResultOf(i).value;
      h, keep := h.(values := h.values[r := Immediate(CellAt(s, r).imm)]), false;
      ConstFolds(f, s, g, h0, i, seen);
    } else {
      PhiFolds(f, s, g, h0, i, seen);
      if f.At(i).Phi? {
        assert g.At(i) == Shrunk(f.At(i), Dead(f, s, i)) && h0.At(i) == g.At(i);
        h := WithInst(h, i, Phi(Retained(g, s, Home(f, i), h.At(i).args)));
      }
    }
  }

  lemma PrunedLayout(f: Function, s: Facts, g: Function, b: BlockId)
    requires Pruned(f, s, g) && b in g.layout
    ensures b in s.blocks
  {
  }

  /** Folds the instructions of one block. */
  method FoldBlock(f: Function, s: Facts, g: Function, h0: Function, b: BlockId, ghost seen: set<InstId>) returns (h: Function)
    requires WellFormed(f) && Pruned(f, s, g) && Folding(f, s, g, h0, seen) && b in g.layout
    requires forall i :: i in seen ==> i in f.home && f.home[i] != b
    requires PlacedOnce(f)
    ensures Folding(f, s, g, h, seen + (set i | i in f.Body(b)))
    ensures h.layout == h0.layout[b := Kept(f, s, f.Body(b))]
  {
    hide Folding, Pruned, InstOk, HomeOk, ValueOk, Folded;
    var body := f.Body(b);
    var stay: seq<InstId>, k := [], 0;
    ghost var here: set<InstId> := {};
    h := h0;
    assert body[..0] == [];
    assert seen + here == seen;
    PrunedLayout(f, s, g, b);
    while k < |body|
      invariant 0 <= k <= |body| && stay == Kept(f, s, body[..k]) && h.layout == h0.layout
      invariant here == (set i | i in body[..k]) && Folding(f, s, g, h, seen + here)
    {
      assert BodyOk(f, b) && PlacedAt(f, b, body[k]);
      KeptAt(f, s, body, k);
      var keep: bool;
      h, keep := FoldInst(f, s, g, h, body[k], seen + here);
      if keep { stay := stay + [body[k]]; }
      assert body[..k + 1] == body[..k] + [body[k]];
      here := here + {body[k]};
      assert seen + here == seen + (here - {body[k]}) + {body[k]};
      k := k + 1;
    }
    assert body[..k] == body;
    ghost var before := h;
    h := h.(layout := h.layout[b := stay]);
    SameFolding(f, s, g, before, h, seen + here);
    assert seen + here == seen + set i | i in f.Body(b);
  }

  lemma SameFolding(f: Function, s: Facts, g: Function, h: Function, w: Function, seen: set<InstId>)
    requires Folding(f, s, g, h, seen) && w == h.(layout := w.layout)
    ensures Folding(f, s, g, w, seen)
  {
    forall i ensures w.At(i) == h.At(i) {}
    forall v ensures w.Data(v) == h.Data(v) {}
  }

  /** `SccpSolver::fold_insts`. */
  method FoldInsts(f: Function, s: Facts, g: Function) returns (h: Function)
    requires WellFormed(f) && Pruned(f, s, g)
    requires PlacedOnce(f) && EdgesOk(f, s)
    ensures Rewritten(f, s, g, h) && Tidy(f, s, h)
  {
    hide WellFormed, Folding, InstOk, Kept, Tidy, EdgesOk;
    h := g;
    FoldingStarts(f, s, g);
    var todo := g.layout.Keys;
    ghost var seen: set<InstId> := {};
    while todo != {}
      invariant todo <= g.layout.Keys == h.layout.Keys && Folding(f, s, g, h, seen)
      invariant forall i :: i in seen ==> i in f.home && f.home[i] in g.layout && f.home[i] !in todo
      invariant forall i {:trigger i in seen} :: i in f.home && f.home[i] in g.layout && f.home[i] !in todo ==> i in seen
      invariant forall b :: b in g.layout && b !in todo ==> h.Body(b) == Kept(f, s, f.Body(b))
      decreases |todo|
    {
      var b: BlockId :| b in todo;
      todo := todo - {b};
      h := FoldBlock(f, s, g, h, b, seen);
      BodyIsHome(f, b);
      seen := seen + set i | i in f.Body(b);
    }
    FoldingEnds(f, s, g, h, seen);
    RewrittenTidy(f, s, g, h);
  }

  lemma BodyIsHome(f: Function, b: BlockId)
    requires WellFormed(f)
    ensures forall i :: i in f.Body(b) <==> i in f.home && f.home[i] == b
  {
    hide InstOk, ValueOk;
    assert BodyOk(f, b);
    forall i ensures i in f.Body(b) <==> i in f.home && f.home[i] == b {
      if i in f.Body(b) { assert PlacedAt(f, b, i); }
      if i in f.home && f.home[i] == b { assert HomeOk(f, i); }
    }
  }

  lemma FoldingStarts(f: Function, s: Facts, g: Function)
    requires Pruned(f, s, g)
    ensures Folding(f, s, g, g, {})
  {
    forall v: ValueId ensures g.Data(v) == f.Data(v) {}
  }

  lemma FoldingEnds(f: Function, s: Facts, g: Function, h: Function, seen: set<InstId>)
    requires WellFormed(f) && Pruned(f, s, g) && Folding(f, s, g, h, seen) && h.layout.Keys == g.layout.Keys
    requires forall b :: b in g.layout ==> h.Body(b) == Kept(f, s, f.Body(b))
    requires forall i :: i in seen ==> i in f.home && f.home[i] in g.layout
    requires forall i {:trigger i in seen} :: i in f.home && f.home[i] in g.layout ==> i in seen
    ensures Rewritten(f, s, g, h)
  {
    hide InstOk, ValueOk, BodyOk, Kept, Retained, Shrunk;
    forall i ensures Executable(f, s, i) <==> i in seen {
      if Executable(f, s, i) { assert HomeOk(f, i); }
    }
    forall v: ValueId ensures h.Data(v) == NewData(f, s, v) {
      assert h.Data(v) == if f.Data(v).Result? && f.Data(v).inst in seen then NewData(f, s, v) else f.Data(v);
    }
    forall i: InstId | Executable(f, s, i) && !Folded(f, s, i) ensures h.At(i) == NewInst(f, g, s, i) {
      assert g.At(i) == Shrunk(f.At(i), Dead(f, s, i));
    }
  }

  // ----- the whole pass

  lemma {:induction false} PushAllEdges(s: Facts, i: InstId, ds: seq<BlockId>)
    ensures PushAll(s, i, ds).edges == s.edges && PushAll(s, i, ds).blocks == s.blocks
    decreases |ds|
  {
    if ds != [] { PushAllEdges(PushFlow(s, FlowEdge(i, ds[0])), i, ds[1..]); }
  }

  lemma OneKeepsEdges(f: Function, s: Facts, i: InstId)
    ensures AfterOne(f, s, i).edges == s.edges && AfterOne(f, s, i).blocks == s.blocks
  {
    hide Demand, EvalCell, EvalUndef, PhiCell, UndefArgs, SetCell, SetUndef, PushAll;
    PushAllEdges(s, i, Demand(f, s, f.At(i)));
    if f.ResultOf(i).Some? {
      var r := f.ResultOf(i).value;
      SetKeepsEdges(s, r, Top);
      SetKeepsEdges(s, r, if f.At(i).Phi? then PhiCell(f, s, i) else EvalCell(f, s, f.At(i)));
    }
  }

  lemma SetKeepsEdges(s: Facts, v: ValueId, c: Cell)
    ensures var t := SetCell(s, v, c); t.edges == s.edges && t.blocks == s.blocks
    ensures forall u: bool {:trigger SetUndef(SetCell(s, v, c), v, u)} ::
      var t := SetUndef(SetCell(s, v, c), v, u); t.edges == s.edges && t.blocks == s.blocks
  {
  }

  lemma {:induction false} ListKeepsEdges(f: Function, s: Facts, insts: seq<InstId>)
    ensures AfterAll(f, s, insts).edges == s.edges && AfterAll(f, s, insts).blocks == s.blocks
    ensures AfterPhis(f, s, insts).edges == s.edges && AfterPhis(f, s, insts).blocks == s.blocks
    ensures AfterUsers(f, s, insts).edges == s.edges && AfterUsers(f, s, insts).blocks == s.blocks
    decreases |insts|
  {
    hide AfterPhi, AfterInst;
    if insts != [] {
      OneKeepsEdges(f, s, insts[0]);
      ListKeepsEdges(f, AfterOne(f, s, insts[0]), insts[1..]);
      ListKeepsEdges(f, s, insts[1..]);
    }
  }

  /** Executable edges lead into executable blocks, whichever rules fire. */
  lemma {:induction false} TurnsKeepEdges(f: Function, n: nat)
    ensures EdgesOk(f, Iterate(f, n).facts)
    decreases n
  {
    hide AfterAll, AfterPhis, AfterUsers;
    if n == 0 {
      ListKeepsEdges(f, Facts(TopArgs(f.args, map[]), map[], {}, {f.entry}, [], [], {}, {}), f.Body(f.entry));
    } else {
      TurnsKeepEdges(f, n - 1);
      var c := Iterate(f, n - 1);
      var s := c.facts;
      if c.ssaTurn && s.ssa != [] { ListKeepsEdges(f, PopSsa(s), f.Users(s.ssa[|s.ssa| - 1])); }
      if !c.ssaTurn && s.flow != [] {
        var (e, t) := (s.flow[|s.flow| - 1], WithEdge(s));
        ListKeepsEdges(f, t, f.Body(e.to));
        ListKeepsEdges(f, t.(blocks := s.blocks), f.Body(e.to));
      }
    }
  }

  /** With these arguments and this outside, `h` returns like `f` when `f` returns
      within `k` steps. */
  ghost predicate RunKept(f: Function, h: Function, actuals: seq<EvalValue>, world: World, k: nat)
    requires |actuals| == |f.args| == |h.args|
  {
    var o := Run(f, world, Start(f, actuals), k);
    o.Returned? ==> exists j: nat {:trigger ReturnsLike(h, world, Start(h, actuals), j, o)} :: j <= k && ReturnsLike(h, world, Start(h, actuals), j, o)
  }

  ghost predicate KeepsMeaning(f: Function, h: Function) {
    && |h.args| == |f.args|
    && forall actuals, world, k: nat {:trigger RunKept(f, h, actuals, world, k)} ::
         ActualsTyped(f, actuals) && WorldTyped(f, world) ==> RunKept(f, h, actuals, world, k)
  }

  /** One run that returns another word is enough to lose the meaning. */
  lemma MeaningLost(f: Function, h: Function, actuals: seq<EvalValue>, world: World, k: nat, x: Imm)
    requires |actuals| == |f.args| && ActualsTyped(f, actuals) && WorldTyped(f, world)
    requires var o := Run(f, world, Start(f, actuals), k); o.Returned? && o.value.Word? && o.value.imm != x
    requires |h.args| == |f.args| ==> forall j: nat {:trigger Run(h, world, Start(h, actuals), j)} ::
      var p := Run(h, world, Start(h, actuals), j); p.Returned? ==> p.value == Word(x)
    ensures !KeepsMeaning(f, h)
  {
    hide ActualsTyped, WorldTyped, Run, EventsRefine;
    assert |h.args| == |f.args| ==> !RunKept(f, h, actuals, world, k);
  }

  lemma RewrittenKeepsMeaning(f: Function, turns: nat, g: Function, h: Function)
    requires WellFormed(f) && Finished(Iterate(f, turns).facts) && AllTrusted(f, Iterate(f, turns).facts)
    requires Rewritten(f, Iterate(f, turns).facts, g, h)
    ensures KeepsMeaning(f, h)
  {
    assert |h.args| == |f.args|;
    var s := Iterate(f, turns).facts;
    hide WellFormed, AllTrusted, Finished, Iterate, Rewritten, WorldTyped, Run, ReturnsLike, NeverTrips, Solved, Described;
    SolvedWhenFinished(f, turns);
    forall actuals, world: World, k: nat | ActualsTyped(f, actuals) && WorldTyped(f, world) ensures RunKept(f, h, actuals, world, k) {
      StartDescribed(f, s, actuals);
      TrustedRun(f, s, world, Start(f, actuals), k);
      if Run(f, world, Start(f, actuals), k).Returned? { MeaningPreserved(f, turns, g, h, actuals, world, k); }
    }
  }

  /** `h` is `f` rewritten by the facts after some turns, which leave both
      worklists empty: its graph and its phis are what the facts leave of those of
      `f`, and it means what `f` means if the facts can be trusted. */
  ghost predicate Propagated(f: Function, h: Function, turns: nat) {
    && Finished(Iterate(f, turns).facts)
    && (exists g: Function {:trigger Rewritten(f, Iterate(f, turns).facts, g, h)} :: Rewritten(f, Iterate(f, turns).facts, g, h))
    && Tidy(f, Iterate(f, turns).facts, h)
    && (AllTrusted(f, Iterate(f, turns).facts) ==> KeepsMeaning(f, h))
  }

  /** The whole pass, cut off after `fuel` turns of the solver. */
  method PropagateConstants(f: Function, fuel: nat) returns (done: bool, h: Function)
    requires WellFormed(f) && PlacedOnce(f)
    ensures done ==> exists turns: nat {:trigger Propagated(f, h, turns)} :: turns <= fuel && Propagated(f, h, turns)
    ensures !done ==> h == f && !Finished(Iterate(f, fuel).facts)
  {
    hide WellFormed, AllTrusted, Rewritten, Pruned, EdgesOk, Iterate, KeepsMeaning, Tidy;
    var solver := new SccpSolver();
    ghost var turns;
    done, turns := solver.Solve(f, fuel);
    h := f;
    if done {
      TurnsKeepEdges(f, turns);
      var g := RemoveUnreachableEdges(f, solver.View());
      h := FoldInsts(f, solver.View(), g);
      assert Rewritten(f, Iterate(f, turns).facts, g, h);
      if AllTrusted(f, Iterate(f, turns).facts) { RewrittenKeepsMeaning(f, turns, g, h); }
      assert Propagated(f, h, turns);
    }
  }
}
