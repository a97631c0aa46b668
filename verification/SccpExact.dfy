/**
 Constant propagation claims no less than it can: what is found executable is
 demanded by what is known, known operands give the interpreter's result, the
 algebraic rules fire, and every block of the rewritten function is reached
 (crates/codegen/src/optim/sccp.rs:162-330, sccp_simplify.rs).
 */
module SccpExact {
  import opened Options
  import opened Words
  import opened Ir
  import opened Sccps
  import opened SccpSound
  import opened SccpFold
  import opened SccpSsa
  import Graphs

  // ----- branches demand what they can take

  /** Each value is undefined or what its cell says. */
  ghost predicate Covering(f: Function, s: Facts, val: Valuation) {
    forall v: ValueId {:trigger val(v)} :: Holds(CellOf(f, s, v), val(v)) && (f.Data(v).Immediate? ==> val(v) == Word(f.Data(v).imm))
  }

  /** What a branch looks at. */
  function Condition(inst: Inst): Option<ValueId> {
    match inst
    case Br(c, _, _) => Some(c)
    case BrTable(v, _, _) => Some(v)
    case _ => None
  }

  lemma {:induction false} TableDemandIsTarget(f: Function, s: Facts, val: Valuation, c: Imm, table: seq<(ValueId, BlockId)>, default: Option<BlockId>, d: BlockId)
    requires Covering(f, s, val) && forall k :: 0 <= k < |table| ==> f.Data(table[k].0).Immediate?
    requires d in TableDemand(f, s, c, table, default)
    ensures var hit := TableTarget(val, c, table); (if hit.Some? then hit else default) == Some(d)
    decreases |table|
  {
    if table != [] {
      var v := table[0].0;
      assert val(v) == Word(f.Data(v).imm);
      if f.Data(v).imm != c { TableDemandIsTarget(f, s, val, c, table[1..], default, d); }
    }
  }

  /** A branch on a known condition demands nothing but where it goes. */
  lemma DemandIsTarget(f: Function, s: Facts, i: InstId, val: Valuation, d: BlockId)
    requires TypeOk(f, i) && d in Demand(f, s, f.At(i)) && Covering(f, s, val)
    requires var c := Condition(f.At(i)); c.Some? ==> CellOf(f, s, c.value).Const? && val(c.value).Word?
    ensures Target(val, f.At(i)) == Some(d)
  {
    match f.At(i)
    case Br(c, _, _) => assert Holds(CellOf(f, s, c), val(c));
    case BrTable(v, default, table) =>
      assert Holds(CellOf(f, s, v), val(v));
      TableDemandIsTarget(f, s, val, val(v).imm, table, default, d);
    case _ =>
  }

  /** A branch on a condition that varies can go both ways. */
  lemma VaryingGoesBothWays(f: Function, s: Facts, inst: Inst, d: BlockId) returns (val: Valuation)
    requires inst.Br? && CellOf(f, s, inst.cond).Top? && f.Type(inst.cond) > 0 && d in Dests(inst)
    ensures d in Demand(f, s, inst)
    ensures Covering(f, s, val) && Typed(val(inst.cond), f.Type(inst.cond)) && Target(val, inst) == Some(d)
  {
    var (w, c) := (f.Type(inst.cond), inst.cond);
    var x := Word(if d == inst.nzDest then One(w) else Zero(w));
    var known := CellValues(f, s);
    val := (v: ValueId) => if v == c then x else known(v);
    assert val(c) == x && Pow2(w) >= 2;
    forall v: ValueId ensures Holds(CellOf(f, s, v), val(v)) && (f.Data(v).Immediate? ==> val(v) == Word(f.Data(v).imm)) {}
  }

  /** A table on a varying value demands all its destinations, and nothing is
      demanded of a condition without a value. */
  lemma DemandBounds(f: Function, s: Facts, inst: Inst, d: BlockId)
    requires Condition(inst).Some?
    ensures CellOf(f, s, Condition(inst).value).Top? ==> (d in Demand(f, s, inst) <==> d in Dests(inst))
    ensures CellOf(f, s, Condition(inst).value).Bot? ==> d !in Demand(f, s, inst)
  {
  }

  /** In SSA form the executable edges at the end are those of executable branches
      that the final cells demand, and they lead to all executable blocks. */
  lemma EdgesAreDemanded(f: Function, n: nat)
    requires WellFormed(f) && SsaForm(f) && Finished(Iterate(f, n).facts)
    ensures var s := Iterate(f, n).facts;
      && (forall i: InstId, d {:trigger FlowEdge(i, d)} ::
            FlowEdge(i, d) in s.edges <==> Executable(f, s, i) && IsBranch(f.At(i)) && d in Demand(f, s, f.At(i)))
      && Led(f, s)
  {
    hide WellFormed, SsaForm, Iterate, Rises, Demand, Led, Walks, Staged;
    var s := Iterate(f, n).facts;
    TurnsRise(f, n);
    SolvedWhenFinished(f, n);
    StagedDemands(f, s);
    forall i: InstId, d ensures FlowEdge(i, d) in s.edges <==> Executable(f, s, i) && IsBranch(f.At(i)) && d in Demand(f, s, f.At(i)) {
      if FlowEdge(i, d) in s.edges {
        assert EdgeFrom(f, s.blocks, FlowEdge(i, d)) && Wanted(f, s, FlowEdge(i, d));
        NoDests(f.At(i));
      }
      if Executable(f, s, i) && IsBranch(f.At(i)) && d in Demand(f, s, f.At(i)) {
        BranchIsPlain(f, i);
        assert UpToDate(f, s, i) && Pushed(s, FlowEdge(i, d));
      }
    }
  }

  lemma BranchIsPlain(f: Function, i: InstId)
    ensures IsBranch(f.At(i)) ==> Plain(f, i)
  {
  }

  lemma StagedDemands(f: Function, s: Facts)
    requires SsaInv(f, s)
    ensures Demanded(f, s) && Sources(f, s)
  {
  }

  /** So a branch on a known condition keeps exactly the destination it takes. */
  lemma EdgesAreTaken(f: Function, n: nat, i: InstId, val: Valuation, d: BlockId)
    requires WellFormed(f) && SsaForm(f) && Finished(Iterate(f, n).facts)
    requires Executable(f, Iterate(f, n).facts, i) && IsBranch(f.At(i)) && Covering(f, Iterate(f, n).facts, val)
    requires var c := Condition(f.At(i)); c.Some? ==> CellOf(f, Iterate(f, n).facts, c.value).Const? && val(c.value).Word?
    ensures FlowEdge(i, d) in Iterate(f, n).facts.edges <==> Target(val, f.At(i)) == Some(d)
  {
    hide WellFormed, SsaForm, Iterate, Demand, Target, Led;
    var s := Iterate(f, n).facts;
    EdgesAreDemanded(f, n);
    InstOf(f, i);
    if FlowEdge(i, d) in s.edges { DemandIsTarget(f, s, i, val, d); }
    if Target(val, f.At(i)) == Some(d) { TargetIsDemanded(f, s, i, val, d); }
  }

  lemma {:induction false} TableTargetDemanded(f: Function, s: Facts, val: Valuation, c: Imm, table: seq<(ValueId, BlockId)>, default: Option<BlockId>, d: BlockId)
    requires Covering(f, s, val) && forall k :: 0 <= k < |table| ==> f.Data(table[k].0).Immediate?
    requires var hit := TableTarget(val, c, table); (if hit.Some? then hit else default) == Some(d)
    ensures d in TableDemand(f, s, c, table, default)
    decreases |table|
  {
    if table != [] {
      var v := table[0].0;
      assert val(v) == Word(f.Data(v).imm);
      if f.Data(v).imm != c { TableTargetDemanded(f, s, val, c, table[1..], default, d); }
    }
  }

  lemma TargetIsDemanded(f: Function, s: Facts, i: InstId, val: Valuation, d: BlockId)
    requires TypeOk(f, i) && Target(val, f.At(i)) == Some(d) && Covering(f, s, val)
    requires var c := Condition(f.At(i)); c.Some? ==> CellOf(f, s, c.value).Const? && val(c.value).Word?
    ensures d in Demand(f, s, f.At(i))
  {
    match f.At(i)
    case Br(c, _, _) => assert Holds(CellOf(f, s, c), val(c));
    case BrTable(v, default, table) =>
      assert Holds(CellOf(f, s, v), val(v));
      TableTargetDemanded(f, s, val, val(v).imm, table, default, d);
    case _ =>
  }

  // ----- known operands give known results

  /** A state in which every value is what its cell says, and undefined where that
      is no constant. */
  function CellMachine(f: Function, s: Facts): Machine {
    Machine(map v | v in s.lattice :: CellValues(f, s)(v), None, f.entry, 0, [])
  }

  lemma CellsDescribed(f: Function, s: Facts)
    requires WellFormed(f) && CellsTyped(f, s)
    ensures ValuesDescribed(f, s, CellMachine(f, s))
    ensures forall v: ValueId {:trigger CellOf(f, s, v)} :: CellOf(f, s, v).Const? ==> Values(f, CellMachine(f, s))(v) == CellValues(f, s)(v)
  {
    hide WellFormed, WellSized;
    var m := CellMachine(f, s);
    forall v: ValueId
      ensures ValueDescribed(f, s, m, v)
      ensures CellOf(f, s, v).Const? ==> Values(f, m)(v) == CellValues(f, s)(v)
    {
      ValueOf(f, v);
      assert CellTyped(f, s, v);
    }
  }

  lemma SameEvaluation(val: Valuation, wal: Valuation, inst: Inst)
    requires IsPure(inst) && forall v :: v in Operands(inst) ==> val(v) == wal(v)
    ensures Evaluable(val, inst) <==> Evaluable(wal, inst)
    ensures Evaluable(val, inst) ==> Evaluate(val, inst) == Evaluate(wal, inst)
  {
    match inst
    case Binary(_, l, r) => assert l in Operands(inst) && r in Operands(inst);
    case Unary(_, a) => assert a in Operands(inst);
    case Cast(_, a, _) => assert a in Operands(inst);
  }

  /** The interpreter can evaluate an instruction on words of the right types. */
  lemma KnownEvaluates(f: Function, s: Facts, i: InstId)
    requires WellFormed(f) && i in f.home && IsPure(f.At(i)) && CellsTyped(f, s)
    requires forall v {:trigger CellOf(f, s, v)} :: v in Operands(f.At(i)) ==> CellOf(f, s, v).Const?
    ensures Evaluable(CellValues(f, s), f.At(i)) && Evaluate(CellValues(f, s), f.At(i)).Word?
  {
    hide WellFormed, WellSized, Apply, ApplyUnary, ApplyCast;
    InstOf(f, i);
    var inst := f.At(i);
    forall v | v in Operands(inst) ensures Typed(CellValues(f, s)(v), f.Type(v)) {
      ValueOf(f, v);
      assert CellTyped(f, s, v);
      ConstTyped(f, s, v);
    }
    match inst
    case Binary(_, l, r) => assert l in Operands(inst) && r in Operands(inst);
    case Unary(_, a) => assert a in Operands(inst);
    case Cast(_, a, _) => assert a in Operands(inst);
  }

  /** A pure instruction on known operands has the interpreter's result. */
  lemma ConstantsFold(f: Function, s: Facts, i: InstId)
    requires WellFormed(f) && i in f.home && IsPure(f.At(i)) && Plain(f, i) && !SarFails(f, s, i) && CellsTyped(f, s)
    requires forall v {:trigger CellOf(f, s, v)} :: v in Operands(f.At(i)) ==> CellOf(f, s, v).Const?
    ensures Evaluable(CellValues(f, s), f.At(i)) && Evaluate(CellValues(f, s), f.At(i)).Word?
    ensures EvalCell(f, s, f.At(i)) == Const(Evaluate(CellValues(f, s), f.At(i)).imm)
  {
    hide WellFormed, Simplify, SarFails, IsTwice, KnownImm, CellOf, CellsTyped, CellMachine, Evaluate, Evaluable, ValuesDescribed, Operands;
    var (m, inst) := (CellMachine(f, s), f.At(i));
    CellsDescribed(f, s);
    KnownEvaluates(f, s, i);
    forall v | v in Operands(inst) ensures Values(f, m)(v) == CellValues(f, s)(v) { assert CellOf(f, s, v).Const?; }
    SameEvaluation(Values(f, m), CellValues(f, s), inst);
    EvalSound(f, s, m, i);
    CopiesOperand(f, s, inst);
    var r := Simplify(f, s, inst);
    if r.ToCopy? { assert CellOf(f, s, r.src).Const?; }
  }

  /** So is what the solver ends with for it. */
  lemma FinalConstants(f: Function, n: nat, i: InstId)
    requires WellFormed(f) && Finished(Iterate(f, n).facts) && Executable(f, Iterate(f, n).facts, i)
    requires IsPure(f.At(i)) && f.ResultOf(i).Some? && Plain(f, i) && !SarFails(f, Iterate(f, n).facts, i)
    requires forall v {:trigger CellOf(f, Iterate(f, n).facts, v)} :: v in Operands(f.At(i)) ==> CellOf(f, Iterate(f, n).facts, v).Const?
    ensures var (s, r) := (Iterate(f, n).facts, f.ResultOf(i).value);
      && Evaluable(CellValues(f, s), f.At(i))
      && CellAt(s, r).Const? && Evaluate(CellValues(f, s), f.At(i)) == Word(CellAt(s, r).imm)
  {
    hide WellFormed, Iterate, Evaluate, Evaluable, Operands, SarFails, EvalCell, Plain, CellOf;
    var s := Iterate(f, n).facts;
    SolvedWhenFinished(f, n);
    ConstantsFold(f, s, i);
    assert UpToDate(f, s, i);
  }

  // ----- the rewritten function

  /** Every block is reached from the entry. */
  ghost predicate AllReached(h: Function) {
    forall b {:trigger b in h.layout} :: b in h.layout ==> Graphs.Reach(Graph(h), h.entry, b)
  }

  /** In SSA form no unreachable block survives. */
  lemma NothingUnreachable(f: Function, turns: nat, h: Function)
    requires WellFormed(f) && SsaForm(f) && Propagated(f, h, turns)
    ensures AllReached(h)
  {
    hide WellFormed, SsaForm, Iterate, KeepsMeaning, Tidy, Rewritten, Finished, Led, AllTrusted, Graph, Rises, EdgesOk;
    var s := Iterate(f, turns).facts;
    TurnsKeepEdges(f, turns);
    TurnsRise(f, turns);
    StagedParts(f, s);
    var g :| Rewritten(f, s, g, h);
    SameEntry(f, s, g, h);
    LedReaches(f, s, h);
  }

  lemma StagedParts(f: Function, s: Facts)
    requires SsaInv(f, s)
    ensures Sources(f, s) && Led(f, s)
  {
  }

  lemma SameEntry(f: Function, s: Facts, g: Function, h: Function)
    requires Rewritten(f, s, g, h)
    ensures h.entry == f.entry
  {
  }

  lemma LedReaches(f: Function, s: Facts, h: Function)
    requires WellFormed(f) && Sources(f, s) && Led(f, s) && EdgesOk(f, s) && Tidy(f, s, h) && h.entry == f.entry
    ensures AllReached(h)
  {
    hide WellFormed, HasEdge, Graph, Graphs.Reach, Sieved, InstTidy, FormOk;
    var more := set b | b in h.layout && Graphs.Reach(Graph(h), h.entry, b);
    assert f.entry in f.layout by { EntryPlaced(f); }
    Graphs.ReachRefl(Graph(h), h.entry);
    forall e | e in s.edges && e.inst in f.home && f.home[e.inst] in more ensures e.to in more {
      var p := f.home[e.inst];
      assert EdgeFrom(f, s.blocks, e);
      EdgeIs(f, s.blocks, e);
      assert Live(f, s, p, e.to);
      assert HasEdge(h, p, e.to);
      DestsInside(f, p, e.to);
      GraphEdge(h, p, e.to);
      Graphs.ReachSnoc(Graph(h), h.entry, p, e.to);
    }
    assert Follows(f, s, more);
  }

  lemma EntryPlaced(f: Function)
    requires WellFormed(f)
    ensures f.entry in f.layout
  {
  }

  // ----- phis join what comes in

  /** There is an edge from `p` to `b`, and it has been found executable. */
  predicate Open(f: Function, s: Facts, p: BlockId, b: BlockId) {
    p in f.layout && b in f.layout && HasEdge(f, p, b) && FlowEdge(f.LastInst(p).value, b) in s.edges
  }

  lemma OpenIs(f: Function, s: Facts, p: BlockId, b: BlockId)
    ensures IsReachable(f, s, p, b) <==> Open(f, s, p, b)
  {
  }

  /** What comes in over executable edges says no more than `u`. */
  ghost predicate AllBelow(f: Function, s: Facts, block: BlockId, args: seq<(ValueId, BlockId)>, u: Cell) {
    forall k {:trigger args[k]} :: 0 <= k < |args| && Open(f, s, args[k].1, block) ==> Leq(CellOf(f, s, args[k].0), u)
  }

  lemma JoinBounds(c: Cell, d: Cell, u: Cell)
    ensures Leq(Join(c, d), u) <==> Leq(c, u) && Leq(d, u)
  {
  }

  lemma {:induction false} JoinIsLeast(f: Function, s: Facts, block: BlockId, args: seq<(ValueId, BlockId)>, acc: Cell, u: Cell)
    ensures Leq(JoinArgs(f, s, block, args, acc), u) <==> Leq(acc, u) && AllBelow(f, s, block, args, u)
    decreases |args|
  {
    hide IsReachable, Open, CellOf, Join, Leq;
    if args != [] {
      var rest := args[1..];
      OpenIs(f, s, args[0].1, block);
      var next := if IsReachable(f, s, args[0].1, block) then Join(acc, CellOf(f, s, args[0].0)) else acc;
      JoinBounds(acc, CellOf(f, s, args[0].0), u);
      JoinIsLeast(f, s, block, rest, next, u);
      assert forall k :: 0 <= k < |rest| ==> rest[k] == args[k + 1];
    }
  }

  /** The k-th incoming value comes over an executable edge. */
  predicate Arrives(f: Function, s: Facts, i: InstId, k: nat)
    requires f.At(i).Phi? && k < |f.At(i).args|
  {
    Open(f, s, f.At(i).args[k].1, Home(f, i))
  }

  /** The cell of a phi is the least that covers what comes in over executable
      edges; so if all of that is one constant, it is that constant. */
  lemma PhiIsLeast(f: Function, s: Facts, i: InstId)
    requires f.At(i).Phi?
    ensures forall u {:trigger Leq(PhiCell(f, s, i), u)} :: Leq(PhiCell(f, s, i), u) <==> AllBelow(f, s, Home(f, i), f.At(i).args, u)
    ensures forall k: nat {:trigger Arrives(f, s, i, k)} :: k < |f.At(i).args| && Arrives(f, s, i, k) ==>
      var c := CellOf(f, s, f.At(i).args[k].0);
      c.Const? && AllBelow(f, s, Home(f, i), f.At(i).args, c) ==> PhiCell(f, s, i) == c
  {
    hide Open, CellOf, JoinArgs;
    var (args, r) := (f.At(i).args, PhiCell(f, s, i));
    forall u ensures Leq(r, u) <==> AllBelow(f, s, Home(f, i), args, u) { JoinIsLeast(f, s, Home(f, i), args, Bot, u); }
    assert Leq(r, r);
  }

  /** At the end it is recorded for an executable phi. */
  lemma FinalPhis(f: Function, n: nat, i: InstId, k: nat)
    requires WellFormed(f) && Finished(Iterate(f, n).facts) && Executable(f, Iterate(f, n).facts, i)
    requires f.At(i).Phi? && f.ResultOf(i).Some? && k < |f.At(i).args| && Arrives(f, Iterate(f, n).facts, i, k)
    requires var s := Iterate(f, n).facts;
      CellOf(f, s, f.At(i).args[k].0).Const? && AllBelow(f, s, Home(f, i), f.At(i).args, CellOf(f, s, f.At(i).args[k].0))
    ensures CellAt(Iterate(f, n).facts, f.ResultOf(i).value) == CellOf(f, Iterate(f, n).facts, f.At(i).args[k].0)
  {
    hide WellFormed, Iterate, PhiCell, CellOf, Arrives, AllBelow, EvalCell, EvalUndef, UndefArgs;
    var s := Iterate(f, n).facts;
    SolvedWhenFinished(f, n);
    PhiIsLeast(f, s, i);
    PhiIsPlain(f, i);
    assert UpToDate(f, s, i);
  }

  lemma PhiIsPlain(f: Function, i: InstId)
    ensures f.At(i).Phi? ==> Plain(f, i)
  {
  }

  // ----- the algebraic rules

  predicate SameWidth(f: Function, x: ValueId, y: ValueId) { f.Type(x) == f.Type(y) && f.Type(x) > 0 }

  /** An absorbing operand decides, whatever the other one is. */
  lemma AbsorbingDecides(f: Function, s: Facts, x: ValueId, y: ValueId)
    requires SameWidth(f, x, y) && CellOf(f, s, x).Const?
    ensures var (w, c) := (f.Type(x), CellOf(f, s, x));
      && (c.imm == Zero(w) ==> forall op {:trigger Binary(op, x, y)} :: op == And || op == Mul ==>
            EvalCell(f, s, Binary(op, x, y)) == EvalCell(f, s, Binary(op, y, x)) == c)
      && (c.imm == Zero(w) ==> forall op {:trigger Binary(op, y, x)} :: IsShift(op) ==> EvalCell(f, s, Binary(op, y, x)) == c)
      && (c.imm == AllOnes(w) ==> EvalCell(f, s, Binary(Or, x, y)) == EvalCell(f, s, Binary(Or, y, x)) == c)
  {
    hide Interpreted, Pow2;
    var (w, c) := (f.Type(x), CellOf(f, s, x).imm);
    assert KnownImm(f, s, x) == Some(c);
    hide CellOf, KnownImm, SameNonUndef;
    if c == Zero(w) {
      assert SimplifyAnd(f, s, x, y) == SimplifyAnd(f, s, y, x) == ToConst(c);
      assert SimplifyMul(f, s, x, y) == SimplifyMul(f, s, y, x) == ToConst(c);
      assert SimplifyShift(f, s, y, x) == ToConst(c);
    }
    if c == AllOnes(w) { assert SimplifyOr(f, s, x, y) == SimplifyOr(f, s, y, x) == ToConst(c); }
    hide SimplifyAnd, SimplifyOr, SimplifyMul, SimplifyShift;
  }

  /** A neutral operand leaves the other one. */
  lemma NeutralBits(f: Function, s: Facts, x: ValueId, y: ValueId)
    requires SameWidth(f, x, y) && CellOf(f, s, x).Const? && CellTyped(f, s, y)
    ensures var (w, c, d) := (f.Type(x), CellOf(f, s, x).imm, CellOf(f, s, y));
      && (c == Zero(w) ==> EvalCell(f, s, Binary(Or, x, y)) == EvalCell(f, s, Binary(Or, y, x)) == d)
      && (c == Zero(w) ==> EvalCell(f, s, Binary(Xor, x, y)) == EvalCell(f, s, Binary(Xor, y, x)) == d)
      && (c == AllOnes(w) ==> EvalCell(f, s, Binary(And, x, y)) == EvalCell(f, s, Binary(And, y, x)) == d)
  {
    hide Interpreted;
  }

  lemma NeutralNumbers(f: Function, s: Facts, x: ValueId, y: ValueId)
    requires SameWidth(f, x, y) && CellOf(f, s, x).Const? && CellTyped(f, s, y)
    ensures var (w, c, d) := (f.Type(x), CellOf(f, s, x).imm, CellOf(f, s, y));
      && (c == Zero(w) ==> EvalCell(f, s, Binary(Add, x, y)) == EvalCell(f, s, Binary(Add, y, x)) == d)
      && (c == Zero(w) ==> EvalCell(f, s, Binary(Sub, y, x)) == d)
      && (c == One(w) ==> EvalCell(f, s, Binary(Mul, x, y)) == EvalCell(f, s, Binary(Mul, y, x)) == d)
      && (c == Zero(w) ==> forall op {:trigger Binary(op, x, y)} :: IsShift(op) ==> EvalCell(f, s, Binary(op, x, y)) == d)
  {
    hide Interpreted, Pow2;
  }

  /** An operation on twice the same defined value. */
  lemma SameOperandDecides(f: Function, s: Facts, x: ValueId)
    requires f.Type(x) > 0 && !CellOf(f, s, x).Bot? && !MayBeUndef(f, s, x)
    ensures EvalCell(f, s, Binary(And, x, x)) == EvalCell(f, s, Binary(Or, x, x)) == CellOf(f, s, x)
    ensures EvalCell(f, s, Binary(Xor, x, x)) == EvalCell(f, s, Binary(Sub, x, x)) == Const(Zero(f.Type(x)))
    ensures forall op {:trigger Binary(op, x, x)} :: IsCompare(op) ==>
      EvalCell(f, s, Binary(op, x, x)) == Const(Bool(op == Eq || op == Le || op == Ge || op == Sle || op == Sge))
  {
  }

  /** Nothing is done by a cast to the width of its operand, or by two negations. */
  lemma NothingDone(f: Function, s: Facts, inst: Inst)
    requires inst.Cast? || IsTwice(f, inst)
    ensures inst.Cast? && f.Type(inst.from) == inst.width ==> EvalCell(f, s, inst) == CellOf(f, s, inst.from)
    ensures IsTwice(f, inst) ==> EvalCell(f, s, inst) == CellOf(f, s, Source(f, inst))
  {
  }

  // ----- what may be undefined

  lemma {:induction false} AnyUndefExact(f: Function, s: Facts, vs: seq<ValueId>)
    ensures AnyUndef(f, s, vs) <==> exists v :: v in vs && MayBeUndef(f, s, v)
  {
    if vs != [] { AnyUndefExact(f, s, vs[1..]); }
  }

  /** A result may be undefined only if something that was read may be; and an
      operation with such an operand and none that is known may be undefined. */
  lemma UndefExact(f: Function, s: Facts, inst: Inst)
    requires IsPure(inst) && CellsTyped(f, s)
    ensures EvalUndef(f, s, inst) ==> exists v {:trigger Reads(f, inst, v)} :: Reads(f, inst, v) && MayBeUndef(f, s, v)
    ensures inst.Binary? && !CellOf(f, s, inst.lhs).Const? && !CellOf(f, s, inst.rhs).Const? ==>
      (MayBeUndef(f, s, inst.lhs) || MayBeUndef(f, s, inst.rhs) ==> EvalUndef(f, s, inst))
  {
    AnyUndefExact(f, s, Operands(inst));
    assert forall v :: v in Operands(inst) ==> Reads(f, inst, v);
    CopiesOperand(f, s, inst);
    hide AnyUndef;
    if IsTwice(f, inst) {
      assert Reads(f, inst, Source(f, inst));
    } else if inst.Binary? {
      assert CellTyped(f, s, inst.lhs) && CellTyped(f, s, inst.rhs);
      assert inst.lhs in Operands(inst) && inst.rhs in Operands(inst);
    }
  }

  predicate UndefComes(f: Function, s: Facts, block: BlockId, args: seq<(ValueId, BlockId)>, k: nat)
    requires k < |args|
  {
    Open(f, s, args[k].1, block) && MayBeUndef(f, s, args[k].0)
  }

  lemma {:induction false} PhiUndefExact(f: Function, s: Facts, block: BlockId, args: seq<(ValueId, BlockId)>, acc: bool)
    ensures UndefArgs(f, s, block, args, acc) <==> acc || exists k: nat :: k < |args| && UndefComes(f, s, block, args, k)
    decreases |args|
  {
    hide IsReachable, Open, MayBeUndef;
    if args != [] {
      var rest := args[1..];
      OpenIs(f, s, args[0].1, block);
      PhiUndefExact(f, s, block, rest, acc || (IsReachable(f, s, args[0].1, block) && MayBeUndef(f, s, args[0].0)));
      if k: nat :| k < |rest| && UndefComes(f, s, block, rest, k) { assert UndefComes(f, s, block, args, k + 1); }
      if k: nat :| k < |args| && UndefComes(f, s, block, args, k) { assert k > 0 ==> UndefComes(f, s, block, rest, k - 1); }
      assert UndefComes(f, s, block, args, 0) == (IsReachable(f, s, args[0].1, block) && MayBeUndef(f, s, args[0].0));
    }
  }
}
