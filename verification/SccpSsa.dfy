/**
 What constant propagation gains from SSA form (crates/codegen/src/optim/sccp.rs,
 sccp_simplify.rs): when every use is dominated by its definition, no operand is
 unknown when an instruction is evaluated, so evaluation is monotone, cells and
 undefinedness only rise, and the solver ends.
 */
module SccpSsa {
  import opened Options
  import opened Words
  import opened Ir
  import opened Sccps
  import opened SccpSound
  import Graphs
  import DomTrees

  // ----- SSA form

  function Graph(f: Function): Graphs.Adj {
    map b | b in f.layout :: if f.LastInst(b).Some? then Dests(f.At(f.LastInst(b).value)) else []
  }

  ghost predicate Dominates(f: Function, d: BlockId, b: BlockId) {
    DomTrees.Dominates(Graph(f), f.entry, d, b)
  }

  /** `v` is defined before instruction `k` of `b` is reached. */
  ghost predicate Available(f: Function, b: BlockId, k: nat, v: ValueId)
    requires k <= |f.Body(b)|
  {
    match f.Data(v)
    case Result(j) => j in f.Body(b)[..k] || (j in f.home && f.home[j] != b && Dominates(f, f.home[j], b))
    case _ => true
  }

  /** What instruction `k` of `b` reads is defined: for a phi, at the end of the
      block the value comes from. */
  ghost predicate UsesDefined(f: Function, b: BlockId, k: nat)
    requires k < |f.Body(b)|
  {
    var inst := f.At(f.Body(b)[k]);
    if inst.Phi? then forall j :: 0 <= j < |inst.args| ==> var (v, p) := inst.args[j]; Available(f, p, |f.Body(p)|, v)
    else forall v :: v in Operands(inst) ==> Available(f, b, k, v)
  }

  ghost predicate SsaForm(f: Function) {
    && PlacedOnce(f) && PhisFit(f)
    && (forall i :: i in f.Body(f.entry) ==> !f.At(i).Phi?)
    && (forall b, k: nat {:trigger UsesDefined(f, b, k)} :: k < |f.Body(b)| ==> UsesDefined(f, b, k))
  }

  // ----- facts that rise

  predicate RisesAt(s: Facts, t: Facts, v: ValueId) {
    Leq(CellAt(s, v), CellAt(t, v)) && (UndefAt(s, v) ==> UndefAt(t, v))
  }

  ghost predicate Rises(s: Facts, t: Facts) {
    s.edges <= t.edges && forall v {:trigger RisesAt(s, t, v)} :: RisesAt(s, t, v)
  }

  predicate Known(f: Function, s: Facts, v: ValueId) { !CellOf(f, s, v).Bot? }

  /** Only a value known to vary may be undefined. */
  predicate CleanAt(f: Function, s: Facts, v: ValueId) { MayBeUndef(f, s, v) ==> CellOf(f, s, v).Top? }

  /** The value behind a negation of a negation. */
  function Source(f: Function, inst: Inst): ValueId
    requires IsTwice(f, inst)
  {
    SimplifyTwice(f, inst.unop, inst.arg).src
  }

  predicate Reads(f: Function, inst: Inst, v: ValueId) {
    v in Operands(inst) || (IsTwice(f, inst) && v == Source(f, inst))
  }

  /** A value an evaluation reads, at two moments. */
  predicate Risen(f: Function, s: Facts, t: Facts, v: ValueId) {
    && Known(f, s, v) && CleanAt(f, s, v) && CleanAt(f, t, v)
    && Leq(CellOf(f, s, v), CellOf(f, t, v)) && (MayBeUndef(f, s, v) ==> MayBeUndef(f, t, v))
    && (f.Data(v).Undefined? ==> !CellAt(s, v).Const? && !CellAt(t, v).Const?)
  }

  /** What the evaluations of an instruction with known operands give at two
      moments. */
  predicate Later(f: Function, s: Facts, t: Facts, inst: Inst)
    requires IsPure(inst)
  {
    && Leq(EvalCell(f, s, inst), EvalCell(f, t, inst))
    && (EvalUndef(f, s, inst) ==> EvalUndef(f, t, inst))
    && !EvalCell(f, s, inst).Bot?
    && (EvalUndef(f, s, inst) ==> EvalCell(f, s, inst).Top?)
  }

  // ----- the rules of the simplifier are monotone

  /** Where a rule fires at the later moment it fired at the earlier one, and a
      rule that fires no more has lost a constant. */
  predicate RuleLater(f: Function, s: Facts, t: Facts, l: ValueId, r: ValueId, a: Simplified, b: Simplified) {
    var lost := CellOf(f, t, l).Top? || CellOf(f, t, r).Top?;
    match a
    case NoChange => b == NoChange
    case ToConst(c) => b == a || (b.ToCopy? && (b.src == l || b.src == r) && CellOf(f, t, b.src).Top?) || (b == NoChange && lost)
    case ToCopy(x) =>
      && (x == l || x == r)
      && (b == a || (b == NoChange && lost) || (b.ToConst? && CellOf(f, s, x) == Const(b.imm))
          || (b.ToCopy? && (b.src == l || b.src == r) && CellOf(f, t, b.src).Top? && (MayBeUndef(f, s, x) ==> MayBeUndef(f, t, b.src))))
  }

  lemma BitwiseLater(f: Function, s: Facts, t: Facts, l: ValueId, r: ValueId)
    requires Risen(f, s, t, l) && Risen(f, s, t, r)
    ensures RuleLater(f, s, t, l, r, SimplifyAnd(f, s, l, r), SimplifyAnd(f, t, l, r))
    ensures RuleLater(f, s, t, l, r, SimplifyOr(f, s, l, r), SimplifyOr(f, t, l, r))
    ensures RuleLater(f, s, t, l, r, SimplifyXor(f, s, l, r), SimplifyXor(f, t, l, r))
  {
  }

  lemma ArithmeticLater(f: Function, s: Facts, t: Facts, l: ValueId, r: ValueId)
    requires Risen(f, s, t, l) && Risen(f, s, t, r)
    ensures RuleLater(f, s, t, l, r, SimplifyMul(f, s, l, r), SimplifyMul(f, t, l, r))
    ensures RuleLater(f, s, t, l, r, SimplifyAdd(f, s, l, r), SimplifyAdd(f, t, l, r))
    ensures RuleLater(f, s, t, l, r, SimplifySub(f, s, l, r), SimplifySub(f, t, l, r))
  {
  }

  /** The cells alone: strict in the operands. */
  lemma InterpretedLater(f: Function, s: Facts, t: Facts, inst: Inst)
    requires IsPure(inst) && forall v :: v in Operands(inst) ==> Risen(f, s, t, v)
    ensures !Interpreted(f, s, inst).Bot? && Leq(Interpreted(f, s, inst), Interpreted(f, t, inst))
    ensures (exists v :: v in Operands(inst) && CellOf(f, t, v).Top?) ==> Interpreted(f, t, inst).Top?
    ensures (exists v :: v in Operands(inst) && CellOf(f, s, v).Top?) ==> Interpreted(f, s, inst).Top?
  {
    hide Apply, ApplyUnary, ApplyCast, WellSized, MayBeUndef, CellOf;
    match inst
    case Binary(op, l, r) =>
      assert l in Operands(inst) && r in Operands(inst) && Risen(f, s, t, l) && Risen(f, s, t, r);
    case Unary(op, a) => assert a in Operands(inst) && Risen(f, s, t, a);
    case Cast(op, a, w) => assert a in Operands(inst) && Risen(f, s, t, a);
  }

  lemma BinaryLater(f: Function, s: Facts, t: Facts, inst: Inst)
    requires inst.Binary? && Risen(f, s, t, inst.lhs) && Risen(f, s, t, inst.rhs)
    ensures Later(f, s, t, inst)
  {
    var (op, l, r) := (inst.op, inst.lhs, inst.rhs);
    BitwiseLater(f, s, t, l, r);
    ArithmeticLater(f, s, t, l, r);
    OthersLater(f, s, t, op, l, r);
    hide RuleLater, Risen, SimplifyAnd, SimplifyOr, SimplifyXor, SimplifyMul, SimplifyAdd, SimplifySub, SimplifyShift, SimplifyCompare, Later;
    assert RuleLater(f, s, t, l, r, Simplify(f, s, inst), Simplify(f, t, inst));
    CellsLater(f, s, t, inst);
  }

  /** Rules that fire as they did make evaluation rise. */
  lemma CellsLater(f: Function, s: Facts, t: Facts, inst: Inst)
    requires inst.Binary? && Risen(f, s, t, inst.lhs) && Risen(f, s, t, inst.rhs)
    requires RuleLater(f, s, t, inst.lhs, inst.rhs, Simplify(f, s, inst), Simplify(f, t, inst))
    ensures Later(f, s, t, inst)
  {
    var (l, r) := (inst.lhs, inst.rhs);
    InterpretedLater(f, s, t, inst);
    EitherUndef(f, s, l, r);
    EitherUndef(f, t, l, r);
    hide Simplify, Interpreted, AnyUndef, CellOf, MayBeUndef;
    assert Operands(inst) == [l, r] && l in Operands(inst) && r in Operands(inst);
  }

  lemma EitherUndef(f: Function, s: Facts, l: ValueId, r: ValueId)
    ensures AnyUndef(f, s, [l, r]) <==> MayBeUndef(f, s, l) || MayBeUndef(f, s, r)
    ensures AnyUndef(f, s, [l]) <==> MayBeUndef(f, s, l)
  {
    assert [l, r][1..] == [r] && [r][1..] == [] && [l][1..] == [];
    assert AnyUndef(f, s, [r]) <==> MayBeUndef(f, s, r);
  }

  lemma UnaryLater(f: Function, s: Facts, t: Facts, inst: Inst)
    requires inst.Unary? || inst.Cast?
    requires forall v {:trigger Reads(f, inst, v)} :: Reads(f, inst, v) ==> Risen(f, s, t, v)
    ensures Later(f, s, t, inst)
  {
    var a := if inst.Unary? then inst.arg else inst.from;
    assert Reads(f, inst, a) && Risen(f, s, t, a);
    assert IsTwice(f, inst) ==> Reads(f, inst, Source(f, inst));
    InterpretedLater(f, s, t, inst);
    EitherUndef(f, s, a, a);
    EitherUndef(f, t, a, a);
    hide Interpreted, KnownImm, AnyUndef, Reads;
    assert Operands(inst) == [a] && a in Operands(inst);
  }

  lemma PureLater(f: Function, s: Facts, t: Facts, inst: Inst)
    requires IsPure(inst) && forall v {:trigger Reads(f, inst, v)} :: Reads(f, inst, v) ==> Risen(f, s, t, v)
    ensures Later(f, s, t, inst)
  {
    hide Risen, Later;
    if inst.Binary? {
      assert Reads(f, inst, inst.lhs) && Reads(f, inst, inst.rhs);
      BinaryLater(f, s, t, inst);
    } else {
      UnaryLater(f, s, t, inst);
    }
  }

  lemma OthersLater(f: Function, s: Facts, t: Facts, op: BinOp, l: ValueId, r: ValueId)
    requires Risen(f, s, t, l) && Risen(f, s, t, r)
    ensures RuleLater(f, s, t, l, r, SimplifyShift(f, s, l, r), SimplifyShift(f, t, l, r))
    ensures RuleLater(f, s, t, l, r, SimplifyCompare(f, s, op, l, r), SimplifyCompare(f, t, op, l, r))
  {
  }

  // ----- phis are monotone

  lemma CellRises(f: Function, s: Facts, t: Facts, v: ValueId)
    requires RisesAt(s, t, v)
    ensures Leq(CellOf(f, s, v), CellOf(f, t, v)) && (MayBeUndef(f, s, v) ==> MayBeUndef(f, t, v)) && (Known(f, s, v) ==> Known(f, t, v))
  {
  }

  ghost predicate AllClean(f: Function, s: Facts) {
    forall v {:trigger CleanAt(f, s, v)} :: CleanAt(f, s, v)
  }

  lemma {:induction false} JoinLater(f: Function, s: Facts, t: Facts, block: BlockId, args: seq<(ValueId, BlockId)>, c: Cell, d: Cell)
    requires Rises(s, t) && Leq(c, d)
    ensures Leq(JoinArgs(f, s, block, args, c), JoinArgs(f, t, block, args, d))
    ensures !c.Bot? ==> !JoinArgs(f, s, block, args, c).Bot?
    decreases |args|
  {
    hide CellOf, MayBeUndef, RisesAt;
    if args != [] {
      var (v, p) := args[0];
      assert RisesAt(s, t, v);
      CellRises(f, s, t, v);
      assert IsReachable(f, s, p, block) ==> IsReachable(f, t, p, block);
      hide IsReachable;
      var c1 := if IsReachable(f, s, p, block) then Join(c, CellOf(f, s, v)) else c;
      var d1 := if IsReachable(f, t, p, block) then Join(d, CellOf(f, t, v)) else d;
      JoinLater(f, s, t, block, args[1..], c1, d1);
    }
  }

  lemma {:induction false} UndefArgsLater(f: Function, s: Facts, t: Facts, block: BlockId, args: seq<(ValueId, BlockId)>, x: bool, y: bool)
    requires Rises(s, t) && (x ==> y)
    ensures UndefArgs(f, s, block, args, x) ==> UndefArgs(f, t, block, args, y)
    decreases |args|
  {
    hide CellOf, MayBeUndef, RisesAt;
    if args != [] {
      var (v, p) := args[0];
      assert RisesAt(s, t, v);
      CellRises(f, s, t, v);
      assert IsReachable(f, s, p, block) ==> IsReachable(f, t, p, block);
      hide IsReachable;
      UndefArgsLater(f, s, t, block, args[1..], x || (IsReachable(f, s, p, block) && MayBeUndef(f, s, v)), y || (IsReachable(f, t, p, block) && MayBeUndef(f, t, v)));
    }
  }

  lemma {:induction false} UndefIsTop(f: Function, s: Facts, block: BlockId, args: seq<(ValueId, BlockId)>, c: Cell, x: bool)
    requires AllClean(f, s) && (x ==> c.Top?)
    ensures UndefArgs(f, s, block, args, x) ==> JoinArgs(f, s, block, args, c).Top?
    decreases |args|
  {
    hide IsReachable, CellOf, MayBeUndef;
    if args != [] {
      var (v, p) := args[0];
      assert CleanAt(f, s, v);
      UndefIsTop(f, s, block, args[1..], if IsReachable(f, s, p, block) then Join(c, CellOf(f, s, v)) else c,
        x || (IsReachable(f, s, p, block) && MayBeUndef(f, s, v)));
    }
  }

  /** A known value coming in over an executable edge makes the phi known. */
  lemma {:induction false} JoinKnown(f: Function, s: Facts, block: BlockId, args: seq<(ValueId, BlockId)>, c: Cell, k: nat)
    requires k < |args| && IsReachable(f, s, args[k].1, block) && Known(f, s, args[k].0)
    ensures !JoinArgs(f, s, block, args, c).Bot?
    decreases |args|
  {
    hide CellOf, IsReachable, Rises;
    var next := if IsReachable(f, s, args[0].1, block) then Join(c, CellOf(f, s, args[0].0)) else c;
    if k == 0 {
      RisesRefl(s);
      JoinLater(f, s, s, block, args[1..], next, next);
    } else {
      JoinKnown(f, s, block, args[1..], next, k - 1);
    }
  }

  // ----- what is recorded, against what an evaluation would give

  function NowCell(f: Function, s: Facts, i: InstId): Cell {
    if f.At(i).Phi? then PhiCell(f, s, i) else EvalCell(f, s, f.At(i))
  }

  ghost predicate ReadsKnown(f: Function, s: Facts, inst: Inst) {
    IsPure(inst) ==> forall v {:trigger Reads(f, inst, v)} :: Reads(f, inst, v) ==> Known(f, s, v)
  }

  /** The result is known, and evaluating again could only raise it. */
  predicate Low(f: Function, s: Facts, i: InstId) {
    f.ResultOf(i).Some? ==>
      var r := f.ResultOf(i).value;
      !CellAt(s, r).Bot? && Leq(CellAt(s, r), NowCell(f, s, i)) && (UndefAt(s, r) ==> NowUndef(f, s, i))
  }

  ghost predicate Done(f: Function, s: Facts, i: InstId) { Low(f, s, i) && ReadsKnown(f, s, f.At(i)) }

  predicate Fresh(f: Function, s: Facts, i: InstId) {
    f.ResultOf(i).Some? ==> CellAt(s, f.ResultOf(i).value).Bot? && !UndefAt(s, f.ResultOf(i).value)
  }

  ghost predicate Stage(f: Function, s: Facts, todo: set<InstId>, i: InstId) {
    if Executable(f, s, i) && i !in todo then Done(f, s, i) else Fresh(f, s, i)
  }

  // ----- negations of negations

  /** What a negation makes of a cell. */
  function Flip(op: UnOp, c: Cell): Cell {
    match c
    case Const(x) => if WellSized(x) then Const(ApplyUnary(op, x)) else Top
    case _ => c
  }

  lemma FlipIs(f: Function, s: Facts, inst: Inst)
    requires inst.Unary?
    ensures Interpreted(f, s, inst) == Flip(inst.unop, CellOf(f, s, inst.arg))
  {
    hide ApplyUnary, WellSized;
    assert Operands(inst) == [inst.arg] && inst.arg in Operands(inst);
  }

  function Inner(f: Function, inst: Inst): InstId
    requires IsTwice(f, inst)
  {
    f.Data(inst.arg).inst
  }

  /** A negation of a plain negation is at least as recent as its operand, unless
      that is waiting. */
  predicate Mate(f: Function, s: Facts, i: InstId) {
    var inst := f.At(i);
    IsTwice(f, inst) && Plain(f, Inner(f, inst)) && f.ResultOf(i).Some? && inst.arg !in s.ssaSet ==>
      Leq(CellAt(s, inst.arg), Flip(inst.unop, CellAt(s, f.ResultOf(i).value)))
  }

  /** A value that takes one cell only: an immediate, an argument, an undefined
      value, the result of an effect, or a negation of such a value. */
  predicate Steady(f: Function, v: ValueId, depth: nat)
    decreases depth
  {
    match f.Data(v)
    case Result(j) => f.At(j).Effect? || (depth > 0 && f.At(j).Unary? && f.At(j).unop != IsZero && Steady(f, f.At(j).arg, depth - 1))
    case _ => true
  }

  function SteadyCell(f: Function, v: ValueId, depth: nat): Cell
    requires Steady(f, v, depth)
    decreases depth
  {
    match f.Data(v)
    case Immediate(c) => Const(c)
    case Result(j) => if f.At(j).Effect? then Top else Flip(f.At(j).unop, SteadyCell(f, f.At(j).arg, depth - 1))
    case _ => Top
  }

  predicate SteadyAt(f: Function, s: Facts, v: ValueId, depth: nat) {
    Steady(f, v, depth) && Known(f, s, v) ==> CellOf(f, s, v) == SteadyCell(f, v, depth)
  }

  ghost predicate AllSteady(f: Function, s: Facts) {
    forall v: ValueId, d: nat {:trigger SteadyAt(f, s, v, d)} :: SteadyAt(f, s, v, d)
  }

  // ----- what branches demand

  /** The branch at the start of the edge goes that way as far as is known. */
  predicate Wanted(f: Function, s: Facts, e: FlowEdge) {
    e.inst in f.home && e.to in Demand(f, s, f.At(e.inst))
  }

  /** Edges found executable, or about to be, are demanded. */
  ghost predicate Demanded(f: Function, s: Facts) {
    forall e {:trigger Wanted(f, s, e)} :: e in s.edges || e in s.flow ==> Wanted(f, s, e)
  }

  lemma {:induction false} TableDemandFixed(f: Function, s: Facts, t: Facts, c: Imm, table: seq<(ValueId, BlockId)>, default: Option<BlockId>)
    requires forall k :: 0 <= k < |table| ==> f.Data(table[k].0).Immediate?
    ensures TableDemand(f, s, c, table, default) == TableDemand(f, t, c, table, default)
    decreases |table|
  {
    if table != [] { TableDemandFixed(f, s, t, c, table[1..], default); }
  }

  /** What a branch demands it demands ever after. */
  lemma WantedLater(f: Function, s: Facts, t: Facts, e: FlowEdge)
    requires WellFormed(f) && Rises(s, t) && Wanted(f, s, e)
    ensures Wanted(f, t, e)
  {
    InstOf(f, e.inst);
    hide WellFormed, RisesAt, CellOf;
    match f.At(e.inst)
    case Br(c, _, _) =>
      assert RisesAt(s, t, c);
      CellRises(f, s, t, c);
    case BrTable(v, default, table) =>
      assert RisesAt(s, t, v);
      CellRises(f, s, t, v);
      if CellOf(f, s, v).Const? {
        TableDemandFixed(f, s, t, CellOf(f, s, v).imm, table, default);
        TableDemandListed(f, s, CellOf(f, s, v).imm, table, default, e.to);
      }
    case _ =>
  }

  lemma OneDemands(f: Function, s: Facts, i: InstId)
    requires WellFormed(f) && Demanded(f, s) && i in f.home && Rises(s, AfterOne(f, s, i))
    ensures Demanded(f, AfterOne(f, s, i))
  {
    hide WellFormed, Rises, Demand, AfterOne, PushAll;
    var t := AfterOne(f, s, i);
    FlowAfter(f, s, i);
    var ds := Demand(f, s, f.At(i));
    PushAllGrows(s, i, ds);
    forall e | e in t.edges || e in t.flow ensures Wanted(f, t, e) {
      if IsBranch(f.At(i)) && e in t.flow { PushAllFlow(s, i, ds, e); }
      assert Wanted(f, s, e);
      WantedLater(f, s, t, e);
    }
  }

  lemma SameDemands(f: Function, s: Facts, t: Facts)
    requires WellFormed(f) && Demanded(f, s) && Rises(s, t)
    requires forall e :: e in t.edges || e in t.flow ==> e in s.edges || e in s.flow
    ensures Demanded(f, t)
  {
    hide WellFormed, Rises;
    forall e | e in t.edges || e in t.flow ensures Wanted(f, t, e) {
      assert Wanted(f, s, e);
      WantedLater(f, s, t, e);
    }
  }

  // ----- facts below a solution

  predicate Answered(f: Function, t: Facts, i: InstId) {
    && (IsBranch(f.At(i)) ==> forall d :: d in Demand(f, t, f.At(i)) ==> FlowEdge(i, d) in t.edges)
    && (f.ResultOf(i).Some? ==>
          var r := f.ResultOf(i).value; Leq(NowCell(f, t, i), CellAt(t, r)) && (NowUndef(f, t, i) ==> UndefAt(t, r)))
  }

  /** Facts that answer to themselves: the entry is executable, executable
      branches have the edges they demand, these lead to executable blocks, and
      what an executable instruction gives is recorded, or more than that. */
  ghost predicate Solution(f: Function, t: Facts) {
    && AllClean(f, t) && CellsTyped(f, t) && ArgsTop(f, t) && EdgesOk(f, t)
    && (forall i {:trigger Answered(f, t, i)} :: Executable(f, t, i) ==> Answered(f, t, i))
  }

  /** `s` says no more than `t`. */
  ghost predicate Below(s: Facts, t: Facts) {
    s.blocks <= t.blocks && Rises(s, t) && forall e :: e in s.flow ==> e in t.edges
  }

  /** From `s` to `t` nothing is found that a solution does not say. */
  ghost predicate StaysBelow(f: Function, s: Facts, t: Facts) {
    forall u {:trigger Below(s, u)} {:trigger Below(t, u)} :: Solution(f, u) && Below(s, u) ==> Below(t, u)
  }

  lemma BelowRefl(f: Function, s: Facts)
    ensures StaysBelow(f, s, s)
  {
    hide Below, Solution;
  }

  lemma BelowTwice(f: Function, s: Facts, t: Facts, u: Facts)
    requires StaysBelow(f, s, t) && StaysBelow(f, t, u)
    ensures StaysBelow(f, s, u)
  {
    hide Below, Solution;
  }

  lemma OneBelow(f: Function, s: Facts, i: InstId, u: Facts)
    requires WellFormed(f) && Executable(f, s, i) && ReadsKnown(f, s, f.At(i))
    requires AllClean(f, s) && CellsTyped(f, s) && ArgsTop(f, s) && WorkOk(s)
    requires Solution(f, u) && Below(s, u)
    ensures Below(AfterOne(f, s, i), u)
  {
    hide WellFormed, NowCell, NowUndef, ReadsKnown, CellsTyped, ArgsTop, WorkOk, AfterOne, CleanAt, Demand, PushAll;
    var t := AfterOne(f, s, i);
    OneRecords(f, s, i);
    NowLater(f, s, u, i);
    InstOf(f, i);
    assert Answered(f, u, i);
    forall v: ValueId ensures RisesAt(t, u, v) {
      assert RisesAt(s, u, v);
      assert f.ResultOf(i) != Some(v) ==> SameAt(s, t, v);
    }
    FlowAfter(f, s, i);
    var ds := Demand(f, s, f.At(i));
    forall e | e in t.flow ensures e in u.edges {
      if IsBranch(f.At(i)) && e !in s.flow {
        PushAllFlow(s, i, ds, e);
        WantedLater(f, s, u, e);
      }
    }
  }

  /** The executable instructions but those of `todo` have been evaluated; those
      of `wait` are about to be evaluated again. */
  ghost predicate Staged(f: Function, s: Facts, todo: set<InstId>, wait: set<InstId>) {
    && AllClean(f, s) && ArgsTop(f, s) && CellsTyped(f, s) && WorkOk(s) && AllSteady(f, s) && Demanded(f, s)
    && (forall i {:trigger Stage(f, s, todo, i)} :: i in f.home ==> Stage(f, s, todo, i))
    && (forall i {:trigger Mate(f, s, i)} :: Executable(f, s, i) && i !in todo && i !in wait ==> Mate(f, s, i))
  }

  lemma RisenOf(f: Function, s: Facts, t: Facts, v: ValueId)
    requires RisesAt(s, t, v) && CleanAt(f, s, v) && CleanAt(f, t, v) && CellTyped(f, s, v) && CellTyped(f, t, v) && Known(f, s, v)
    ensures Risen(f, s, t, v)
  {
    CellRises(f, s, t, v);
  }

  lemma NowLater(f: Function, s: Facts, t: Facts, i: InstId)
    requires Rises(s, t) && AllClean(f, s) && AllClean(f, t) && CellsTyped(f, s) && CellsTyped(f, t) && ReadsKnown(f, s, f.At(i))
    ensures Leq(NowCell(f, s, i), NowCell(f, t, i)) && (NowUndef(f, s, i) ==> NowUndef(f, t, i))
    ensures IsPure(f.At(i)) ==> !NowCell(f, s, i).Bot?
    ensures NowUndef(f, s, i) ==> NowCell(f, s, i).Top?
    ensures ReadsKnown(f, t, f.At(i))
  {
    hide EvalCell, EvalUndef, JoinArgs, UndefArgs, Known, Reads, CellTyped, CleanAt, RisesAt;
    var inst := f.At(i);
    ReadsOf(f, s, inst);
    ReadsOf(f, t, inst);
    if inst.Phi? {
      JoinLater(f, s, t, Home(f, i), inst.args, Bot, Bot);
      UndefArgsLater(f, s, t, Home(f, i), inst.args, false, false);
      UndefIsTop(f, s, Home(f, i), inst.args, Bot, false);
    } else if IsPure(inst) {
      forall v | Reads(f, inst, v) ensures Risen(f, s, t, v) && Known(f, t, v) {
        assert Known(f, s, v) && RisesAt(s, t, v) && CleanAt(f, s, v) && CleanAt(f, t, v) && CellTyped(f, s, v) && CellTyped(f, t, v);
        RisenOf(f, s, t, v);
        CellRises(f, s, t, v);
      }
      hide Risen;
      PureLater(f, s, t, inst);
    }
  }

  lemma DoneLater(f: Function, s: Facts, t: Facts, i: InstId)
    requires Rises(s, t) && AllClean(f, s) && AllClean(f, t) && CellsTyped(f, s) && CellsTyped(f, t) && Done(f, s, i)
    requires f.ResultOf(i).Some? ==> SameAt(s, t, f.ResultOf(i).value)
    ensures Done(f, t, i)
  {
    hide NowCell, NowUndef, ReadsKnown, Rises, AllClean, CellsTyped;
    NowLater(f, s, t, i);
  }

  /** What evaluating `i` records. */
  lemma OneRecords(f: Function, s: Facts, i: InstId)
    requires WellFormed(f) && i in f.home && WorkOk(s) && CellsTyped(f, s) && ArgsTop(f, s)
    ensures var t := AfterOne(f, s, i);
      && WorkOk(t) && CellsTyped(f, t) && ArgsTop(f, t) && t.edges == s.edges && t.blocks == s.blocks
      && (forall v: ValueId {:trigger SameAt(s, t, v)} :: f.ResultOf(i) != Some(v) ==> SameAt(s, t, v))
      && (f.ResultOf(i).Some? ==>
            var r := f.ResultOf(i).value;
            CellAt(t, r) == NowCell(f, s, i) && UndefAt(t, r) == if IsPure(f.At(i)) || f.At(i).Phi? then NowUndef(f, s, i) else UndefAt(s, r))
  {
    hide EvalCell, EvalUndef, PhiCell, UndefArgs, WellFormed, CellsTyped, ArgsTop, WorkOk, AfterOne;
    OneTouches(f, s, i);
    InstOf(f, i);
    var t := AfterOne(f, s, i);
    forall v: ValueId ensures f.ResultOf(i) != Some(v) ==> SameAt(s, t, v) { assert Changed(f, s, t, i, v); }
    if f.ResultOf(i).Some? {
      NewUndef(f, s, i);
    }
  }

  lemma {:induction false} TableDemandListed(f: Function, s: Facts, c: Imm, table: seq<(ValueId, BlockId)>, default: Option<BlockId>, d: BlockId)
    requires d in TableDemand(f, s, c, table, default)
    ensures d in TableDests(default, table)
    decreases |table|
  {
    if table != [] {
      assert Second(table) == [table[0].1] + Second(table[1..]);
      if d != table[0].1 { TableDemandListed(f, s, c, table[1..], default, d); }
    }
  }

  lemma DemandListed(f: Function, s: Facts, inst: Inst, d: BlockId)
    requires d in Demand(f, s, inst)
    ensures d in Dests(inst)
  {
    if inst.BrTable? && CellOf(f, s, inst.scrutinee).Const? {
      TableDemandListed(f, s, CellOf(f, s, inst.scrutinee).imm, inst.table, inst.default, d);
    }
  }

  /** Only a branch pushes edges. */
  lemma FlowAfter(f: Function, s: Facts, i: InstId)
    ensures var t := AfterOne(f, s, i);
      if IsBranch(f.At(i)) then t == PushAll(s, i, Demand(f, s, f.At(i))) else t.flow == s.flow && t.edges == s.edges && t.blocks == s.blocks
  {
    hide Demand, EvalCell, EvalUndef, PhiCell, UndefArgs, PushAll;
  }

  // ----- a measure of what is left to do

  datatype Level = IsConst | IsTop | IsUndef

  /** How far each result can rise. */
  function Levels(f: Function): set<(ValueId, Level)> {
    set i: InstId, l | i in f.results && l in {IsConst, IsTop, IsUndef} :: (f.results[i], l)
  }

  function AllEdges(f: Function): set<FlowEdge> {
    set i: InstId, d | i in f.home && d in Dests(f.At(i)) :: FlowEdge(i, d)
  }

  predicate Reached(s: Facts, p: (ValueId, Level)) {
    match p.1
    case IsConst => !CellAt(s, p.0).Bot?
    case IsTop => CellAt(s, p.0).Top?
    case IsUndef => UndefAt(s, p.0)
  }

  function Missing(f: Function, s: Facts): set<(ValueId, Level)> {
    set p | p in Levels(f) && !Reached(s, p)
  }

  function Unpushed(f: Function, s: Facts): set<FlowEdge> {
    set e | e in AllEdges(f) && e !in s.edges && e !in s.flowSet
  }

  function Weight(f: Function, s: Facts): nat {
    |Missing(f, s)| + |Unpushed(f, s)| + |s.ssa| + |s.flow|
  }

  lemma MissingFalls(f: Function, s: Facts, t: Facts)
    requires Rises(s, t)
    ensures Missing(f, t) <= Missing(f, s) && |Missing(f, t)| <= |Missing(f, s)|
  {
    hide Levels;
    forall p | p in Missing(f, t) ensures p in Missing(f, s) { assert RisesAt(s, t, p.0); }
    Graphs.SubsetSize(Missing(f, t), Missing(f, s));
  }

  lemma SomethingRose(f: Function, s: Facts, t: Facts, i: InstId, r: ValueId)
    requires Rises(s, t) && f.ResultOf(i) == Some(r) && (CellAt(s, r) != CellAt(t, r) || UndefAt(s, r) != UndefAt(t, r))
    ensures |Missing(f, t)| < |Missing(f, s)|
  {
    assert (r, IsConst) in Levels(f) && (r, IsTop) in Levels(f) && (r, IsUndef) in Levels(f);
    hide Levels;
    MissingFalls(f, s, t);
    assert RisesAt(s, t, r);
    var l := if UndefAt(s, r) != UndefAt(t, r) then IsUndef else if CellAt(s, r).Bot? then IsConst else IsTop;
    assert (r, l) in Missing(f, s) && (r, l) !in Missing(f, t);
    Graphs.SubsetSize(Missing(f, t), Missing(f, s));
  }

  lemma PushWeight(f: Function, s: Facts, e: FlowEdge)
    requires e in AllEdges(f)
    ensures Weight(f, PushFlow(s, e)) == Weight(f, s)
  {
    hide AllEdges, Levels, Reached;
    var t := PushFlow(s, e);
    MissingSame(f, s, t);
    if t != s { assert Unpushed(f, s) == Unpushed(f, t) + {e}; }
  }

  lemma MissingSame(f: Function, s: Facts, t: Facts)
    requires t.lattice == s.lattice && t.mayBeUndef == s.mayBeUndef
    ensures Missing(f, t) == Missing(f, s)
  {
    hide Levels;
    forall p ensures Reached(s, p) == Reached(t, p) {}
  }

  lemma {:induction false} PushAllWeight(f: Function, s: Facts, i: InstId, ds: seq<BlockId>)
    requires forall d :: d in ds ==> FlowEdge(i, d) in AllEdges(f)
    ensures Weight(f, PushAll(s, i, ds)) == Weight(f, s)
    decreases |ds|
  {
    hide AllEdges, Weight, PushFlow;
    if ds != [] {
      PushWeight(f, s, FlowEdge(i, ds[0]));
      assert forall d :: d in ds[1..] ==> d in ds;
      PushAllWeight(f, PushFlow(s, FlowEdge(i, ds[0])), i, ds[1..]);
    }
  }

  /** A value is pushed only when one of its facts changes. */
  lemma SetsPush(s: Facts, r: ValueId, c: Cell, u: bool)
    ensures var t := SetUndef(SetCell(s, r, c), r, u);
      && t.flow == s.flow && t.flowSet == s.flowSet && t.edges == s.edges
      && (t.ssa == s.ssa || (|t.ssa| == |s.ssa| + 1 && (CellAt(s, r) != CellAt(t, r) || UndefAt(s, r) != UndefAt(t, r))))
    ensures var t := SetCell(s, r, c);
      && t.flow == s.flow && t.flowSet == s.flowSet && t.edges == s.edges
      && (t.ssa == s.ssa || (|t.ssa| == |s.ssa| + 1 && CellAt(s, r) != CellAt(t, r)))
  {
  }

  lemma OneSets(f: Function, s: Facts, i: InstId)
    requires !IsBranch(f.At(i))
    ensures var t := AfterOne(f, s, i);
      && t.flow == s.flow && t.flowSet == s.flowSet && t.edges == s.edges
      && (t.ssa == s.ssa || (f.ResultOf(i).Some? && |t.ssa| == |s.ssa| + 1 &&
            var r := f.ResultOf(i).value; CellAt(s, r) != CellAt(t, r) || UndefAt(s, r) != UndefAt(t, r)))
  {
    hide EvalCell, EvalUndef, PhiCell, UndefArgs, SetCell, SetUndef;
    if f.ResultOf(i).Some? {
      var r := f.ResultOf(i).value;
      if f.At(i).Phi? {
        SetsPush(s, r, PhiCell(f, s, i), UndefArgs(f, s, Home(f, i), f.At(i).args, false));
      } else if IsPure(f.At(i)) {
        SetsPush(s, r, EvalCell(f, s, f.At(i)), EvalUndef(f, s, f.At(i)));
      } else {
        SetsPush(s, r, Top, false);
      }
    }
  }

  /** Evaluating an instruction leaves no more to do than before. */
  lemma OneWeight(f: Function, s: Facts, i: InstId)
    requires i in f.home && Rises(s, AfterOne(f, s, i))
    ensures Weight(f, AfterOne(f, s, i)) <= Weight(f, s)
  {
    hide Demand, PushAll, Dests, IsBranch, AfterOne, Missing, Rises, AllEdges;
    var t := AfterOne(f, s, i);
    if IsBranch(f.At(i)) {
      FlowAfter(f, s, i);
      forall d | d in Demand(f, s, f.At(i)) ensures FlowEdge(i, d) in AllEdges(f) {
        DemandListed(f, s, f.At(i), d);
        EdgeCounted(f, i, d);
      }
      PushAllWeight(f, s, i, Demand(f, s, f.At(i)));
    } else {
      OneSets(f, s, i);
      MissingFalls(f, s, t);
      if t.ssa != s.ssa { SomethingRose(f, s, t, i, f.ResultOf(i).value); }
      assert Unpushed(f, s) == Unpushed(f, t);
    }
  }

  lemma EdgeCounted(f: Function, i: InstId, d: BlockId)
    requires i in f.home && d in Dests(f.At(i))
    ensures FlowEdge(i, d) in AllEdges(f)
  {
  }

  /** Evaluating an instruction whose operands are known raises the facts and
      completes it. */
  lemma OneRises(f: Function, s: Facts, i: InstId, todo: set<InstId>, wait: set<InstId>)
    requires WellFormed(f) && Staged(f, s, todo, wait) && Executable(f, s, i) && ReadsKnown(f, s, f.At(i))
    requires f.At(i).Phi? && f.ResultOf(i).Some? ==> !NowCell(f, s, i).Bot?
    ensures var t := AfterOne(f, s, i);
      Rises(s, t) && StaysBelow(f, s, t) && Weight(f, t) <= Weight(f, s) && Staged(f, t, todo - {i}, wait - {i}) && t.blocks == s.blocks && t.edges == s.edges
  {
    hide WellFormed, NowCell, NowUndef, ReadsKnown, CellsTyped, ArgsTop, WorkOk, AfterOne, CleanAt, Mate, AllSteady, Weight, Demanded, Below, Solution;
    forall u | Solution(f, u) && Below(s, u) ensures Below(AfterOne(f, s, i), u) { OneBelow(f, s, i, u); }
    var t := AfterOne(f, s, i);
    OneRecords(f, s, i);
    EvaluatedKnown(f, s, i);
    InstOf(f, i);
    assert Stage(f, s, todo, i);
    forall v: ValueId ensures RisesAt(s, t, v) && CleanAt(f, t, v) {
      assert CleanAt(f, s, v);
      if f.ResultOf(i) == Some(v) { RecordedClean(f, t, i, v); } else { SameClean(f, s, t, v); }
    }
    NowLater(f, s, t, i);
    forall j: InstId | j in f.home ensures Stage(f, t, todo - {i}, j) {
      assert Stage(f, s, todo, j);
      if j != i {
        InstOf(f, j);
        ResultsApart(f, i, j);
        assert f.ResultOf(j).Some? ==> SameAt(s, t, f.ResultOf(j).value);
        if Executable(f, s, j) && j !in todo { DoneLater(f, s, t, j); }
      }
    }
    forall j: InstId | Executable(f, t, j) && j !in todo - {i} && j !in wait - {i} ensures Mate(f, t, j) {
      if j == i { MateMade(f, s, i, todo, wait); } else { MateKept(f, s, i, j); }
    }
    SteadyKept(f, s, i, todo, wait);
    OneWeight(f, s, i);
    OneDemands(f, s, i);
  }

  /** The negation itself is evaluated. */
  lemma MateMade(f: Function, s: Facts, i: InstId, todo: set<InstId>, wait: set<InstId>)
    requires WellFormed(f) && Staged(f, s, todo, wait) && Executable(f, s, i) && ReadsKnown(f, s, f.At(i))
    ensures Mate(f, AfterOne(f, s, i), i)
  {
    hide WellFormed, ReadsKnown, CellsTyped, ArgsTop, WorkOk, AfterOne, AllSteady, AllClean, CellOf;
    var inst, t := f.At(i), AfterOne(f, s, i);
    OneRecords(f, s, i);
    if IsTwice(f, inst) && Plain(f, Inner(f, inst)) && f.ResultOf(i).Some? {
      InnerDone(f, s, i, todo, wait);
      var j := Inner(f, inst);
      FlipIs(f, s, f.At(j));
      InstOf(f, i);
      InstOf(f, j);
      ResultsApart(f, i, j);
      assert SameAt(s, t, inst.arg);
    }
  }

  /** The definition of a known value has been evaluated. */
  lemma DefinitionDone(f: Function, s: Facts, todo: set<InstId>, wait: set<InstId>, v: ValueId)
    requires WellFormed(f) && Staged(f, s, todo, wait) && f.Data(v).Result? && f.Data(v).inst in f.home && Known(f, s, v)
    ensures f.ResultOf(f.Data(v).inst) == Some(v)
    ensures Executable(f, s, f.Data(v).inst) && f.Data(v).inst !in todo && Done(f, s, f.Data(v).inst)
  {
    hide WellFormed, Done;
    ValueOf(f, v);
    assert Stage(f, s, todo, f.Data(v).inst);
  }

  lemma InnerDone(f: Function, s: Facts, i: InstId, todo: set<InstId>, wait: set<InstId>)
    requires WellFormed(f) && Staged(f, s, todo, wait) && i in f.home && ReadsKnown(f, s, f.At(i)) && IsTwice(f, f.At(i))
    ensures var j := Inner(f, f.At(i));
      && f.ResultOf(j) == Some(f.At(i).arg) && Executable(f, s, j) && j !in todo && Done(f, s, j)
      && f.At(j) == Unary(f.At(i).unop, Source(f, f.At(i))) && Known(f, s, f.At(i).arg)
  {
    hide WellFormed, Staged, Known, Done, InstOk;
    var a := f.At(i).arg;
    assert Reads(f, f.At(i), a);
    InstOf(f, i);
    OperandHere(f, i, a);
    DefinitionDone(f, s, todo, wait, a);
  }

  lemma OperandHere(f: Function, i: InstId, v: ValueId)
    requires InstOk(f, i) && v in Operands(f.At(i))
    ensures f.Data(v).Result? ==> f.Data(v).inst in f.home
  {
  }

  /** Another instruction is evaluated. */
  lemma MateKept(f: Function, s: Facts, k: InstId, i: InstId)
    requires WellFormed(f) && k in f.home && i in f.home && k != i && WorkOk(s) && CellsTyped(f, s) && ArgsTop(f, s) && Mate(f, s, i)
    ensures Mate(f, AfterOne(f, s, k), i)
  {
    hide WellFormed, WorkOk, CellsTyped, ArgsTop, AfterOne, InstOk;
    var t := AfterOne(f, s, k);
    OneTouches(f, s, k);
    InstOf(f, k);
    InstOf(f, i);
    ResultsApart(f, k, i);
    if f.At(i).Unary? { assert Changed(f, s, t, k, f.At(i).arg); }
    if f.ResultOf(i).Some? { assert Changed(f, s, t, k, f.ResultOf(i).value); }
  }

  lemma SteadyKept(f: Function, s: Facts, i: InstId, todo: set<InstId>, wait: set<InstId>)
    requires WellFormed(f) && Staged(f, s, todo, wait) && Executable(f, s, i) && ReadsKnown(f, s, f.At(i))
    ensures AllSteady(f, AfterOne(f, s, i))
  {
    hide WellFormed, ReadsKnown, CellsTyped, ArgsTop, WorkOk, AfterOne, AllClean, Stage, NowCell, Known, CellOf;
    var t := AfterOne(f, s, i);
    OneRecords(f, s, i);
    InstOf(f, i);
    forall v: ValueId, d: nat ensures SteadyAt(f, t, v, d) {
      assert SteadyAt(f, s, v, d);
      if f.ResultOf(i) == Some(v) {
        if Steady(f, v, d) {
          SteadyResult(f, s, i, d);
          CellOfResult(f, t, v);
        }
      } else {
        assert SameAt(s, t, v);
        SameCell(f, s, t, v);
      }
    }
  }

  lemma CellOfResult(f: Function, s: Facts, v: ValueId)
    requires f.Data(v).Result?
    ensures CellOf(f, s, v) == CellAt(s, v)
  {
  }

  lemma SameCell(f: Function, s: Facts, t: Facts, v: ValueId)
    requires SameAt(s, t, v)
    ensures CellOf(f, s, v) == CellOf(f, t, v) && Known(f, s, v) == Known(f, t, v)
  {
  }

  lemma SteadyResult(f: Function, s: Facts, i: InstId, d: nat)
    requires WellFormed(f) && AllSteady(f, s) && i in f.home && ReadsKnown(f, s, f.At(i)) && CellsTyped(f, s)
    requires f.ResultOf(i).Some? && Steady(f, f.ResultOf(i).value, d)
    ensures NowCell(f, s, i) == SteadyCell(f, f.ResultOf(i).value, d)
  {
    hide WellFormed, ReadsKnown, CellsTyped, Known, CellOf, Flip;
    InstOf(f, i);
    var inst := f.At(i);
    if inst.Unary? {
      assert Reads(f, inst, inst.arg);
      ReadKnown(f, s, inst, inst.arg);
      assert SteadyAt(f, s, inst.arg, d - 1);
      FlipIs(f, s, inst);
      if IsTwice(f, inst) {
        var z := Source(f, inst);
        ReadKnown(f, s, inst, z);
        assert SteadyAt(f, s, z, d - 2);
        SourceTyped(f, s, z);
        FlipTwice(inst.unop, CellOf(f, s, z));
      }
    }
  }

  lemma ReadKnown(f: Function, s: Facts, inst: Inst, v: ValueId)
    requires ReadsKnown(f, s, inst) && IsPure(inst) && Reads(f, inst, v)
    ensures Known(f, s, v)
  {
  }

  lemma SourceTyped(f: Function, s: Facts, v: ValueId)
    requires WellFormed(f) && CellsTyped(f, s)
    ensures CellOf(f, s, v).Const? ==> WellSized(CellOf(f, s, v).imm)
  {
    hide WellFormed;
    ValueOf(f, v);
    assert CellTyped(f, s, v);
    ConstTyped(f, s, v);
  }

  lemma FlipTwice(op: UnOp, c: Cell)
    requires op != IsZero && (c.Const? ==> WellSized(c.imm))
    ensures Flip(op, Flip(op, c)) == c
  {
    if c.Const? { TwiceNegated(op, c.imm); }
  }

  lemma SameClean(f: Function, s: Facts, t: Facts, v: ValueId)
    requires SameAt(s, t, v) && CleanAt(f, s, v)
    ensures CleanAt(f, t, v) && RisesAt(s, t, v)
  {
  }

  lemma RecordedClean(f: Function, t: Facts, i: InstId, r: ValueId)
    requires f.Data(r) == Result(i) && (UndefAt(t, r) ==> CellAt(t, r).Top?)
    ensures CleanAt(f, t, r)
  {
  }

  lemma ResultsApart(f: Function, i: InstId, j: InstId)
    requires InstOk(f, i) && InstOk(f, j) && i != j
    ensures f.ResultOf(i).Some? ==> f.ResultOf(j) != f.ResultOf(i)
  {
  }

  /** Unless it is a phi, what is evaluated becomes known. */
  lemma EvaluatedKnown(f: Function, s: Facts, i: InstId)
    requires AllClean(f, s) && CellsTyped(f, s) && ReadsKnown(f, s, f.At(i))
    ensures !f.At(i).Phi? ==> !NowCell(f, s, i).Bot?
    ensures NowUndef(f, s, i) ==> NowCell(f, s, i).Top?
  {
    hide EvalCell, AllClean, CellsTyped, ReadsKnown;
    assert Rises(s, s);
    NowLater(f, s, s, i);
    ReadsOf(f, s, f.At(i));
  }

  // ----- the executable part of the graph

  ghost predicate WalkOf(f: Function, blocks: set<BlockId>, b: BlockId, p: seq<BlockId>) {
    Graphs.Path(Graph(f), f.entry, p, b) && forall c :: c in p ==> c in blocks
  }

  ghost predicate WalkIn(f: Function, blocks: set<BlockId>, b: BlockId) {
    exists p: seq<BlockId> {:trigger WalkOf(f, blocks, b, p)} :: WalkOf(f, blocks, b, p)
  }

  ghost predicate Walks(f: Function, blocks: set<BlockId>) {
    f.entry in blocks && forall b {:trigger WalkIn(f, blocks, b)} :: b in blocks ==> WalkIn(f, blocks, b)
  }

  lemma DominatorIn(f: Function, blocks: set<BlockId>, d: BlockId, b: BlockId)
    requires Walks(f, blocks) && b in blocks && Dominates(f, d, b)
    ensures d in blocks
  {
    assert WalkIn(f, blocks, b);
    var p :| WalkOf(f, blocks, b, p);
  }

  lemma WalksGrow(f: Function, blocks: set<BlockId>, b: BlockId, d: BlockId)
    requires Walks(f, blocks) && b in blocks && b in f.layout && HasEdge(f, b, d)
    ensures Walks(f, blocks + {d})
  {
    var more := blocks + {d};
    forall c: BlockId | c in more ensures WalkIn(f, more, c) {
      if c in blocks {
        assert WalkIn(f, blocks, c);
        WalkInMore(f, blocks, more, c);
      } else {
        assert WalkIn(f, blocks, b);
        WalkOn(f, blocks, b, d);
      }
    }
  }

  lemma WalkInMore(f: Function, blocks: set<BlockId>, more: set<BlockId>, b: BlockId)
    requires WalkIn(f, blocks, b) && blocks <= more
    ensures WalkIn(f, more, b)
  {
    hide Graph, Graphs.Path;
    var p :| WalkOf(f, blocks, b, p);
    assert WalkOf(f, more, b, p);
  }

  lemma WalkOn(f: Function, blocks: set<BlockId>, b: BlockId, d: BlockId)
    requires WalkIn(f, blocks, b) && b in f.layout && HasEdge(f, b, d)
    ensures WalkIn(f, blocks + {d}, d)
  {
    GraphEdge(f, b, d);
    hide Graph, HasEdge, Graphs.Path, Graphs.Edge;
    var p :| WalkOf(f, blocks, b, p);
    Graphs.PathSnoc(Graph(f), f.entry, p, b, d);
    assert WalkOf(f, blocks + {d}, d, p + [d]);
  }

  lemma GraphEdge(f: Function, b: BlockId, d: BlockId)
    requires b in f.layout && HasEdge(f, b, d)
    ensures Graphs.Edge(Graph(f), b, d)
  {
  }

  lemma EntryWalks(f: Function)
    ensures Walks(f, {f.entry})
  {
    assert WalkOf(f, {f.entry}, f.entry, []);
  }

  predicate EdgeFrom(f: Function, blocks: set<BlockId>, e: FlowEdge) {
    && e.inst in f.home && f.home[e.inst] in blocks && f.LastInst(f.home[e.inst]) == Some(e.inst)
    && e.to in Dests(f.At(e.inst))
  }

  /** Edges found executable, or about to be, leave executable blocks. */
  ghost predicate Sources(f: Function, s: Facts) {
    forall e {:trigger EdgeFrom(f, s.blocks, e)} :: e in s.edges || e in s.flow ==> EdgeFrom(f, s.blocks, e)
  }

  // ----- operands are known when they are needed

  /** The instructions of `todo` lie in blocks outside `blocks`, or in `b` but not
      among its first `k`. */
  ghost predicate Behind(f: Function, todo: set<InstId>, blocks: set<BlockId>, b: BlockId, k: nat)
    requires k <= |f.Body(b)|
  {
    && (forall i :: i in todo && i in f.home ==> f.home[i] == b || f.home[i] !in blocks)
    && (forall i :: i in f.Body(b)[..k] ==> i !in todo)
  }

  lemma AvailableKnown(f: Function, s: Facts, todo: set<InstId>, wait: set<InstId>, blocks: set<BlockId>, b: BlockId, k: nat, v: ValueId)
    requires WellFormed(f) && Staged(f, s, todo, wait) && Walks(f, blocks) && b in blocks && blocks <= s.blocks
    requires k <= |f.Body(b)| && Available(f, b, k, v) && Behind(f, todo, blocks, b, k)
    ensures Known(f, s, v)
  {
    hide WellFormed, Walks, Dominates, AllClean, AllSteady, Mate, NowCell, NowUndef, ReadsKnown;
    ValueOf(f, v);
    if f.Data(v).Result? {
      var j := f.Data(v).inst;
      if j in f.Body(b)[..k] {
        PlacedOf(f, b, j);
      } else {
        DominatorIn(f, blocks, f.home[j], b);
      }
      assert Stage(f, s, todo, j);
    }
  }

  lemma InstReady(f: Function, s: Facts, todo: set<InstId>, wait: set<InstId>, blocks: set<BlockId>, b: BlockId, k: nat)
    requires WellFormed(f) && Staged(f, s, todo, wait) && Walks(f, blocks) && b in blocks && blocks <= s.blocks
    requires k < |f.Body(b)| && UsesDefined(f, b, k) && Behind(f, todo, blocks, b, k)
    ensures ReadsKnown(f, s, f.At(f.Body(b)[k]))
  {
    hide WellFormed, Walks, Available, Behind, Known, Staged, SimplifyTwice;
    var i := f.Body(b)[k];
    var inst := f.At(i);
    PlacedOf(f, b, i);
    InstOf(f, i);
    if IsPure(inst) {
      forall v | Reads(f, inst, v) ensures Known(f, s, v) {
        if v in Operands(inst) {
          AvailableKnown(f, s, todo, wait, blocks, b, k, v);
        } else {
          AvailableKnown(f, s, todo, wait, blocks, b, k, inst.arg);
          SourceKnown(f, s, i, todo, wait);
        }
      }
    }
  }

  lemma SourceKnown(f: Function, s: Facts, i: InstId, todo: set<InstId>, wait: set<InstId>)
    requires WellFormed(f) && Staged(f, s, todo, wait) && i in f.home && IsTwice(f, f.At(i)) && Known(f, s, f.At(i).arg)
    ensures Known(f, s, Source(f, f.At(i)))
  {
    hide WellFormed, Staged, Known;
    var a := f.At(i).arg;
    InstOf(f, i);
    OperandHere(f, i, a);
    DefinitionDone(f, s, todo, wait, a);
    var j := Inner(f, f.At(i));
    assert Reads(f, f.At(j), Source(f, f.At(i)));
    ReadKnown(f, s, f.At(j), Source(f, f.At(i)));
  }

  /** `b` is the entry, or has just been entered over an edge from `old`. */
  ghost predicate Entered(f: Function, s: Facts, old_: set<BlockId>, b: BlockId) {
    b == f.entry ||
    (Walks(f, old_) && b !in old_ && old_ <= s.blocks && exists e {:trigger EdgeFrom(f, old_, e)} :: e in s.edges && e.to == b && EdgeFrom(f, old_, e))
  }

  /** A phi has a known incoming value over the edge its block was entered by. */
  lemma PhiReady(f: Function, s: Facts, todo: set<InstId>, wait: set<InstId>, old_: set<BlockId>, b: BlockId, k: nat)
    requires WellFormed(f) && SsaForm(f) && Staged(f, s, todo, wait) && Entered(f, s, old_, b)
    requires k < |f.Body(b)| && f.At(f.Body(b)[k]).Phi? && forall i :: i in todo && i in f.home ==> f.home[i] == b
    ensures !NowCell(f, s, f.Body(b)[k]).Bot?
  {
    hide WellFormed, Walks, Staged, Available, Known, HasEdge;
    var i := f.Body(b)[k];
    PlacedOf(f, b, i);
    assert UsesDefined(f, b, k);
    assert b != f.entry;
    var e :| e in s.edges && e.to == b && EdgeFrom(f, old_, e);
    var p := f.home[e.inst];
    EdgeIs(f, old_, e);
    var args := f.At(i).args;
    assert PhiFits(f, b, args) && p in Second(args);
    var j: nat :| j < |args| && args[j].1 == p;
    BodyBehind(f, todo, old_, b, p);
    AvailableKnown(f, s, todo, wait, old_, p, |f.Body(p)|, args[j].0);
    ReachedBy(f, s, old_, e);
    JoinKnown(f, s, Home(f, i), args, Bot, j);
  }

  lemma EdgeIs(f: Function, blocks: set<BlockId>, e: FlowEdge)
    requires EdgeFrom(f, blocks, e)
    ensures HasEdge(f, f.home[e.inst], e.to) && f.home[e.inst] in f.layout
  {
  }

  lemma ReachedBy(f: Function, s: Facts, blocks: set<BlockId>, e: FlowEdge)
    requires WellFormed(f) && EdgeFrom(f, blocks, e) && e in s.edges
    ensures IsReachable(f, s, f.home[e.inst], e.to) && e.to in f.layout
  {
    hide WellFormed;
    InstOf(f, e.inst);
  }

  lemma BodyBehind(f: Function, todo: set<InstId>, blocks: set<BlockId>, b: BlockId, p: BlockId)
    requires WellFormed(f) && b !in blocks && p in blocks && forall i :: i in todo && i in f.home ==> f.home[i] == b
    ensures Behind(f, todo, blocks, p, |f.Body(p)|)
  {
    hide WellFormed;
    forall i | i in f.Body(p)[..|f.Body(p)|] ensures i !in todo { PlacedOf(f, p, i); }
  }

  // ----- the turns of the two loops

  lemma RisesTwice(s: Facts, t: Facts, u: Facts)
    requires Rises(s, t) && Rises(t, u)
    ensures Rises(s, u)
  {
    hide CellAt, UndefAt;
    forall v: ValueId ensures RisesAt(s, u, v) { assert RisesAt(s, t, v) && RisesAt(t, u, v); }
  }

  lemma RisesRefl(s: Facts)
    ensures Rises(s, s)
  {
  }

  function From(f: Function, b: BlockId, k: nat): set<InstId>
    requires k <= |f.Body(b)|
  {
    set i | i in f.Body(b)[k..]
  }

  lemma FromStep(f: Function, b: BlockId, k: nat)
    requires PlacedOnce(f) && k < |f.Body(b)|
    ensures From(f, b, k) - {f.Body(b)[k]} == From(f, b, k + 1)
    ensures f.Body(b)[k..][1..] == f.Body(b)[k + 1..] && f.Body(b)[k..][0] == f.Body(b)[k]
    ensures forall i :: i in f.Body(b)[..k] ==> i !in From(f, b, k)
  {
    assert f.Body(b)[k..] == [f.Body(b)[k]] + f.Body(b)[k + 1..];
  }

  lemma FromHome(f: Function, b: BlockId, k: nat)
    requires WellFormed(f) && k <= |f.Body(b)|
    ensures forall i :: i in From(f, b, k) ==> i in f.home && f.home[i] == b
  {
    hide WellFormed;
    forall i | i in From(f, b, k) ensures i in f.home && f.home[i] == b { PlacedOf(f, b, i); }
  }

  /** Evaluating a block that has just been entered. */
  lemma {:induction false} BlockRises(f: Function, s: Facts, old_: set<BlockId>, b: BlockId, k: nat)
    requires WellFormed(f) && SsaForm(f) && k <= |f.Body(b)| && b in s.blocks && Staged(f, s, From(f, b, k), {})
    requires Walks(f, s.blocks) && Entered(f, s, old_, b)
    ensures var t := AfterAll(f, s, f.Body(b)[k..]);
      Rises(s, t) && StaysBelow(f, s, t) && Weight(f, t) <= Weight(f, s) && Staged(f, t, {}, {}) && t.blocks == s.blocks && t.edges == s.edges
    decreases |f.Body(b)| - k
  {
    hide WellFormed, SsaForm, Staged, Walks, AfterOne, Entered, Rises, Dominates, UsesDefined, ReadsKnown, Weight, StaysBelow;
    if k == |f.Body(b)| {
      assert f.Body(b)[k..] == [] && From(f, b, k) == {};
      RisesRefl(s);
      BelowRefl(f, s);
    } else {
      SsaParts(f, b, k);
      FromStep(f, b, k);
      FromHome(f, b, k);
      var i := f.Body(b)[k];
      PlacedOf(f, b, i);
      if f.At(i).Phi? {
        PhiReady(f, s, From(f, b, k), {}, old_, b, k);
        PhiReads(f, s, i);
      } else {
        InstReady(f, s, From(f, b, k), {}, s.blocks, b, k);
      }
      OneRises(f, s, i, From(f, b, k), {});
      var t := AfterOne(f, s, i);
      assert {} - {i} == {};
      StillEntered(f, s, t, old_, b);
      BlockRises(f, t, old_, b, k + 1);
      RisesTwice(s, t, AfterAll(f, t, f.Body(b)[k + 1..]));
      BelowTwice(f, s, t, AfterAll(f, t, f.Body(b)[k + 1..]));
    }
  }

  lemma SsaParts(f: Function, b: BlockId, k: nat)
    requires SsaForm(f) && k < |f.Body(b)|
    ensures PlacedOnce(f) && UsesDefined(f, b, k)
  {
    hide UsesDefined;
  }

  lemma PhiReads(f: Function, s: Facts, i: InstId)
    requires f.At(i).Phi?
    ensures ReadsKnown(f, s, f.At(i))
  {
  }

  lemma StillEntered(f: Function, s: Facts, t: Facts, old_: set<BlockId>, b: BlockId)
    requires Entered(f, s, old_, b) && t.blocks == s.blocks && t.edges == s.edges
    ensures Entered(f, t, old_, b)
  {
    hide Walks;
  }

  /** Evaluating again what has been evaluated. */
  lemma AgainRises(f: Function, s: Facts, i: InstId, wait: set<InstId>)
    requires WellFormed(f) && Staged(f, s, {}, wait) && Executable(f, s, i)
    ensures var t := AfterOne(f, s, i); Rises(s, t) && StaysBelow(f, s, t) && Weight(f, t) <= Weight(f, s) && Staged(f, t, {}, wait - {i}) && t.blocks == s.blocks && t.edges == s.edges
  {
    hide WellFormed, NowCell, ReadsKnown, Rises, AfterOne, AllClean, AllSteady, Mate, Weight, StaysBelow;
    assert Stage(f, s, {}, i);
    assert {} - {i} == {};
    OneRises(f, s, i, {}, wait);
  }

  lemma {:induction false} PhisRise(f: Function, s: Facts, insts: seq<InstId>)
    requires WellFormed(f) && Staged(f, s, {}, {}) && forall i :: i in insts ==> Executable(f, s, i)
    ensures var t := AfterPhis(f, s, insts); Rises(s, t) && StaysBelow(f, s, t) && Weight(f, t) <= Weight(f, s) && Staged(f, t, {}, {}) && t.blocks == s.blocks && t.edges == s.edges
    decreases |insts|
  {
    hide WellFormed, Staged, Rises, AfterPhi, Weight, StaysBelow;
    RisesRefl(s);
    BelowRefl(f, s);
    if insts != [] {
      var t := if f.At(insts[0]).Phi? then AfterPhi(f, s, insts[0]) else s;
      if f.At(insts[0]).Phi? {
        AgainRises(f, s, insts[0], {});
        assert {} - {insts[0]} == {};
      }
      forall i | i in insts[1..] ensures Executable(f, t, i) { assert i in insts && Executable(f, s, i); }
      PhisRise(f, t, insts[1..]);
      RisesTwice(s, t, AfterPhis(f, t, insts[1..]));
      BelowTwice(f, s, t, AfterPhis(f, t, insts[1..]));
    }
  }

  lemma {:induction false} UsersRise(f: Function, s: Facts, insts: seq<InstId>, wait: set<InstId>)
    requires WellFormed(f) && Staged(f, s, {}, wait) && forall i :: i in insts ==> i in f.home
    requires forall i :: i in wait ==> i in insts && Executable(f, s, i)
    ensures var t := AfterUsers(f, s, insts); Rises(s, t) && StaysBelow(f, s, t) && Weight(f, t) <= Weight(f, s) && Staged(f, t, {}, {}) && t.blocks == s.blocks && t.edges == s.edges
    decreases |insts|
  {
    hide WellFormed, Staged, Rises, AfterOne, Weight, StaysBelow;
    RisesRefl(s);
    BelowRefl(f, s);
    if insts == [] {
      assert wait == {};
    } else if Home(f, insts[0]) in s.blocks {
      AgainRises(f, s, insts[0], wait);
      var t := AfterOne(f, s, insts[0]);
      UsersRise(f, t, insts[1..], wait - {insts[0]});
      RisesTwice(s, t, AfterUsers(f, t, insts[1..]));
      BelowTwice(f, s, t, AfterUsers(f, t, insts[1..]));
    } else {
      UsersRise(f, s, insts[1..], wait);
    }
  }

  // ----- the worklist of edges

  lemma {:induction false} PushAllFlow(s: Facts, i: InstId, ds: seq<BlockId>, e: FlowEdge)
    requires e in PushAll(s, i, ds).flow
    ensures e in s.flow || (e.inst == i && e.to in ds)
    decreases |ds|
  {
    if ds != [] { PushAllFlow(PushFlow(s, FlowEdge(i, ds[0])), i, ds[1..], e); }
  }

  lemma OneSources(f: Function, s: Facts, i: InstId)
    requires WellFormed(f) && Executable(f, s, i) && Sources(f, s)
    ensures var t := AfterOne(f, s, i); Sources(f, t) && t.edges == s.edges && t.blocks == s.blocks
  {
    hide WellFormed, Demand, EdgeFrom, PushAll, Dests, IsBranch, AfterOne;
    FlowAfter(f, s, i);
    var ds, t := Demand(f, s, f.At(i)), AfterOne(f, s, i);
    InstOf(f, i);
    PlacedOf(f, f.home[i], i);
    PushAllGrows(s, i, ds);
    forall e | e in t.edges || e in t.flow ensures EdgeFrom(f, t.blocks, e) {
      if IsBranch(f.At(i)) && e in t.flow && e !in s.flow {
        PushAllFlow(s, i, ds, e);
        DemandListed(f, s, f.At(i), e.to);
        BranchEdge(f, s, i, e);
      } else {
        assert e in s.edges || e in s.flow;
        assert EdgeFrom(f, s.blocks, e);
      }
    }
  }

  lemma BranchEdge(f: Function, s: Facts, i: InstId, e: FlowEdge)
    requires Executable(f, s, i) && PlacedAt(f, f.home[i], i) && IsBranch(f.At(i)) && e.inst == i && e.to in Dests(f.At(i))
    ensures EdgeFrom(f, s.blocks, e)
  {
  }

  lemma {:induction false} ListSources(f: Function, s: Facts, insts: seq<InstId>)
    requires WellFormed(f) && Sources(f, s) && forall i :: i in insts ==> i in f.home
    ensures (forall i :: i in insts ==> Executable(f, s, i)) ==> Sources(f, AfterAll(f, s, insts)) && Sources(f, AfterPhis(f, s, insts))
    ensures Sources(f, AfterUsers(f, s, insts))
    decreases |insts|
  {
    hide WellFormed, Sources, AfterPhi, AfterInst;
    if insts != [] {
      var i, rest := insts[0], insts[1..];
      assert i in insts && forall j :: j in rest ==> j in insts;
      ListSources(f, s, rest);
      if Executable(f, s, i) {
        OneSources(f, s, i);
        ListSources(f, AfterOne(f, s, i), rest);
      }
    }
  }

  // ----- after any number of turns

  /** With a block `more` holds the ends of the executable edges that leave it. */
  ghost predicate Follows(f: Function, s: Facts, more: set<BlockId>) {
    forall e {:trigger e in s.edges} :: e in s.edges && e.inst in f.home && f.home[e.inst] in more ==> e.to in more
  }

  /** The executable blocks are reached from the entry over executable edges: no
      smaller set holds the entry and what follows. */
  ghost predicate Led(f: Function, s: Facts) {
    forall more: set<BlockId> {:trigger Follows(f, s, more)} :: f.entry in more && Follows(f, s, more) ==> s.blocks <= more
  }

  lemma LedOn(f: Function, s: Facts)
    requires Led(f, s) && Sources(f, s) && s.flow != []
    ensures Led(f, WithEdge(s)) && Led(f, PopFlow(s))
  {
    var e, t := s.flow[|s.flow| - 1], WithEdge(s);
    assert EdgeFrom(f, s.blocks, e);
    forall more: set<BlockId> | f.entry in more && Follows(f, t, more) ensures t.blocks <= more {
      assert Follows(f, s, more);
      assert e in t.edges;
    }
    forall more: set<BlockId> | f.entry in more && Follows(f, PopFlow(s), more) ensures s.blocks <= more { assert Follows(f, s, more); }
  }

  /** Taking work off a worklist, and finding an edge executable that was waiting. */
  lemma PoppedBelow(f: Function, s: Facts)
    ensures s.flow != [] ==> StaysBelow(f, s, WithEdge(s)) && StaysBelow(f, s, PopFlow(s))
    ensures s.ssa != [] ==> StaysBelow(f, s, PopSsa(s))
  {
    forall u | Solution(f, u) && Below(s, u)
      ensures s.flow != [] ==> Below(WithEdge(s), u) && Below(PopFlow(s), u)
      ensures s.ssa != [] ==> Below(PopSsa(s), u)
    {
      if s.flow != [] {
        assert s.flow[|s.flow| - 1] in u.edges;
        SameBelow(s, WithEdge(s), u);
        SameBelow(s, PopFlow(s), u);
      }
      if s.ssa != [] { SameBelow(s, PopSsa(s), u); }
    }
  }

  lemma SameBelow(s: Facts, t: Facts, u: Facts)
    requires Below(s, u) && SameCells(s, t) && t.edges <= u.edges && t.blocks <= u.blocks && forall e :: e in t.flow ==> e in s.flow
    ensures Below(t, u)
  {
    forall v: ValueId ensures RisesAt(t, u, v) { assert RisesAt(s, u, v); }
  }

  lemma SameLed(f: Function, s: Facts, t: Facts)
    requires Led(f, s) && t.edges == s.edges && t.blocks == s.blocks
    ensures Led(f, t)
  {
    forall more: set<BlockId> | f.entry in more && Follows(f, t, more) ensures t.blocks <= more { assert Follows(f, s, more); }
  }

  ghost predicate SsaInv(f: Function, s: Facts) {
    Staged(f, s, {}, {}) && Walks(f, s.blocks) && Sources(f, s) && Led(f, s)
  }

  /** An edge is found executable: the instructions of a new block are to be
      evaluated. */
  lemma EdgeStaged(f: Function, s: Facts)
    requires WellFormed(f) && SsaInv(f, s) && s.flow != []
    ensures var (t, b) := (WithEdge(s), s.flow[|s.flow| - 1].to);
      && Rises(s, t) && Walks(f, t.blocks) && Sources(f, t) && Staged(f, t, if b in s.blocks then {} else From(f, b, 0), {})
  {
    hide WellFormed, Walks, Done, Fresh, Mate, CellsTyped, HasEdge, NowCell, NowUndef, Demanded, Led;
    var e, t := s.flow[|s.flow| - 1], WithEdge(s);
    assert EdgeFrom(f, s.blocks, e);
    EdgeIs(f, s.blocks, e);
    WalksGrow(f, s.blocks, f.home[e.inst], e.to);
    EdgeSources(f, s);
    SameFacts(f, s, t);
    SameDemands(f, s, t);
    var todo := if e.to in s.blocks then {} else From(f, e.to, 0);
    assert f.Body(e.to)[0..] == f.Body(e.to);
    forall i: InstId | i in f.home ensures Stage(f, t, todo, i) {
      assert Stage(f, s, {}, i);
      InstOf(f, i);
      if Executable(f, s, i) {
        DoneLater(f, s, t, i);
        if i in todo { PlacedOf(f, e.to, i); }
      } else {
        FreshSame(f, s, t, i);
      }
    }
    forall i: InstId | Executable(f, t, i) && i !in todo ensures Mate(f, t, i) {
      InstOf(f, i);
      assert Executable(f, s, i) && Mate(f, s, i);
      MateSame(f, s, t, i);
    }
  }

  lemma EdgeSources(f: Function, s: Facts)
    requires Sources(f, s) && s.flow != []
    ensures Sources(f, WithEdge(s))
  {
    var t := WithEdge(s);
    forall e | e in t.edges || e in t.flow ensures EdgeFrom(f, t.blocks, e) { assert EdgeFrom(f, s.blocks, e); }
  }

  /** The cells are the same. */
  ghost predicate SameCells(s: Facts, t: Facts) {
    t.lattice == s.lattice && t.mayBeUndef == s.mayBeUndef
  }

  lemma SameFacts(f: Function, s: Facts, t: Facts)
    requires SameCells(s, t) && AllClean(f, s) && ArgsTop(f, s) && CellsTyped(f, s) && AllSteady(f, s)
    ensures AllClean(f, t) && ArgsTop(f, t) && CellsTyped(f, t) && AllSteady(f, t)
    ensures s.edges <= t.edges ==> Rises(s, t)
  {
    forall v: ValueId ensures CleanAt(f, t, v) && CellTyped(f, t, v) { assert CleanAt(f, s, v) && CellTyped(f, s, v); }
    forall v: ValueId, d: nat ensures SteadyAt(f, t, v, d) { assert SteadyAt(f, s, v, d); }
  }

  lemma FreshSame(f: Function, s: Facts, t: Facts, i: InstId)
    requires SameCells(s, t) && Fresh(f, s, i)
    ensures Fresh(f, t, i)
  {
  }

  lemma MateSame(f: Function, s: Facts, t: Facts, i: InstId)
    requires SameCells(s, t) && t.ssaSet == s.ssaSet && Mate(f, s, i)
    ensures Mate(f, t, i)
  {
  }

  /** An edge that is taken off the worklist is done with. */
  lemma EdgeWeight(f: Function, s: Facts)
    requires s.flow != []
    ensures Weight(f, WithEdge(s)) < Weight(f, s) && (s.flow[|s.flow| - 1] in s.edges ==> Weight(f, PopFlow(s)) < Weight(f, s))
  {
    hide AllEdges, Levels, Reached;
    var e, t, u := s.flow[|s.flow| - 1], WithEdge(s), PopFlow(s);
    MissingSame(f, s, t);
    MissingSame(f, s, u);
    assert Unpushed(f, t) <= Unpushed(f, s);
    Graphs.SubsetSize(Unpushed(f, t), Unpushed(f, s));
    if e in s.edges { assert Unpushed(f, u) == Unpushed(f, s); }
  }

  lemma ValueWeight(f: Function, s: Facts)
    requires s.ssa != []
    ensures Weight(f, PopSsa(s)) < Weight(f, s)
  {
    hide AllEdges, Levels, Reached;
    MissingSame(f, s, PopSsa(s));
    assert Unpushed(f, PopSsa(s)) == Unpushed(f, s);
  }

  lemma NewBlockEntered(f: Function, s: Facts)
    requires Walks(f, s.blocks) && Sources(f, s) && s.flow != [] && s.flow[|s.flow| - 1].to !in s.blocks
    ensures Entered(f, WithEdge(s), s.blocks, s.flow[|s.flow| - 1].to)
  {
    hide Walks;
    var e := s.flow[|s.flow| - 1];
    assert EdgeFrom(f, s.blocks, e) && e in WithEdge(s).edges;
  }

  lemma FlowRises(f: Function, s: Facts)
    requires WellFormed(f) && SsaForm(f) && SsaInv(f, s) && s.flow != []
    ensures var t := AfterEdge(f, PopFlow(s), s.flow[|s.flow| - 1]); Rises(s, t) && StaysBelow(f, s, t) && Weight(f, t) < Weight(f, s) && SsaInv(f, t)
  {
    hide WellFormed, SsaForm, Staged, Walks, Sources, Rises, AfterAll, AfterPhis, Weight, Led, StaysBelow;
    PoppedBelow(f, s);
    var e, t := s.flow[|s.flow| - 1], WithEdge(s);
    var body := f.Body(e.to);
    assert body[0..] == body;
    EdgeStaged(f, s);
    EdgeWeight(f, s);
    LedOn(f, s);
    forall i | i in body ensures Executable(f, t, i) { PlacedOf(f, e.to, i); }
    ListSources(f, t, body);
    if e in s.edges {
      KnownEdge(f, s);
    } else if e.to in s.blocks {
      assert s.blocks + {e.to} == s.blocks;
      PhisRise(f, t, body);
      RisesTwice(s, t, AfterPhis(f, t, body));
      SameLed(f, t, AfterPhis(f, t, body));
      BelowTwice(f, s, t, AfterPhis(f, t, body));
    } else {
      NewBlockEntered(f, s);
      BlockRises(f, t, s.blocks, e.to, 0);
      RisesTwice(s, t, AfterAll(f, t, body));
      SameLed(f, t, AfterAll(f, t, body));
      BelowTwice(f, s, t, AfterAll(f, t, body));
    }
  }

  /** The edge was executable already. */
  lemma KnownEdge(f: Function, s: Facts)
    requires WellFormed(f) && SsaInv(f, s) && s.flow != [] && s.flow[|s.flow| - 1] in s.edges
    ensures Rises(s, PopFlow(s)) && SsaInv(f, PopFlow(s))
  {
    hide Walks, Done, Fresh, Mate, CellsTyped, WellFormed, Led, Demanded;
    var t := PopFlow(s);
    SameFacts(f, s, t);
    LedOn(f, s);
    forall e | e in t.edges || e in t.flow ensures EdgeFrom(f, t.blocks, e) { assert EdgeFrom(f, s.blocks, e); }
    PoppedStaged(f, s, t, {});
  }

  /** A worklist loses an element; what waits for it is to be evaluated. */
  lemma PoppedStaged(f: Function, s: Facts, t: Facts, wait: set<InstId>)
    requires WellFormed(f) && Staged(f, s, {}, {}) && SameCells(s, t) && t.edges == s.edges && t.blocks == s.blocks && WorkOk(t)
    requires forall e :: e in t.flow ==> e in s.flow
    requires forall i {:trigger Mate(f, s, i)} :: Executable(f, s, i) && i !in wait && f.At(i).Unary? && f.At(i).arg in s.ssaSet ==> f.At(i).arg in t.ssaSet
    ensures Staged(f, t, {}, wait)
  {
    hide Done, Fresh, CellsTyped, AllClean, AllSteady, SimplifyTwice, Plain, WellFormed, Demanded;
    SameFacts(f, s, t);
    SameDemands(f, s, t);
    forall i: InstId | i in f.home ensures Stage(f, t, {}, i) {
      assert Stage(f, s, {}, i);
      if Executable(f, s, i) { DoneSame(f, s, t, i); } else { FreshSame(f, s, t, i); }
    }
    forall i: InstId | Executable(f, t, i) && i !in wait ensures Mate(f, t, i) { assert Mate(f, s, i); }
  }

  lemma DoneSame(f: Function, s: Facts, t: Facts, i: InstId)
    requires SameCells(s, t) && t.edges == s.edges && AllClean(f, s) && CellsTyped(f, s) && ArgsTop(f, s) && AllSteady(f, s) && Done(f, s, i)
    ensures Done(f, t, i)
  {
    SameFacts(f, s, t);
    hide AllClean, CellsTyped, ArgsTop, AllSteady, Low, ReadsKnown, Rises;
    DoneLater(f, s, t, i);
  }

  lemma SsaRises(f: Function, s: Facts)
    requires WellFormed(f) && SsaInv(f, s) && s.ssa != []
    ensures var t := AfterUsers(f, PopSsa(s), f.Users(s.ssa[|s.ssa| - 1])); Rises(s, t) && StaysBelow(f, s, t) && Weight(f, t) < Weight(f, s) && SsaInv(f, t)
  {
    hide WellFormed, Staged, Walks, Rises, AfterUsers, Sources, Weight, Led, StaysBelow;
    PoppedBelow(f, s);
    var v, t := s.ssa[|s.ssa| - 1], PopSsa(s);
    ValueWaits(f, s);
    ValueWeight(f, s);
    UsersHome(f, v);
    ListSources(f, t, f.Users(v));
    UsersRise(f, t, f.Users(v), Waiting(f, s, v));
    SameLed(f, s, AfterUsers(f, t, f.Users(v)));
    RisesTwice(s, t, AfterUsers(f, t, f.Users(v)));
    BelowTwice(f, s, t, AfterUsers(f, t, f.Users(v)));
  }

  lemma UsersHome(f: Function, v: ValueId)
    requires WellFormed(f)
    ensures forall i :: i in f.Users(v) ==> i in f.home
  {
  }

  lemma ValueWaits(f: Function, s: Facts)
    requires WellFormed(f) && SsaInv(f, s) && s.ssa != []
    ensures var t := PopSsa(s); Rises(s, t) && Sources(f, t) && Staged(f, t, {}, Waiting(f, s, s.ssa[|s.ssa| - 1]))
  {
    hide WellFormed, Walks, Stage, Mate, CellsTyped, AllClean, AllSteady, ArgsTop;
    var v, t := s.ssa[|s.ssa| - 1], PopSsa(s);
    SameFacts(f, s, t);
    forall e | e in t.edges || e in t.flow ensures EdgeFrom(f, t.blocks, e) { assert EdgeFrom(f, s.blocks, e); }
    forall i: InstId | Executable(f, s, i) && i !in Waiting(f, s, v) && f.At(i).Unary? && f.At(i).arg in s.ssaSet ensures f.At(i).arg in t.ssaSet {
      InstOf(f, i);
      assert f.At(i).arg in Operands(f.At(i));
    }
    PoppedStaged(f, s, t, Waiting(f, s, v));
  }

  lemma InitialSsa(f: Function)
    requires WellFormed(f) && SsaForm(f)
    ensures SsaInv(f, Initial(f)) && Weight(f, Initial(f)) <= |Levels(f)| + |AllEdges(f)|
    ensures forall u {:trigger Below(Initial(f), u)} :: Solution(f, u) ==> Below(Initial(f), u)
  {
    hide WellFormed, SsaForm, Staged, AfterAll, Rises, Weight, Levels, AllEdges, Solution, Below;
    forall u | Solution(f, u) ensures Below(Facts(TopArgs(f.args, map[]), map[], {}, {f.entry}, [], [], {}, {}), u) { StartBelow(f, u); }
    StartWeight(f);
    var s := Facts(TopArgs(f.args, map[]), map[], {}, {f.entry}, [], [], {}, {});
    StartStaged(f);
    EntryWalks(f);
    var body := f.Body(f.entry);
    assert body[0..] == body;
    forall i | i in body ensures Executable(f, s, i) { PlacedOf(f, f.entry, i); }
    ListSources(f, s, body);
    BlockRises(f, s, {}, f.entry, 0);
  }

  lemma StartBelow(f: Function, u: Facts)
    requires Solution(f, u)
    ensures Below(Facts(TopArgs(f.args, map[]), map[], {}, {f.entry}, [], [], {}, {}), u)
  {
    TopArgsAt(f.args, map[]);
  }

  lemma StartWeight(f: Function)
    ensures Weight(f, Facts(TopArgs(f.args, map[]), map[], {}, {f.entry}, [], [], {}, {})) <= |Levels(f)| + |AllEdges(f)|
  {
    hide Levels, AllEdges, Reached;
    var s := Facts(TopArgs(f.args, map[]), map[], {}, {f.entry}, [], [], {}, {});
    Graphs.SubsetSize(Missing(f, s), Levels(f));
    Graphs.SubsetSize(Unpushed(f, s), AllEdges(f));
  }

  lemma StartStaged(f: Function)
    requires WellFormed(f)
    ensures var s := Facts(TopArgs(f.args, map[]), map[], {}, {f.entry}, [], [], {}, {}); Staged(f, s, From(f, f.entry, 0), {})
  {
    hide BodyOk, HomeOk, Done, Steady, SteadyCell, Mate;
    var s := Facts(TopArgs(f.args, map[]), map[], {}, {f.entry}, [], [], {}, {});
    TopArgsAt(f.args, map[]);
    assert f.Body(f.entry)[0..] == f.Body(f.entry);
    forall i: InstId | i in f.home ensures Stage(f, s, From(f, f.entry, 0), i) {
      InstOf(f, i);
    }
    forall i: InstId | Executable(f, s, i) ensures i in From(f, f.entry, 0) { InstOf(f, i); }
    forall v: ValueId, d: nat ensures SteadyAt(f, s, v, d) {
      ValueOf(f, v);
      SteadyAtStart(f, s, v, d);
    }
  }

  lemma SteadyAtStart(f: Function, s: Facts, v: ValueId, d: nat)
    requires f.Data(v).Arg? ==> CellAt(s, v) == Top
    requires f.Data(v).Result? ==> CellAt(s, v) == Bot
    ensures SteadyAt(f, s, v, d)
  {
  }

  /** Turns left, counting those that only change from one worklist to the other. */
  function Left(f: Function, c: Config): nat {
    2 * Weight(f, c.facts) + if (if c.ssaTurn then c.facts.ssa == [] else c.facts.flow == []) then 1 else 0
  }

  /** Enough turns for any function in SSA form. */
  function Bound(f: Function): nat { 2 * (|Levels(f)| + |AllEdges(f)|) + 1 }

  lemma TurnRises(f: Function, c: Config)
    requires WellFormed(f) && SsaForm(f) && SsaInv(f, c.facts)
    ensures SsaInv(f, Advance(f, c).facts) && Rises(c.facts, Advance(f, c).facts) && StaysBelow(f, c.facts, Advance(f, c).facts)
    ensures Finished(c.facts) ==> Finished(Advance(f, c).facts)
    ensures !Finished(c.facts) ==> Left(f, Advance(f, c)) < Left(f, c)
  {
    hide WellFormed, SsaForm, SsaInv, Rises, AfterEdge, AfterUsers, Weight, StaysBelow;
    RisesRefl(c.facts);
    BelowRefl(f, c.facts);
    if c.ssaTurn && c.facts.ssa != [] { SsaRises(f, c.facts); }
    if !c.ssaTurn && c.facts.flow != [] { FlowRises(f, c.facts); }
  }

  /** In SSA form the facts rise from turn to turn, and there is less left to do
      until both worklists are empty. */
  lemma {:induction false} TurnsRise(f: Function, n: nat)
    requires WellFormed(f) && SsaForm(f)
    ensures var (c, d) := (Iterate(f, n), Iterate(f, n + 1)); SsaInv(f, c.facts) && Rises(c.facts, d.facts)
    ensures Finished(Iterate(f, n).facts) || Left(f, Iterate(f, n)) + n <= Bound(f)
    decreases n
  {
    hide WellFormed, SsaForm, SsaInv, Rises, Initial, Left, Bound, Advance, Finished;
    if n == 0 {
      InitialLeft(f);
    } else {
      TurnsRise(f, n - 1);
      TurnRises(f, Iterate(f, n - 1));
    }
    TurnRises(f, Iterate(f, n));
  }

  lemma InitialLeft(f: Function)
    requires WellFormed(f) && SsaForm(f)
    ensures SsaInv(f, Initial(f)) && Left(f, Config(Initial(f), false)) <= Bound(f)
  {
    hide WellFormed, SsaForm, SsaInv, Initial, Weight, Levels, AllEdges, Below, Solution;
    InitialSsa(f);
  }

  /** In SSA form the solver ends: after `Bound(f)` turns both worklists are empty. */
  lemma SolverEnds(f: Function)
    requires WellFormed(f) && SsaForm(f)
    ensures Finished(Iterate(f, Bound(f)).facts)
  {
    hide WellFormed, SsaForm, SsaInv, Rises, Iterate, Finished, Weight, Levels, AllEdges;
    TurnsRise(f, Bound(f));
    TurnLeft(f, Iterate(f, Bound(f)));
  }

  /** At least the turn that finds the worklist empty is left. */
  lemma TurnLeft(f: Function, c: Config)
    ensures Left(f, c) > 0
  {
    hide Levels, AllEdges, Reached;
  }

  // ----- the least solution

  /** In SSA form the solver never says more than any solution does. */
  lemma {:induction false} TurnsBelow(f: Function, n: nat, u: Facts)
    requires WellFormed(f) && SsaForm(f) && Solution(f, u)
    ensures Below(Iterate(f, n).facts, u)
    decreases n
  {
    hide WellFormed, SsaForm, SsaInv, Solution, Below, Initial, Advance, Rises, Left, Bound, Finished;
    if n == 0 {
      InitialSsa(f);
    } else {
      TurnsBelow(f, n - 1, u);
      TurnsRise(f, n - 1);
      TurnRises(f, Iterate(f, n - 1));
    }
  }

  /** Without negations of negations the final facts are themselves a solution,
      and so the least one. */
  lemma FinalIsLeast(f: Function, n: nat)
    requires WellFormed(f) && SsaForm(f) && Finished(Iterate(f, n).facts)
    requires forall i :: i in f.home ==> Plain(f, i)
    ensures Solution(f, Iterate(f, n).facts)
    ensures forall u {:trigger Solution(f, u)} :: Solution(f, u) ==> Below(Iterate(f, n).facts, u)
  {
    hide WellFormed, SsaForm, Iterate, Solution, Below, Rises, Plain;
    var s := Iterate(f, n).facts;
    SolvedWhenFinished(f, n);
    TurnsRise(f, n);
    FinalIsSolution(f, s);
    forall u | Solution(f, u) ensures Below(s, u) { TurnsBelow(f, n, u); }
  }

  lemma FinalIsSolution(f: Function, s: Facts)
    requires WellFormed(f) && SsaInv(f, s) && Solved(f, s) && forall i :: i in f.home ==> Plain(f, i)
    ensures Solution(f, s)
  {
    hide WellFormed, Walks, Sources, Led, Demand, PhiCell, EvalCell, EvalUndef, UndefArgs, Done, Fresh, Mate, AllSteady, Demanded, Plain;
    forall i: InstId | Executable(f, s, i) ensures Answered(f, s, i) {
      assert UpToDate(f, s, i);
      if IsBranch(f.At(i)) {
        forall d | d in Demand(f, s, f.At(i)) ensures FlowEdge(i, d) in s.edges { assert Pushed(s, FlowEdge(i, d)); }
        InstOf(f, i);
      }
    }
  }
}
