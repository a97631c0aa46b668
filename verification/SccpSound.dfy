/**
 What constant propagation guarantees (crates/codegen/src/optim/sccp.rs:80-99,
 144-330): after any number of turns every instruction found executable is
 either up to date or has an operand waiting, so once both worklists are empty
 all of them are up to date; and facts of that kind describe every run of the
 interpreter.
 */
module SccpSound {
  import opened Options
  import opened Words
  import opened Ir
  import opened Sccps

  // ----- the two rules that can go wrong

  /** A negation of a negation of the same kind: `SimplifyTwice` reads a value
      that is no operand, so nothing makes the solver look again when that value
      changes. */
  predicate IsTwice(f: Function, inst: Inst) {
    inst.Unary? && inst.unop != IsZero && SimplifyTwice(f, inst.unop, inst.arg) != NoChange
  }

  predicate Plain(f: Function, i: InstId) { !IsTwice(f, f.At(i)) }

  predicate ZeroAmount(f: Function, s: Facts, bits: ValueId) {
    KnownImm(f, s, bits).Some? && KnownImm(f, s, bits).value.bits == 0
  }

  /** An arithmetic shift by a known zero of a known word that the interpreter
      changes: see `Words.SarByZeroExact`. */
  predicate SarFails(f: Function, s: Facts, i: InstId) {
    match f.At(i)
    case Binary(Sar, bits, value) =>
      && ZeroAmount(f, s, bits)
      && KnownImm(f, s, value).Some? && !KeptByZeroShift(KnownImm(f, s, value).value)
    case _ => false
  }

  // ----- the invariant of the worklists

  predicate Pending(s: Facts, inst: Inst) {
    exists v :: v in Operands(inst) && v in s.ssaSet
  }

  predicate Pushed(s: Facts, e: FlowEdge) {
    e in s.edges || e in s.flowSet
  }

  ghost predicate AllPushed(s: Facts, i: InstId, ds: seq<BlockId>) {
    forall d {:trigger Pushed(s, FlowEdge(i, d))} :: d in ds ==> Pushed(s, FlowEdge(i, d))
  }

  /** Whether the value of `i` may be undefined, evaluated now. */
  function NowUndef(f: Function, s: Facts, i: InstId): bool {
    if f.At(i).Phi? then UndefArgs(f, s, Home(f, i), f.At(i).args, false)
    else IsPure(f.At(i)) && EvalUndef(f, s, f.At(i))
  }

  /** The facts about `i` are what evaluating it now would make them. */
  ghost predicate UpToDate(f: Function, s: Facts, i: InstId) {
    var inst := f.At(i);
    if IsBranch(inst) then AllPushed(s, i, Demand(f, s, inst))
    else
      f.ResultOf(i).Some? ==>
        var r := f.ResultOf(i).value;
        && CellAt(s, r) == (if inst.Phi? then PhiCell(f, s, i) else EvalCell(f, s, inst))
        && (IsPure(inst) || inst.Phi? ==> UndefAt(s, r) == NowUndef(f, s, i))
  }

  ghost predicate Settled(f: Function, s: Facts, i: InstId) {
    Pending(s, f.At(i)) || UpToDate(f, s, i)
  }

  predicate Executable(f: Function, s: Facts, i: InstId) {
    i in f.home && f.home[i] in s.blocks
  }

  predicate CellTyped(f: Function, s: Facts, v: ValueId) {
    CellAt(s, v).Const? ==>
      && WellSized(CellAt(s, v).imm) && CellAt(s, v).imm.width == f.Type(v)
      && f.Data(v).Result? && !f.At(f.Data(v).inst).Effect?
  }

  ghost predicate CellsTyped(f: Function, s: Facts) {
    forall v {:trigger CellTyped(f, s, v)} :: CellTyped(f, s, v)
  }

  ghost predicate ArgsTop(f: Function, s: Facts) {
    forall v :: v in f.args ==> CellAt(s, v) == Top
  }

  ghost predicate WorkOk(s: Facts) {
    && (forall v :: v in s.ssaSet ==> v in s.ssa)
    && (forall e :: e in s.flowSet ==> e in s.flow)
  }

  ghost predicate EdgesOk(f: Function, s: Facts) {
    f.entry in s.blocks && forall e :: e in s.edges ==> e.to in s.blocks
  }

  ghost predicate AllSettled(f: Function, s: Facts, todo: set<InstId>) {
    forall i {:trigger Settled(f, s, i)} :: Executable(f, s, i) && Plain(f, i) && i !in todo ==> Settled(f, s, i)
  }

  /** Everything the solver keeps, but for the instructions it has still to look at. */
  ghost predicate Inv(f: Function, s: Facts, todo: set<InstId>) {
    WorkOk(s) && EdgesOk(f, s) && ArgsTop(f, s) && CellsTyped(f, s) && AllSettled(f, s, todo)
  }

  // ----- evaluating one instruction touches only its result

  predicate SameAt(s: Facts, t: Facts, v: ValueId) {
    CellAt(s, v) == CellAt(t, v) && UndefAt(s, v) == UndefAt(t, v)
  }

  ghost predicate Grows(s: Facts, t: Facts) {
    s.edges == t.edges && s.blocks == t.blocks && s.ssaSet <= t.ssaSet && s.flowSet <= t.flowSet
  }

  ghost predicate Changed(f: Function, s: Facts, t: Facts, i: InstId, v: ValueId) {
    SameAt(s, t, v) || (f.ResultOf(i) == Some(v) && v in t.ssaSet)
  }

  ghost predicate Touches(f: Function, s: Facts, t: Facts, i: InstId) {
    Grows(s, t) && forall v {:trigger Changed(f, s, t, i, v)} :: Changed(f, s, t, i, v)
  }

  lemma {:induction false} PushAllGrows(s: Facts, i: InstId, ds: seq<BlockId>)
    ensures var t := PushAll(s, i, ds);
      && Grows(s, t) && t.lattice == s.lattice && t.mayBeUndef == s.mayBeUndef && t.ssa == s.ssa && t.ssaSet == s.ssaSet
      && (WorkOk(s) ==> WorkOk(t))
    decreases |ds|
  {
    if ds != [] { PushAllGrows(PushFlow(s, FlowEdge(i, ds[0])), i, ds[1..]); }
  }

  lemma {:induction false} PushAllPushes(s: Facts, i: InstId, ds: seq<BlockId>)
    ensures AllPushed(PushAll(s, i, ds), i, ds)
    decreases |ds|
  {
    if ds != [] {
      var e := FlowEdge(i, ds[0]);
      var t := PushFlow(s, e);
      assert Pushed(t, e);
      PushAllGrows(t, i, ds[1..]);
      PushAllPushes(t, i, ds[1..]);
      var u := PushAll(s, i, ds);
      assert u == PushAll(t, i, ds[1..]) && Pushed(u, e);
      forall d | d in ds ensures Pushed(u, FlowEdge(i, d)) {
        if d != ds[0] { assert d in ds[1..]; }
      }
    }
  }

  lemma SetsTouch(f: Function, s: Facts, i: InstId, r: ValueId, c: Cell, u: bool)
    requires f.ResultOf(i) == Some(r) && WorkOk(s)
    ensures var t := SetUndef(SetCell(s, r, c), r, u);
      && Touches(f, s, t, i) && CellAt(t, r) == c && WorkOk(t)
      && (t.lattice == s.lattice[r := c] || t.lattice == s.lattice)
    ensures var t := SetCell(s, r, c);
      && Touches(f, s, t, i) && CellAt(t, r) == c && WorkOk(t)
      && (t.lattice == s.lattice[r := c] || t.lattice == s.lattice)
  {
    var t := SetCell(s, r, c);
    var w := SetUndef(t, r, u);
    forall v ensures Changed(f, s, t, i, v) && Changed(f, s, w, i, v) {
    }
  }

  // ----- what an evaluation reads

  lemma CopiesOperand(f: Function, s: Facts, inst: Inst)
    requires IsPure(inst)
    ensures var r := Simplify(f, s, inst); r.ToCopy? && !IsTwice(f, inst) ==> r.src in Operands(inst)
  {
    hide KnownImm, SameNonUndef;
  }

  lemma EvalSame(f: Function, s: Facts, t: Facts, i: InstId)
    requires Plain(f, i) && IsPure(f.At(i))
    requires forall v {:trigger SameAt(s, t, v)} :: v in Operands(f.At(i)) ==> SameAt(s, t, v)
    ensures EvalCell(f, s, f.At(i)) == EvalCell(f, t, f.At(i))
  {
    var inst := f.At(i);
    SimplifySame(f, s, t, inst);
    forall v | v in Operands(inst) ensures CellOf(f, s, v) == CellOf(f, t, v) { assert SameAt(s, t, v); }
    InterpretedSame(f, s, t, inst);
    CopiesOperand(f, s, inst);
    hide CellOf, Interpreted, Simplify, Operands, IsTwice;
  }

  lemma SimplifySame(f: Function, s: Facts, t: Facts, inst: Inst)
    requires IsPure(inst)
    requires forall v {:trigger SameAt(s, t, v)} :: v in Operands(inst) ==> SameAt(s, t, v)
    ensures Simplify(f, s, inst) == Simplify(f, t, inst)
  {
    match inst
    case Binary(op, l, r) =>
      assert l in Operands(inst) && r in Operands(inst);
      assert SameAt(s, t, l) && SameAt(s, t, r);
      assert KnownImm(f, s, l) == KnownImm(f, t, l) && KnownImm(f, s, r) == KnownImm(f, t, r);
      assert SameNonUndef(f, s, l, r) == SameNonUndef(f, t, l, r);
      hide KnownImm, SameNonUndef;
    case _ =>
  }

  lemma InterpretedSame(f: Function, s: Facts, t: Facts, inst: Inst)
    requires IsPure(inst)
    requires forall v :: v in Operands(inst) ==> CellOf(f, s, v) == CellOf(f, t, v)
    ensures Interpreted(f, s, inst) == Interpreted(f, t, inst)
  {
    var x, y := CellValues(f, s), CellValues(f, t);
    assert forall v :: v in Operands(inst) ==> x(v) == y(v);
    match inst
    case Binary(op, l, r) => assert l in Operands(inst) && r in Operands(inst);
    case Unary(op, a) => assert a in Operands(inst);
    case Cast(op, a, w) => assert a in Operands(inst);
  }

  ghost predicate SameEdgesInto(f: Function, s: Facts, t: Facts, block: BlockId) {
    forall from {:trigger IsReachable(f, t, from, block)} :: IsReachable(f, s, from, block) == IsReachable(f, t, from, block)
  }

  lemma {:induction false} JoinArgsSame(f: Function, s: Facts, t: Facts, block: BlockId, args: seq<(ValueId, BlockId)>, acc: Cell)
    requires SameEdgesInto(f, s, t, block)
    requires forall v {:trigger SameAt(s, t, v)} :: v in First(args) ==> SameAt(s, t, v)
    ensures JoinArgs(f, s, block, args, acc) == JoinArgs(f, t, block, args, acc)
    decreases |args|
  {
    hide IsReachable;
    if args != [] {
      assert args[0].0 == First(args)[0] && SameAt(s, t, args[0].0);
      assert CellOf(f, s, args[0].0) == CellOf(f, t, args[0].0);
      var next := if IsReachable(f, s, args[0].1, block) then Join(acc, CellOf(f, s, args[0].0)) else acc;
      assert First(args)[1..] == First(args[1..]);
      JoinArgsSame(f, s, t, block, args[1..], next);
    }
  }

  lemma {:induction false} UndefArgsSame(f: Function, s: Facts, t: Facts, block: BlockId, args: seq<(ValueId, BlockId)>, acc: bool)
    requires SameEdgesInto(f, s, t, block)
    requires forall v {:trigger SameAt(s, t, v)} :: v in First(args) ==> SameAt(s, t, v)
    ensures UndefArgs(f, s, block, args, acc) == UndefArgs(f, t, block, args, acc)
    decreases |args|
  {
    hide IsReachable;
    if args != [] {
      assert args[0].0 == First(args)[0] && SameAt(s, t, args[0].0);
      assert MayBeUndef(f, s, args[0].0) == MayBeUndef(f, t, args[0].0);
      assert First(args)[1..] == First(args[1..]);
      UndefArgsSame(f, s, t, block, args[1..], acc || (IsReachable(f, s, args[0].1, block) && MayBeUndef(f, s, args[0].0)));
    }
  }

  lemma {:induction false} AnyUndefSame(f: Function, s: Facts, t: Facts, vs: seq<ValueId>)
    requires forall v {:trigger SameAt(s, t, v)} :: v in vs ==> SameAt(s, t, v)
    ensures AnyUndef(f, s, vs) == AnyUndef(f, t, vs)
  {
    if vs != [] {
      assert SameAt(s, t, vs[0]);
      AnyUndefSame(f, s, t, vs[1..]);
    }
  }

  lemma UndefSame(f: Function, s: Facts, t: Facts, i: InstId)
    requires Plain(f, i) && IsPure(f.At(i))
    requires forall v {:trigger SameAt(s, t, v)} :: v in Operands(f.At(i)) ==> SameAt(s, t, v)
    ensures EvalUndef(f, s, f.At(i)) == EvalUndef(f, t, f.At(i))
  {
    var inst := f.At(i);
    SimplifySame(f, s, t, inst);
    CopiesOperand(f, s, inst);
    AnyUndefSame(f, s, t, Operands(inst));
    hide Simplify, Operands, IsTwice, AnyUndef;
    var r := Simplify(f, s, inst);
    if r.ToCopy? { assert SameAt(s, t, r.src); }
  }

  lemma {:induction false} TableDemandSame(f: Function, s: Facts, t: Facts, c: Imm, table: seq<(ValueId, BlockId)>, default: Option<BlockId>)
    requires forall v {:trigger SameAt(s, t, v)} :: v in First(table) ==> SameAt(s, t, v)
    ensures TableDemand(f, s, c, table, default) == TableDemand(f, t, c, table, default)
    decreases |table|
  {
    if table != [] {
      assert table[0].0 == First(table)[0] && SameAt(s, t, table[0].0);
      assert First(table)[1..] == First(table[1..]);
      TableDemandSame(f, s, t, c, table[1..], default);
    }
  }

  lemma DemandSame(f: Function, s: Facts, t: Facts, inst: Inst)
    requires forall v {:trigger SameAt(s, t, v)} :: v in Operands(inst) ==> SameAt(s, t, v)
    ensures Demand(f, s, inst) == Demand(f, t, inst)
  {
    match inst
    case Br(c, _, _) => assert c in Operands(inst) && SameAt(s, t, c);
    case BrTable(v, default, table) =>
      assert v in Operands(inst) && SameAt(s, t, v);
      assert Operands(inst)[1..] == First(table);
      if CellOf(f, s, v).Const? { TableDemandSame(f, s, t, CellOf(f, s, v).imm, table, default); }
    case _ =>
  }

  ghost predicate KeepsPushed(s: Facts, t: Facts) {
    forall e {:trigger Pushed(t, e)} :: Pushed(s, e) ==> Pushed(t, e)
  }

  lemma ReadsOf(f: Function, s: Facts, inst: Inst)
    ensures inst.Phi? ==> Operands(inst) == First(inst.args)
    ensures !IsPure(inst) ==> EvalCell(f, s, inst) == Top
  {
  }

  /** Up to date stays up to date while the operands, the result and the edges
      into the block stay, and nothing pushed is lost. */
  lemma StaysUpToDate(f: Function, s: Facts, t: Facts, i: InstId)
    requires Plain(f, i) && UpToDate(f, s, i) && KeepsPushed(s, t)
    requires f.At(i).Phi? ==> SameEdgesInto(f, s, t, Home(f, i))
    requires forall v {:trigger SameAt(s, t, v)} :: v in Operands(f.At(i)) ==> SameAt(s, t, v)
    requires f.ResultOf(i).Some? ==> SameAt(s, t, f.ResultOf(i).value)
    ensures UpToDate(f, t, i)
  {
    var inst := f.At(i);
    ReadsOf(f, s, inst);
    ReadsOf(f, t, inst);
    hide Demand, EvalCell, Operands, Plain, JoinArgs, IsReachable, Pushed, EvalUndef, UndefArgs;
    if IsBranch(inst) {
      DemandSame(f, s, t, inst);
      forall d | d in Demand(f, s, inst) ensures Pushed(t, FlowEdge(i, d)) { assert Pushed(s, FlowEdge(i, d)); }
    } else if inst.Phi? {
      JoinArgsSame(f, s, t, Home(f, i), inst.args, Bot);
      UndefArgsSame(f, s, t, Home(f, i), inst.args, false);
    } else if IsPure(inst) {
      EvalSame(f, s, t, i);
      UndefSame(f, s, t, i);
    }
  }

  lemma OthersStay(f: Function, s: Facts, t: Facts, i: InstId, j: InstId)
    requires Plain(f, j) && Settled(f, s, j) && Touches(f, s, t, i)
    requires ResultOk(f, i) && ResultOk(f, j) && i != j
    ensures Settled(f, t, j)
  {
    hide UpToDate, Plain, Operands;
    if !Pending(t, f.At(j)) {
      forall v | v in Operands(f.At(j)) ensures SameAt(s, t, v) { assert Changed(f, s, t, i, v); }
      if f.ResultOf(j).Some? {
        var r := f.ResultOf(j).value;
        assert Changed(f, s, t, i, r);
      }
      StaysUpToDate(f, s, t, j);
    }
  }

  // ----- cells keep their types

  lemma ConstTyped(f: Function, s: Facts, v: ValueId)
    requires ValueOk(f, v) && CellTyped(f, s, v)
    ensures CellOf(f, s, v).Const? ==> WellSized(CellOf(f, s, v).imm) && CellOf(f, s, v).imm.width == f.Type(v)
    ensures f.Type(v) > 0
  {
  }

  /** The value behind a negation of a negation has its type. */
  lemma TwiceTyped(f: Function, i: InstId)
    requires WellFormed(f) && i in f.home && IsTwice(f, f.At(i))
    ensures f.Type(SimplifyTwice(f, f.At(i).unop, f.At(i).arg).src) == f.Type(f.At(i).arg)
  {
    hide BodyOk, HomeOk, UsersOk, DestsOk;
    InstOf(f, i);
    var a := f.At(i).arg;
    assert a in Operands(f.At(i));
    ValueOf(f, a);
    InstOf(f, f.Data(a).inst);
  }

  lemma EvalTyped(f: Function, s: Facts, i: InstId)
    requires WellFormed(f) && i in f.home && CellsTyped(f, s) && f.ResultOf(i).Some?
    ensures var c := EvalCell(f, s, f.At(i)); c.Const? ==> WellSized(c.imm) && c.imm.width == f.Type(f.ResultOf(i).value)
  {
    hide WellFormed, CellOf, Simplify, Interpreted, WellSized, CellTyped;
    var inst := f.At(i);
    InstOf(f, i);
    forall v: ValueId ensures CellOf(f, s, v).Const? ==> WellSized(CellOf(f, s, v).imm) && CellOf(f, s, v).imm.width == f.Type(v)
      ensures f.Type(v) > 0
    {
      ValueOf(f, v);
      assert CellTyped(f, s, v);
      ConstTyped(f, s, v);
    }
    if IsPure(inst) {
      RuleTyped(f, s, i);
      InterpretedTyped(f, s, i);
    }
  }

  /** Where a rule fires, what it names has the type of the result. */
  lemma RuleTyped(f: Function, s: Facts, i: InstId)
    requires WellFormed(f) && i in f.home && f.ResultOf(i).Some? && IsPure(f.At(i)) && forall v: ValueId :: f.Type(v) > 0
    ensures var r := Simplify(f, s, f.At(i));
      && (r.ToConst? ==> WellSized(r.imm) && r.imm.width == f.Type(f.ResultOf(i).value))
      && (r.ToCopy? ==> f.Type(r.src) == f.Type(f.ResultOf(i).value))
  {
    assert Pow2(1) == 2;
    InstOf(f, i);
    if IsTwice(f, f.At(i)) { TwiceTyped(f, i); }
    hide WellFormed, Pow2, KnownImm, SameNonUndef, Operands;
  }

  lemma InterpretedTyped(f: Function, s: Facts, i: InstId)
    requires InstOk(f, i) && IsPure(f.At(i)) && f.ResultOf(i).Some?
    requires forall v: ValueId ::
      f.Type(v) > 0 && (CellOf(f, s, v).Const? ==> WellSized(CellOf(f, s, v).imm) && CellOf(f, s, v).imm.width == f.Type(v))
    ensures var c := Interpreted(f, s, f.At(i)); c.Const? ==> WellSized(c.imm) && c.imm.width == f.Type(f.ResultOf(i).value)
  {
    hide CellOf, Pow2, Apply, ApplyUnary, ApplyCast;
  }

  lemma {:induction false} JoinTyped(f: Function, s: Facts, block: BlockId, args: seq<(ValueId, BlockId)>, acc: Cell, w: nat)
    requires WellFormed(f) && CellsTyped(f, s)
    requires acc.Const? ==> WellSized(acc.imm) && acc.imm.width == w
    requires forall k :: 0 <= k < |args| ==> f.Type(args[k].0) == w
    ensures var c := JoinArgs(f, s, block, args, acc); c.Const? ==> WellSized(c.imm) && c.imm.width == w
    decreases |args|
  {
    hide WellFormed, IsReachable;
    if args != [] {
      var v := args[0].0;
      ValueOf(f, v);
      assert CellTyped(f, s, v);
      ConstTyped(f, s, v);
      var next := if IsReachable(f, s, args[0].1, block) then Join(acc, CellOf(f, s, v)) else acc;
      JoinTyped(f, s, block, args[1..], next, w);
    }
  }

  // ----- one evaluation

  lemma OneTouches(f: Function, s: Facts, i: InstId)
    requires WellFormed(f) && i in f.home && WorkOk(s) && CellsTyped(f, s) && ArgsTop(f, s)
    ensures var t := AfterOne(f, s, i); Touches(f, s, t, i) && WorkOk(t) && CellsTyped(f, t) && ArgsTop(f, t)
    ensures var t := AfterOne(f, s, i); !IsBranch(f.At(i)) && f.ResultOf(i).Some? ==>
      CellAt(t, f.ResultOf(i).value) == if f.At(i).Phi? then PhiCell(f, s, i) else EvalCell(f, s, f.At(i))
    ensures var t := AfterOne(f, s, i); IsBranch(f.At(i)) ==>
      t.lattice == s.lattice && t.mayBeUndef == s.mayBeUndef && AllPushed(t, i, Demand(f, s, f.At(i)))
  {
    hide EvalCell, EvalUndef, PhiCell, UndefArgs, Demand, SetCell, SetUndef, WorkOk;
    var inst, t := f.At(i), AfterOne(f, s, i);
    if IsBranch(inst) {
      PushAllGrows(s, i, Demand(f, s, inst));
      PushAllPushes(s, i, Demand(f, s, inst));
      forall v ensures Changed(f, s, t, i, v) {}
      forall v ensures CellTyped(f, t, v) { assert CellTyped(f, s, v); }
    } else if f.ResultOf(i).Some? {
      var r := f.ResultOf(i).value;
      var c := if inst.Phi? then PhiCell(f, s, i) else EvalCell(f, s, inst);
      NewCellTyped(f, s, i);
      var u := if inst.Phi? then UndefArgs(f, s, Home(f, i), inst.args, false) else if IsPure(inst) then EvalUndef(f, s, inst) else false;
      ReadsOf(f, s, inst);
      SetsTouch(f, s, i, r, c, u);
      assert InstOk(f, i);
      forall v ensures CellTyped(f, t, v) { assert CellTyped(f, s, v); }
    } else {
      forall v ensures Changed(f, s, t, i, v) {}
    }
  }

  lemma NewUndef(f: Function, s: Facts, i: InstId)
    requires f.ResultOf(i).Some? && !IsBranch(f.At(i))
    ensures var r := f.ResultOf(i).value;
      UndefAt(AfterOne(f, s, i), r) == if IsPure(f.At(i)) || f.At(i).Phi? then NowUndef(f, s, i) else UndefAt(s, r)
  {
    hide EvalCell, EvalUndef, PhiCell, UndefArgs;
  }

  lemma NewCellTyped(f: Function, s: Facts, i: InstId)
    requires WellFormed(f) && i in f.home && CellsTyped(f, s) && f.ResultOf(i).Some?
    ensures var c := if f.At(i).Phi? then PhiCell(f, s, i) else EvalCell(f, s, f.At(i));
      c.Const? ==> WellSized(c.imm) && c.imm.width == f.Type(f.ResultOf(i).value)
  {
    hide EvalCell, JoinArgs;
    if f.At(i).Phi? {
      assert InstOk(f, i);
      JoinTyped(f, s, Home(f, i), f.At(i).args, Bot, f.Type(f.ResultOf(i).value));
    } else {
      EvalTyped(f, s, i);
    }
  }

  lemma OneSettles(f: Function, s: Facts, i: InstId)
    requires WellFormed(f) && i in f.home && WorkOk(s) && CellsTyped(f, s) && ArgsTop(f, s)
    ensures Plain(f, i) ==> Settled(f, AfterOne(f, s, i), i)
  {
    hide WellFormed, AfterOne, Plain, Demand, EvalCell, JoinArgs, WorkOk, CellsTyped, ArgsTop, Operands, EvalUndef, UndefArgs;
    var inst, t := f.At(i), AfterOne(f, s, i);
    ReadsOf(f, s, inst);
    ReadsOf(f, t, inst);
    OneTouches(f, s, i);
    if Plain(f, i) && !Pending(t, inst) {
      forall v | v in Operands(inst) ensures SameAt(s, t, v) { assert Changed(f, s, t, i, v); }
      if IsBranch(inst) {
        DemandSame(f, s, t, inst);
      } else if inst.Phi? {
        JoinArgsSame(f, s, t, Home(f, i), inst.args, Bot);
        UndefArgsSame(f, s, t, Home(f, i), inst.args, false);
      } else if IsPure(inst) {
        EvalSame(f, s, t, i);
        UndefSame(f, s, t, i);
      }
      if f.ResultOf(i).Some? && !IsBranch(inst) { NewUndef(f, s, i); }
    }
  }

  lemma ResultsOf(f: Function, i: InstId)
    requires InstOk(f, i)
    ensures ResultOk(f, i)
  {
  }

  lemma OneKeeps(f: Function, s: Facts, i: InstId, todo: set<InstId>)
    requires WellFormed(f) && Inv(f, s, todo) && Executable(f, s, i)
    ensures var t := AfterOne(f, s, i); Inv(f, t, todo - {i}) && Grows(s, t)
  {
    hide AfterOne, UpToDate, InstOk, BodyOk, ValueOk, Plain;
    OneTouches(f, s, i);
    OneSettles(f, s, i);
    var t := AfterOne(f, s, i);
    forall j | Executable(f, t, j) && Plain(f, j) && j !in todo - {i} ensures Settled(f, t, j) {
      if j != i {
        assert Settled(f, s, j);
        assert InstOk(f, i) && InstOk(f, j);
        ResultsOf(f, i);
        ResultsOf(f, j);
        OthersStay(f, s, t, i, j);
      }
    }
  }

  // ----- evaluating lists of instructions

  lemma {:induction false} AllKeep(f: Function, s: Facts, insts: seq<InstId>, todo: set<InstId>)
    requires WellFormed(f) && Inv(f, s, todo)
    requires forall i :: i in insts ==> Executable(f, s, i)
    requires forall i :: i in todo ==> i in insts
    ensures Inv(f, AfterAll(f, s, insts), {})
    decreases |insts|
  {
    hide AfterOne, WellFormed, Inv;
    if insts == [] {
      assert todo == {};
    } else {
      OneKeeps(f, s, insts[0], todo);
      var t := AfterOne(f, s, insts[0]);
      forall i | i in insts[1..] ensures Executable(f, t, i) { assert i in insts && Executable(f, s, i); }
      AllKeep(f, t, insts[1..], todo - {insts[0]});
    }
  }

  lemma {:induction false} PhisKeep(f: Function, s: Facts, insts: seq<InstId>, todo: set<InstId>)
    requires WellFormed(f) && Inv(f, s, todo)
    requires forall i :: i in insts ==> Executable(f, s, i)
    requires forall i :: i in todo ==> i in insts && f.At(i).Phi?
    ensures Inv(f, AfterPhis(f, s, insts), {})
    decreases |insts|
  {
    hide AfterPhi, WellFormed, Inv;
    if insts == [] {
      assert todo == {};
    } else if f.At(insts[0]).Phi? {
      OneKeeps(f, s, insts[0], todo);
      var t := AfterOne(f, s, insts[0]);
      forall i | i in insts[1..] ensures Executable(f, t, i) { assert i in insts && Executable(f, s, i); }
      PhisKeep(f, t, insts[1..], todo - {insts[0]});
    } else {
      PhisKeep(f, s, insts[1..], todo);
    }
  }

  lemma {:induction false} UsersKeep(f: Function, s: Facts, insts: seq<InstId>, todo: set<InstId>)
    requires WellFormed(f) && Inv(f, s, todo)
    requires forall i :: i in insts ==> i in f.home
    requires forall i :: i in todo ==> i in insts && Executable(f, s, i)
    ensures Inv(f, AfterUsers(f, s, insts), {})
    decreases |insts|
  {
    hide AfterOne, WellFormed, Inv;
    if insts == [] {
      assert todo == {};
    } else if Home(f, insts[0]) in s.blocks {
      OneKeeps(f, s, insts[0], todo);
      UsersKeep(f, AfterOne(f, s, insts[0]), insts[1..], todo - {insts[0]});
    } else {
      UsersKeep(f, s, insts[1..], todo);
    }
  }

  // ----- the turns of the two loops

  function Todo(f: Function, s: Facts, b: BlockId): set<InstId> {
    set i | i in f.Body(b) && (b in s.blocks ==> f.At(i).Phi?)
  }

  /** The facts with `e` moved from the worklist to the executable edges. */
  function WithEdge(s: Facts): Facts
    requires s.flow != []
  {
    var e := s.flow[|s.flow| - 1];
    PopFlow(s).(edges := s.edges + {e}, blocks := s.blocks + {e.to})
  }

  lemma EdgeIntoOther(f: Function, s: Facts, t: Facts, e: FlowEdge, block: BlockId)
    requires t.edges == s.edges + {e} && e.to != block
    ensures SameEdgesInto(f, s, t, block)
  {
  }

  lemma EdgeAdded(f: Function, s: Facts)
    requires WellFormed(f) && Inv(f, s, {}) && s.flow != []
    ensures Inv(f, WithEdge(s), Todo(f, s, s.flow[|s.flow| - 1].to))
  {
    hide UpToDate, InstOk, BodyOk, ValueOk, Operands;
    var e, t := s.flow[|s.flow| - 1], WithEdge(s);
    var todo := Todo(f, s, e.to);
    forall v ensures CellTyped(f, t, v) { assert CellTyped(f, s, v); }
    forall i | Executable(f, t, i) && Plain(f, i) && i !in todo ensures Settled(f, t, i) {
      assert HomeOk(f, i);
      assert Executable(f, s, i) && Settled(f, s, i);
      if UpToDate(f, s, i) {
        if f.At(i).Phi? { EdgeIntoOther(f, s, t, e, Home(f, i)); }
        StaysUpToDate(f, s, t, i);
      } else { assert Pending(t, f.At(i)); }
    }
  }

  lemma EdgeKnown(f: Function, s: Facts)
    requires WellFormed(f) && Inv(f, s, {}) && s.flow != [] && s.flow[|s.flow| - 1] in s.edges
    ensures Inv(f, PopFlow(s), {})
  {
    hide UpToDate, InstOk, BodyOk, ValueOk, Operands, WellFormed;
    var e, t := s.flow[|s.flow| - 1], PopFlow(s);
    forall v ensures CellTyped(f, t, v) { assert CellTyped(f, s, v); }
    forall i | Executable(f, t, i) && Plain(f, i) ensures Settled(f, t, i) {
      assert Settled(f, s, i);
      if UpToDate(f, s, i) { StaysUpToDate(f, s, t, i); } else { assert Pending(t, f.At(i)); }
    }
  }

  lemma FlowTurn(f: Function, s: Facts)
    requires WellFormed(f) && Inv(f, s, {}) && s.flow != []
    ensures Inv(f, AfterEdge(f, PopFlow(s), s.flow[|s.flow| - 1]), {})
  {
    hide AfterAll, AfterPhis, Inv;
    var e := s.flow[|s.flow| - 1];
    if e in s.edges {
      EdgeKnown(f, s);
    } else {
      EdgeAdded(f, s);
      var t, body := WithEdge(s), f.Body(e.to);
      forall i | i in body ensures Executable(f, t, i) { assert BodyOk(f, e.to) && PlacedAt(f, e.to, i); }
      if e.to in s.blocks {
        assert s.blocks + {e.to} == s.blocks;
        PhisKeep(f, t, body, Todo(f, s, e.to));
      } else {
        AllKeep(f, t, body, Todo(f, s, e.to));
      }
    }
  }

  /** The executable users of `v`. */
  function Waiting(f: Function, s: Facts, v: ValueId): set<InstId> {
    set i | i in f.Users(v) && Executable(f, s, i)
  }

  lemma ValuePopped(f: Function, s: Facts)
    requires WellFormed(f) && Inv(f, s, {}) && s.ssa != []
    ensures Inv(f, PopSsa(s), Waiting(f, s, s.ssa[|s.ssa| - 1]))
  {
    hide UpToDate, BodyOk, ValueOk, Operands;
    var v, t := s.ssa[|s.ssa| - 1], PopSsa(s);
    forall w ensures CellTyped(f, t, w) { assert CellTyped(f, s, w); }
    forall i | Executable(f, t, i) && Plain(f, i) && i !in Waiting(f, s, v) ensures Settled(f, t, i) {
      assert InstOk(f, i) && UsersOk(f, i) && Settled(f, s, i);
      if Pending(s, f.At(i)) {
        var w :| w in Operands(f.At(i)) && w in s.ssaSet;
        assert w in t.ssaSet;
      } else {
        StaysUpToDate(f, s, t, i);
      }
    }
  }

  lemma SsaTurn(f: Function, s: Facts)
    requires WellFormed(f) && Inv(f, s, {}) && s.ssa != []
    ensures Inv(f, AfterUsers(f, PopSsa(s), f.Users(s.ssa[|s.ssa| - 1])), {})
  {
    hide AfterUsers, Inv, InstOk, BodyOk, ValueOk, HomeOk;
    var v := s.ssa[|s.ssa| - 1];
    ValuePopped(f, s);
    UsersKeep(f, PopSsa(s), f.Users(v), Waiting(f, s, v));
  }

  // ----- all turns

  lemma {:induction false} TopArgsAt(args: seq<ValueId>, m: map<ValueId, Cell>)
    ensures var t := TopArgs(args, m);
      forall v :: (v in args ==> v in t && t[v] == Top) && (v !in args ==> (v in t <==> v in m) && (v in t ==> t[v] == m[v]))
  {
    if args != [] {
      TopArgsAt(args[1..], m[args[0] := Top]);
      assert forall v :: v in args <==> v == args[0] || v in args[1..];
    }
  }

  lemma InitialKeeps(f: Function)
    requires WellFormed(f)
    ensures Inv(f, Initial(f), {})
  {
    hide AfterAll, InstOk, ValueOk, HomeOk, UpToDate;
    var s := Facts(TopArgs(f.args, map[]), map[], {}, {f.entry}, [], [], {}, {});
    TopArgsAt(f.args, map[]);
    var todo := set i | i in f.Body(f.entry);
    forall i | i in f.Body(f.entry) ensures Executable(f, s, i) { assert BodyOk(f, f.entry) && PlacedAt(f, f.entry, i); }
    forall i | Executable(f, s, i) ensures i in todo { InstOf(f, i); }
    assert Inv(f, s, todo);
    AllKeep(f, s, f.Body(f.entry), todo);
  }

  lemma {:induction false} TurnsKeep(f: Function, n: nat)
    requires WellFormed(f)
    ensures Inv(f, Iterate(f, n).facts, {})
  {
    hide Initial, AfterEdge, AfterUsers, WellFormed, Inv;
    if n == 0 {
      InitialKeeps(f);
    } else {
      TurnsKeep(f, n - 1);
      var c := Iterate(f, n - 1);
      if c.ssaTurn && c.facts.ssa != [] { SsaTurn(f, c.facts); }
      if !c.ssaTurn && c.facts.flow != [] { FlowTurn(f, c.facts); }
    }
  }

  /** Facts that explain themselves: every executable instruction that is no
      negation of a negation evaluates to what is recorded for it. */
  ghost predicate Solved(f: Function, s: Facts) {
    && s.flowSet == {} && EdgesOk(f, s) && ArgsTop(f, s) && CellsTyped(f, s)
    && (forall i {:trigger UpToDate(f, s, i)} :: Executable(f, s, i) && Plain(f, i) ==> UpToDate(f, s, i))
  }

  lemma SolvedWhenFinished(f: Function, n: nat)
    requires WellFormed(f) && Finished(Iterate(f, n).facts)
    ensures Solved(f, Iterate(f, n).facts)
  {
    hide Iterate, UpToDate, WellFormed, Operands;
    TurnsKeep(f, n);
    var s := Iterate(f, n).facts;
    assert s.ssaSet == {} && s.flowSet == {};
    forall i | Executable(f, s, i) && Plain(f, i) ensures UpToDate(f, s, i) {
      assert Settled(f, s, i);
    }
  }

  // ----- what the facts say about a run

  /** Every cell admits the undefined value. */
  predicate Holds(c: Cell, e: EvalValue) {
    e.Undef? || c.Top? || c == Const(e.imm)
  }

  predicate ValueDescribed(f: Function, s: Facts, m: Machine, v: ValueId) {
    var e := Lookup(f, m, v);
    Holds(CellOf(f, s, v), e) && Typed(e, f.Type(v)) && (f.Data(v).Undefined? ==> e.Undef?)
  }

  ghost predicate ValuesDescribed(f: Function, s: Facts, m: Machine) {
    forall v {:trigger ValueDescribed(f, s, m, v)} :: ValueDescribed(f, s, m, v)
  }

  /** The block is known to be executable, so is the edge it was entered by, and
      every value is what its cell says. */
  ghost predicate Described(f: Function, s: Facts, m: Machine) {
    && m.block in s.blocks
    && (m.prev.Some? ==> m.prev.value in s.blocks && IsReachable(f, s, m.prev.value, m.block))
    && ValuesDescribed(f, s, m)
  }

  lemma StartDescribed(f: Function, s: Facts, actuals: seq<EvalValue>)
    requires WellFormed(f) && Solved(f, s) && ActualsTyped(f, actuals)
    ensures Described(f, s, Start(f, actuals))
  {
    hide UpToDate, InstOk, BodyOk, HomeOk;
    var m := Start(f, actuals);
    forall v ensures ValueDescribed(f, s, m, v) {
      assert ValueOk(f, v);
      if v in m.locals { ArgMapLookup(f, f.args, actuals, v); }
    }
  }

  // ----- evaluation on cells covers evaluation on values

  lemma KnownHolds(f: Function, s: Facts, m: Machine, v: ValueId)
    requires ValueDescribed(f, s, m, v) && Lookup(f, m, v).Word? && KnownImm(f, s, v).Some?
    ensures Lookup(f, m, v).imm == KnownImm(f, s, v).value
  {
  }

  /** A rule that fires names the value the interpreter computes. */
  predicate Names(f: Function, m: Machine, r: Simplified, x: Imm) {
    match r
    case ToConst(c) => c == x
    case ToCopy(src) => Lookup(f, m, src) == Word(x)
    case NoChange => true
  }

  /** The values `x` and `y` of the operands agree with what is known of them. */
  predicate Agrees(f: Function, s: Facts, l: ValueId, r: ValueId, x: Imm, y: Imm) {
    && WellSized(x) && WellSized(y) && x.width == y.width == f.Type(l) == f.Type(r)
    && (KnownImm(f, s, l).Some? ==> KnownImm(f, s, l).value == x)
    && (KnownImm(f, s, r).Some? ==> KnownImm(f, s, r).value == y)
    && (l == r ==> x == y)
  }

  lemma BitwiseRules(f: Function, s: Facts, l: ValueId, r: ValueId, x: Imm, y: Imm)
    requires Agrees(f, s, l, r, x, y)
    ensures var c := SimplifyAnd(f, s, l, r); c.ToConst? ==> c.imm == Apply(And, x, y)
    ensures var c := SimplifyAnd(f, s, l, r); c.ToCopy? ==> (c.src == l && Apply(And, x, y) == x) || (c.src == r && Apply(And, x, y) == y)
    ensures var c := SimplifyOr(f, s, l, r); c.ToConst? ==> c.imm == Apply(Or, x, y)
    ensures var c := SimplifyOr(f, s, l, r); c.ToCopy? ==> (c.src == l && Apply(Or, x, y) == x) || (c.src == r && Apply(Or, x, y) == y)
    ensures var c := SimplifyXor(f, s, l, r); c.ToConst? ==> c.imm == Apply(Xor, x, y)
    ensures var c := SimplifyXor(f, s, l, r); c.ToCopy? ==> (c.src == l && Apply(Xor, x, y) == x) || (c.src == r && Apply(Xor, x, y) == y)
  {
    hide KnownImm, Pow2, Apply;
    WordLaws(x);
    WordLaws(y);
  }

  lemma ArithmeticRules(f: Function, s: Facts, l: ValueId, r: ValueId, x: Imm, y: Imm)
    requires Agrees(f, s, l, r, x, y)
    ensures var c := SimplifyMul(f, s, l, r); c.ToConst? ==> c.imm == Apply(Mul, x, y)
    ensures var c := SimplifyMul(f, s, l, r); c.ToCopy? ==> (c.src == l && Apply(Mul, x, y) == x) || (c.src == r && Apply(Mul, x, y) == y)
    ensures var c := SimplifyAdd(f, s, l, r); !c.ToConst? && (c.ToCopy? ==> (c.src == l && Apply(Add, x, y) == x) || (c.src == r && Apply(Add, x, y) == y))
    ensures var c := SimplifySub(f, s, l, r); c.ToConst? ==> c.imm == Apply(Sub, x, y)
    ensures var c := SimplifySub(f, s, l, r); c.ToCopy? ==> c.src == l && Apply(Sub, x, y) == x
  {
    hide KnownImm, Pow2, Apply;
    WordLaws(x);
    WordLaws(y);
  }

  lemma ShiftRules(f: Function, s: Facts, op: BinOp, l: ValueId, r: ValueId, x: Imm, y: Imm)
    requires Agrees(f, s, l, r, x, y) && IsShift(op) && x.width <= 256
    requires op == Sar && ZeroAmount(f, s, l) ==> KeptByZeroShift(y)
    ensures var c := SimplifyShift(f, s, l, r); c.ToConst? ==> c.imm == Apply(op, x, y)
    ensures var c := SimplifyShift(f, s, l, r); c.ToCopy? ==> c.src == r && Apply(op, x, y) == y
  {
    hide KnownImm, Pow2, ShiftLeft, ShiftRight, ShiftArithmetic;
    ShiftLaws(x, y);
    if op == Sar && x.bits == 0 { SarByZeroExact(y); }
  }

  lemma CompareRules(f: Function, s: Facts, op: BinOp, l: ValueId, r: ValueId, x: Imm, y: Imm)
    requires Agrees(f, s, l, r, x, y) && IsCompare(op)
    ensures var c := SimplifyCompare(f, s, op, l, r); !c.ToCopy? && (c.ToConst? ==> c.imm == Apply(op, x, y))
  {
    hide KnownImm, Signed, Pow2;
  }

  lemma AgreesWithRun(f: Function, s: Facts, m: Machine, l: ValueId, r: ValueId)
    requires ValueDescribed(f, s, m, l) && ValueDescribed(f, s, m, r) && f.Type(l) == f.Type(r)
    requires Lookup(f, m, l).Word? && Lookup(f, m, r).Word?
    ensures var (x, y) := (Lookup(f, m, l).imm, Lookup(f, m, r).imm);
      Agrees(f, s, l, r, x, y) && WellSized(x) && WellSized(y) && x.width == y.width == f.Type(l)
  {
    if KnownImm(f, s, l).Some? { KnownHolds(f, s, m, l); }
    if KnownImm(f, s, r).Some? { KnownHolds(f, s, m, r); }
    hide KnownImm, Pow2;
  }

  lemma BinaryRuleSound(f: Function, s: Facts, m: Machine, i: InstId)
    requires f.At(i).Binary? && TypeOk(f, i)
    requires ValueDescribed(f, s, m, f.At(i).lhs) && ValueDescribed(f, s, m, f.At(i).rhs)
    requires Lookup(f, m, f.At(i).lhs).Word? && Lookup(f, m, f.At(i).rhs).Word?
    requires f.At(i).op == Sar && ZeroAmount(f, s, f.At(i).lhs) ==> KeptByZeroShift(Lookup(f, m, f.At(i).rhs).imm)
    ensures var (x, y) := (Lookup(f, m, f.At(i).lhs).imm, Lookup(f, m, f.At(i).rhs).imm);
      && WellSized(x) && WellSized(y) && x.width == y.width
      && Names(f, m, Simplify(f, s, f.At(i)), Apply(f.At(i).op, x, y))
  {
    var (op, l, r) := (f.At(i).op, f.At(i).lhs, f.At(i).rhs);
    var (x, y) := (Lookup(f, m, l).imm, Lookup(f, m, r).imm);
    AgreesWithRun(f, s, m, l, r);
    hide ValueDescribed, SimplifyAnd, SimplifyOr, SimplifyXor, SimplifyMul, SimplifyAdd, SimplifySub, SimplifyShift, SimplifyCompare, Apply, Agrees,
      WellSized, Pow2;
    if IsShift(op) {
      ShiftRules(f, s, op, l, r, x, y);
    } else if IsCompare(op) {
      CompareRules(f, s, op, l, r, x, y);
    } else {
      BitwiseRules(f, s, l, r, x, y);
      ArithmeticRules(f, s, l, r, x, y);
    }
  }

  /** What a pure instruction computes is covered by what its cell should be,
      unless it is one of those the rules get wrong. */
  lemma EvalSound(f: Function, s: Facts, m: Machine, i: InstId)
    requires WellFormed(f) && i in f.home && IsPure(f.At(i)) && Plain(f, i) && !SarFails(f, s, i) && ValuesDescribed(f, s, m)
    requires Evaluable(Values(f, m), f.At(i))
    ensures Holds(EvalCell(f, s, f.At(i)), Evaluate(Values(f, m), f.At(i)))
  {
    hide WellFormed, Simplify, Interpreted, KnownImm, Apply, SarFails, IsTwice;
    var inst, e := f.At(i), Evaluate(Values(f, m), f.At(i));
    InstOf(f, i);
    forall v | v in Operands(inst) ensures ValueDescribed(f, s, m, v) {}
    if e.Word? {
      ZeroShiftNamed(f, s, m, i);
      match Simplify(f, s, inst)
      case ToCopy(src) =>
        assert ValueDescribed(f, s, m, src);
        if !CellOf(f, s, src).Top? { RuleNames(f, s, m, i); }
      case ToConst(c) => RuleNames(f, s, m, i);
      case NoChange => InterpretedSound(f, s, m, inst);
    }
  }

  /** The word is kept by a shift by a known zero, or its cell is `Top` and the
      rule copies that. */
  ghost predicate ZeroShiftKeeps(f: Function, s: Facts, m: Machine, inst: Inst) {
    inst.Binary? && inst.op == Sar && ZeroAmount(f, s, inst.lhs) && Lookup(f, m, inst.rhs).Word? ==> KeptByZeroShift(Lookup(f, m, inst.rhs).imm)
  }

  lemma ZeroShiftNamed(f: Function, s: Facts, m: Machine, i: InstId)
    requires IsPure(f.At(i)) && InstOk(f, i) && ValuesDescribed(f, s, m) && !SarFails(f, s, i)
    ensures var r := Simplify(f, s, f.At(i));
      ZeroShiftKeeps(f, s, m, f.At(i)) || (r.ToCopy? && CellOf(f, s, r.src).Top?)
  {
    var inst := f.At(i);
    if inst.Binary? && inst.op == Sar && Lookup(f, m, inst.rhs).Word? {
      assert ValueDescribed(f, s, m, inst.rhs);
      hide Pow2, WellSized;
      ZeroKept(f.Type(inst.rhs));
    }
  }

  lemma ZeroKept(width: nat)
    ensures width > 0 ==> KeptByZeroShift(Zero(width))
  {
  }

  lemma RuleNames(f: Function, s: Facts, m: Machine, i: InstId)
    requires InstOk(f, i) && IsPure(f.At(i)) && Plain(f, i) && ZeroShiftKeeps(f, s, m, f.At(i)) && ValuesDescribed(f, s, m)
    requires Evaluable(Values(f, m), f.At(i)) && Evaluate(Values(f, m), f.At(i)).Word?
    ensures Names(f, m, Simplify(f, s, f.At(i)), Evaluate(Values(f, m), f.At(i)).imm)
  {
    hide KnownImm, Apply, CellOf, KeptByZeroShift;
    var inst := f.At(i);
    match inst
    case Binary(op, l, r) =>
      assert ValueDescribed(f, s, m, l) && ValueDescribed(f, s, m, r);
      BinaryRuleSound(f, s, m, i);
    case Unary(op, a) =>
    case Cast(op, a, w) =>
      assert ValueDescribed(f, s, m, a);
      CastLaws(op, Lookup(f, m, a).imm);
  }

  /** Cells that are all constant give the interpreter's result; otherwise a
      defined value has met a `Top`. */
  lemma InterpretedSound(f: Function, s: Facts, m: Machine, inst: Inst)
    requires IsPure(inst) && Evaluable(Values(f, m), inst) && Evaluate(Values(f, m), inst).Word?
    requires forall v {:trigger ValueDescribed(f, s, m, v)} :: v in Operands(inst) ==> ValueDescribed(f, s, m, v)
    ensures Holds(Interpreted(f, s, inst), Evaluate(Values(f, m), inst))
  {
    hide Apply, ApplyUnary, ApplyCast;
    var cells, val := CellValues(f, s), Values(f, m);
    forall v | v in Operands(inst) && val(v).Word? ensures cells(v) == val(v) || CellOf(f, s, v).Top? {
      assert ValueDescribed(f, s, m, v);
    }
    match inst
    case Binary(op, l, r) => assert l in Operands(inst) && r in Operands(inst);
    case Unary(op, a) => assert a in Operands(inst);
    case Cast(op, a, w) => assert a in Operands(inst);
  }

  lemma {:induction false} JoinKeeps(f: Function, s: Facts, block: BlockId, args: seq<(ValueId, BlockId)>, acc: Cell, e: EvalValue)
    requires Holds(acc, e)
    ensures Holds(JoinArgs(f, s, block, args, acc), e)
    decreases |args|
  {
    hide IsReachable, CellOf;
    if args != [] {
      var next := if IsReachable(f, s, args[0].1, block) then Join(acc, CellOf(f, s, args[0].0)) else acc;
      JoinKeeps(f, s, block, args[1..], next, e);
    }
  }

  lemma DescribedValue(f: Function, s: Facts, m: Machine, v: ValueId)
    requires ValuesDescribed(f, s, m)
    ensures ValueDescribed(f, s, m, v)
  {
  }

  lemma {:induction false} IncomingCovered(f: Function, s: Facts, m: Machine, block: BlockId, args: seq<(ValueId, BlockId)>, prev: BlockId, acc: Cell)
    requires ValuesDescribed(f, s, m) && IsReachable(f, s, prev, block)
    ensures Holds(JoinArgs(f, s, block, args, acc), Incoming(Values(f, m), args, prev))
    decreases |args|
  {
    hide IsReachable, CellOf, ValuesDescribed;
    if args != [] {
      var v := args[0].0;
      var next := if IsReachable(f, s, args[0].1, block) then Join(acc, CellOf(f, s, v)) else acc;
      if args[0].1 == prev {
        DescribedValue(f, s, m, v);
        JoinKeeps(f, s, block, args[1..], next, Lookup(f, m, v));
      } else {
        IncomingCovered(f, s, m, block, args[1..], prev, next);
      }
    }
  }

  lemma {:induction false} IncomingTyped(f: Function, val: Valuation, args: seq<(ValueId, BlockId)>, prev: BlockId, w: nat)
    requires forall k :: 0 <= k < |args| ==> Typed(val(args[k].0), w)
    ensures Typed(Incoming(val, args, prev), w)
  {
    if args != [] && args[0].1 != prev { IncomingTyped(f, val, args[1..], prev, w); }
  }

  // ----- taking a branch

  lemma {:induction false} TableDemanded(f: Function, s: Facts, m: Machine, c: Imm, table: seq<(ValueId, BlockId)>, default: Option<BlockId>)
    requires forall k :: 0 <= k < |table| ==> f.Data(table[k].0).Immediate?
    ensures var hit := TableTarget(Values(f, m), c, table);
      var d := if hit.Some? then hit else default;
      d.Some? ==> d.value in TableDemand(f, s, c, table, default)
    decreases |table|
  {
    if table != [] {
      assert Lookup(f, m, table[0].0) == Word(f.Data(table[0].0).imm);
      TableDemanded(f, s, m, c, table[1..], default);
    }
  }

  lemma {:induction false} TableTargetListed(val: Valuation, c: Imm, table: seq<(ValueId, BlockId)>)
    ensures TableTarget(val, c, table).Some? ==> TableTarget(val, c, table).value in Second(table)
  {
    if table != [] {
      TableTargetListed(val, c, table[1..]);
      assert Second(table) == [table[0].1] + Second(table[1..]);
    }
  }

  lemma TargetListed(val: Valuation, inst: Inst)
    ensures Target(val, inst).Some? ==> Target(val, inst).value in Dests(inst)
  {
    if inst.BrTable? && val(inst.scrutinee).Word? {
      TableTargetListed(val, val(inst.scrutinee).imm, inst.table);
    }
  }

  /** The branch the interpreter takes is one the solver demands. */
  lemma TargetDemanded(f: Function, s: Facts, m: Machine, i: InstId)
    requires TypeOk(f, i) && ValuesDescribed(f, s, m) && IsBranch(f.At(i))
    ensures var d := Target(Values(f, m), f.At(i)); d.Some? ==> d.value in Demand(f, s, f.At(i))
  {
    var inst := f.At(i);
    match inst
    case Br(c, _, _) => assert ValueDescribed(f, s, m, c);
    case BrTable(v, default, table) =>
      assert ValueDescribed(f, s, m, v);
      if Lookup(f, m, v).Word? {
        TableDemanded(f, s, m, Lookup(f, m, v).imm, table, default);
        TargetListed(Values(f, m), inst);
      }
    case _ =>
  }

  // ----- steps

  /** The next instruction is one the rules get wrong, and what it computes shows
      it: an arithmetic shift by zero that changes its word, or a negation of a
      negation whose recorded cell does not have the negation of the operand. */
  predicate Trips(f: Function, s: Facts, m: Machine) {
    m.at < |f.Body(m.block)| && TripsAt(f, s, m, f.Body(m.block)[m.at])
  }

  predicate TripsAt(f: Function, s: Facts, m: Machine, i: InstId) {
    f.ResultOf(i).Some? &&
    match f.At(i)
    case Binary(_, l, r) => SarFails(f, s, i) && Lookup(f, m, l).Word? && Lookup(f, m, r).Word?
    case Unary(op, a) =>
      && IsTwice(f, f.At(i)) && Lookup(f, m, a).Word? && WellSized(Lookup(f, m, a).imm)
      && !Holds(CellAt(s, f.ResultOf(i).value), Word(ApplyUnary(op, Lookup(f, m, a).imm)))
    case _ => false
  }

  lemma ProducedDescribed(f: Function, s: Facts, world: World, m: Machine, i: InstId)
    requires WellFormed(f) && Solved(f, s) && WorldTyped(f, world) && Described(f, s, m) && !TripsAt(f, s, m, i)
    requires Executable(f, s, i) && f.home[i] == m.block && !IsBranch(f.At(i)) && f.ResultOf(i).Some?
    ensures var e := Produced(f, world, m, i);
      e.Some? ==> Holds(CellAt(s, f.ResultOf(i).value), e.value) && Typed(e.value, f.Type(f.ResultOf(i).value))
  {
    hide BodyOk, HomeOk, EvalCell, Evaluate, JoinArgs, IsReachable, CellOf, Evaluable, Incoming, TripsAt, SarFails, IsTwice;
    var inst, r := f.At(i), f.ResultOf(i).value;
    assert InstOk(f, i) && (Plain(f, i) ==> UpToDate(f, s, i));
    ReadsOf(f, s, inst);
    forall v ensures Typed(Lookup(f, m, v), f.Type(v)) { assert ValueDescribed(f, s, m, v); }
    if inst.Phi? {
      OthersPlain(f, i);
      if m.prev.Some? {
        IncomingCovered(f, s, m, m.block, inst.args, m.prev.value, Bot);
        IncomingTyped(f, Values(f, m), inst.args, m.prev.value, f.Type(r));
      }
    } else if IsPure(inst) {
      EvaluateTyped(f, Values(f, m), i);
      PureDescribed(f, s, m, i);
    } else {
      OthersPlain(f, i);
    }
  }

  lemma OthersPlain(f: Function, i: InstId)
    ensures !f.At(i).Unary? ==> Plain(f, i)
  {
  }

  /** Unless it trips, a pure instruction computes what its recorded cell covers. */
  lemma PureDescribed(f: Function, s: Facts, m: Machine, i: InstId)
    requires WellFormed(f) && Solved(f, s) && ValuesDescribed(f, s, m) && !TripsAt(f, s, m, i)
    requires Executable(f, s, i) && IsPure(f.At(i)) && f.ResultOf(i).Some? && Evaluable(Values(f, m), f.At(i))
    ensures Holds(CellAt(s, f.ResultOf(i).value), Evaluate(Values(f, m), f.At(i)))
  {
    hide WellFormed, EvalCell, Apply, ApplyUnary, ApplyCast, CellsTyped, ArgsTop, EdgesOk, ValuesDescribed, SimplifyTwice;
    if Plain(f, i) {
      assert UpToDate(f, s, i);
      if SarFails(f, s, i) {
        assert Evaluate(Values(f, m), f.At(i)).Undef?;
      } else {
        EvalSound(f, s, m, i);
      }
    }
  }

  lemma EvaluateTyped(f: Function, val: Valuation, i: InstId)
    requires TypeOk(f, i) && IsPure(f.At(i))
    requires forall v :: Typed(val(v), f.Type(v))
    ensures Evaluable(val, f.At(i))
    ensures f.ResultOf(i).Some? ==> Typed(Evaluate(val, f.At(i)), f.Type(f.ResultOf(i).value))
  {
    hide Apply, ApplyUnary, ApplyCast, Pow2;
    var inst := f.At(i);
    match inst
    case Binary(op, l, r) => assert Typed(val(l), f.Type(l)) && Typed(val(r), f.Type(r));
    case Unary(op, a) => assert Typed(val(a), f.Type(a));
    case Cast(op, a, w) => assert Typed(val(a), f.Type(a));
  }

  lemma BranchDescribed(f: Function, s: Facts, m: Machine, i: InstId)
    requires WellFormed(f) && Solved(f, s) && Described(f, s, m)
    requires i in f.Body(m.block) && IsBranch(f.At(i)) && Target(Values(f, m), f.At(i)).Some?
    ensures var d := Target(Values(f, m), f.At(i)).value;
      FlowEdge(i, d) in s.edges && Described(f, s, JumpTo(m, d))
  {
    hide HomeOk, Demand, Target, CellOf, ValueOk, Typed, Holds;
    assert BodyOk(f, m.block) && PlacedAt(f, m.block, i) && InstOk(f, i);
    var d := Target(Values(f, m), f.At(i)).value;
    TargetDemanded(f, s, m, i);
    TargetListed(Values(f, m), f.At(i));
    assert UpToDate(f, s, i) && Pushed(s, FlowEdge(i, d));
    assert IsReachable(f, s, m.block, d);
    var o := JumpTo(m, d);
    forall v ensures ValueDescribed(f, s, o, v) { assert ValueDescribed(f, s, m, v); }
  }

  lemma ContinueDescribed(f: Function, s: Facts, world: World, m: Machine, i: InstId, es: seq<Event>)
    requires WellFormed(f) && Solved(f, s) && WorldTyped(f, world) && Described(f, s, m) && !TripsAt(f, s, m, i)
    requires i in f.Body(m.block) && !IsBranch(f.At(i)) && Produced(f, world, m, i).Some?
    ensures Described(f, s, Continue(f, m, i, Produced(f, world, m, i).value).(events := es))
  {
    hide HomeOk, Produced, TripsAt, ValueOk, Typed, Holds, UpToDate, IsReachable;
    assert BodyOk(f, m.block) && PlacedAt(f, m.block, i) && InstOk(f, i);
    var o := Continue(f, m, i, Produced(f, world, m, i).value).(events := es);
    if f.ResultOf(i).Some? { ProducedDescribed(f, s, world, m, i); }
    forall v ensures ValueDescribed(f, s, o, v) { assert ValueDescribed(f, s, m, v); }
  }

  lemma StepDescribed(f: Function, s: Facts, world: World, m: Machine)
    requires WellFormed(f) && Solved(f, s) && WorldTyped(f, world) && Described(f, s, m) && !Trips(f, s, m)
    ensures var o := Step(f, world, m); o.Running? ==> Described(f, s, o.m)
  {
    hide WellFormed, Solved, WorldTyped, Described, Produced, Target, Continue, TripsAt;
    if m.at < |f.Body(m.block)| && Step(f, world, m).Running? {
      var i := f.Body(m.block)[m.at];
      if IsBranch(f.At(i)) {
        BranchDescribed(f, s, m, i);
      } else {
        ContinueDescribed(f, s, world, m, i, m.events + Observed(f, m, i));
      }
    }
  }

  /** An instruction that trips leaves a state the facts do not describe. */
  lemma TripsBreaks(f: Function, s: Facts, world: World, m: Machine)
    requires WellFormed(f) && Solved(f, s) && Described(f, s, m) && Trips(f, s, m)
    ensures Step(f, world, m).Running? && !Described(f, s, Step(f, world, m).m)
  {
    var i := f.Body(m.block)[m.at];
    PlacedOf(f, m.block, i);
    InstOf(f, i);
    TripsPure(f, s, m, i);
    hide WellFormed, Described, Solved, TripsAt, CellAt, Trips, InstOk, Evaluable, Evaluate;
    ResultIs(f, i);
    AllTyped(f, s, m);
    EvaluateTyped(f, Values(f, m), i);
    TripsProduce(f, s, m, i);
    PureStep(f, world, m, i);
    ResultUndescribed(f, s, Step(f, world, m).m, f.ResultOf(i).value);
  }

  lemma TripsPure(f: Function, s: Facts, m: Machine, i: InstId)
    requires TripsAt(f, s, m, i)
    ensures IsPure(f.At(i)) && f.ResultOf(i).Some?
  {
  }

  lemma ResultIs(f: Function, i: InstId)
    requires InstOk(f, i)
    ensures TypeOk(f, i) && (f.ResultOf(i).Some? ==> f.Data(f.ResultOf(i).value) == Result(i))
  {
  }

  lemma PureStep(f: Function, world: World, m: Machine, i: InstId)
    requires m.at < |f.Body(m.block)| && f.Body(m.block)[m.at] == i && IsPure(f.At(i)) && Evaluable(Values(f, m), f.At(i))
    requires f.ResultOf(i).Some? && f.Data(f.ResultOf(i).value) == Result(i)
    ensures var o := Step(f, world, m);
      o.Running? && Lookup(f, o.m, f.ResultOf(i).value) == Evaluate(Values(f, m), f.At(i))
  {
    hide Evaluate, Evaluable;
  }

  lemma ResultUndescribed(f: Function, s: Facts, o: Machine, r: ValueId)
    requires f.Data(r).Result? && !Holds(CellAt(s, r), Lookup(f, o, r))
    ensures !Described(f, s, o)
  {
    assert !ValueDescribed(f, s, o, r);
  }

  lemma AllTyped(f: Function, s: Facts, m: Machine)
    requires Described(f, s, m)
    ensures m.block in s.blocks && ValuesDescribed(f, s, m)
    ensures forall v: ValueId :: Typed(Values(f, m)(v), f.Type(v))
  {
    forall v: ValueId ensures Typed(Values(f, m)(v), f.Type(v)) { assert ValueDescribed(f, s, m, v); }
  }

  /** The recorded cell does not have what the interpreter computes. */
  lemma TripsProduce(f: Function, s: Facts, m: Machine, i: InstId)
    requires WellFormed(f) && Solved(f, s) && Executable(f, s, i) && TripsAt(f, s, m, i) && Evaluable(Values(f, m), f.At(i))
    requires TypeOk(f, i) && ValuesDescribed(f, s, m)
    ensures !Holds(CellAt(s, f.ResultOf(i).value), Evaluate(Values(f, m), f.At(i)))
  {
    hide IsTwice;
    var inst := f.At(i);
    if inst.Binary? {
      OthersPlain(f, i);
      assert UpToDate(f, s, i) && CellTyped(f, s, inst.lhs) && CellTyped(f, s, inst.rhs);
      ValueOf(f, inst.rhs);
      assert ValueDescribed(f, s, m, inst.lhs) && ValueDescribed(f, s, m, inst.rhs);
      hide WellFormed, Solved, ValuesDescribed, CellTyped, Pow2, KeptByZeroShift, KnownImm, EvalCell, Evaluable, Evaluate, ValueDescribed;
      SarShows(f, s, m, inst);
    }
  }

  lemma SarShows(f: Function, s: Facts, m: Machine, inst: Inst)
    requires inst.Binary? && inst.op == Sar && ZeroAmount(f, s, inst.lhs) && f.Type(inst.lhs) == f.Type(inst.rhs) <= 256
    requires KnownImm(f, s, inst.rhs).Some? && !KeptByZeroShift(KnownImm(f, s, inst.rhs).value)
    requires CellTyped(f, s, inst.lhs) && CellTyped(f, s, inst.rhs) && f.Type(inst.rhs) > 0 && Evaluable(Values(f, m), inst)
    requires ValueDescribed(f, s, m, inst.lhs) && ValueDescribed(f, s, m, inst.rhs)
    requires Lookup(f, m, inst.lhs).Word? && Lookup(f, m, inst.rhs).Word?
    ensures !Holds(EvalCell(f, s, inst), Evaluate(Values(f, m), inst))
  {
    var (x, y) := (Values(f, m)(inst.lhs), Values(f, m)(inst.rhs));
    SarRecorded(f, s, inst);
    hide EvalCell, Apply, Pow2, KeptByZeroShift, Evaluable;
    assert x.imm == Zero(f.Type(inst.rhs));
    SarByZeroExact(y.imm);
  }

  lemma SarRecorded(f: Function, s: Facts, inst: Inst)
    requires inst.Binary? && inst.op == Sar && ZeroAmount(f, s, inst.lhs) && f.Type(inst.rhs) > 0
    requires KnownImm(f, s, inst.rhs).Some? && !KeptByZeroShift(KnownImm(f, s, inst.rhs).value)
    ensures EvalCell(f, s, inst) == CellOf(f, s, inst.rhs)
  {
    ZeroKept(f.Type(inst.rhs));
    hide KnownImm, KeptByZeroShift;
  }

  // ----- runs

  ghost predicate DescribedAfter(f: Function, s: Facts, world: World, m: Machine, j: nat) {
    var o := Run(f, world, m, j); o.Running? ==> Described(f, s, o.m)
  }

  predicate TripsAfter(f: Function, s: Facts, world: World, m: Machine, j: nat) {
    var o := Run(f, world, m, j); o.Running? && Trips(f, s, o.m)
  }

  /** The facts describe the first `k` steps of the run from `m`. */
  ghost predicate AllDescribed(f: Function, s: Facts, world: World, m: Machine, k: nat) {
    forall j: nat {:trigger DescribedAfter(f, s, world, m, j)} :: j <= k ==> DescribedAfter(f, s, world, m, j)
  }

  ghost predicate NeverTrips(f: Function, s: Facts, world: World, m: Machine, k: nat) {
    forall j: nat {:trigger TripsAfter(f, s, world, m, j)} :: j < k ==> !TripsAfter(f, s, world, m, j)
  }

  lemma {:induction false} RunDescribed(f: Function, s: Facts, world: World, m: Machine, k: nat)
    requires WellFormed(f) && Solved(f, s) && WorldTyped(f, world) && Described(f, s, m) && NeverTrips(f, s, world, m, k)
    ensures DescribedAfter(f, s, world, m, k)
    decreases k
  {
    hide WellFormed, Solved, WorldTyped, Described, Step, Trips;
    if k > 0 {
      assert !TripsAfter(f, s, world, m, 0);
      StepDescribed(f, s, world, m);
      var o := Step(f, world, m);
      if o.Running? {
        NeverTripsLater(f, s, world, m, k);
        RunDescribed(f, s, world, o.m, k - 1);
      }
    }
  }

  lemma NeverTripsLater(f: Function, s: Facts, world: World, m: Machine, k: nat)
    requires k > 0 && NeverTrips(f, s, world, m, k) && Step(f, world, m).Running?
    ensures NeverTrips(f, s, world, Step(f, world, m).m, k - 1)
  {
    hide Step, Trips;
    forall j: nat | j < k - 1 ensures !TripsAfter(f, s, world, Step(f, world, m).m, j) {
      assert !TripsAfter(f, s, world, m, j + 1);
    }
  }

  lemma NeverTripsFewer(f: Function, s: Facts, world: World, m: Machine, j: nat, k: nat)
    requires j <= k && NeverTrips(f, s, world, m, k)
    ensures NeverTrips(f, s, world, m, j)
  {
  }

  lemma TripShows(f: Function, s: Facts, world: World, m: Machine, j: nat)
    requires WellFormed(f) && Solved(f, s) && DescribedAfter(f, s, world, m, j) && TripsAfter(f, s, world, m, j)
    ensures !DescribedAfter(f, s, world, m, j + 1)
  {
    hide WellFormed, Solved, Described, Step, Trips;
    var o := Run(f, world, m, j).m;
    TripsBreaks(f, s, world, o);
    RunSplit(f, world, m, j, 1);
    RunOne(f, world, o);
  }

  /** Once both worklists are empty, the facts describe a run for as long as it
      does not trip, and no longer: the block and the edge into it are marked
      executable, and each value is the constant of its cell unless it is
      undefined or its cell is `Top`. */
  lemma RunDescribedExactly(f: Function, turns: nat, actuals: seq<EvalValue>, world: World, k: nat)
    requires WellFormed(f) && Finished(Iterate(f, turns).facts)
    requires ActualsTyped(f, actuals) && WorldTyped(f, world)
    ensures var s := Iterate(f, turns).facts;
      AllDescribed(f, s, world, Start(f, actuals), k) <==> NeverTrips(f, s, world, Start(f, actuals), k)
  {
    assert |actuals| == |f.args|;
    hide WellFormed, Solved, WorldTyped, Described, Finished, Iterate, Run, ActualsTyped, DescribedAfter, TripsAfter;
    var s, m := Iterate(f, turns).facts, Start(f, actuals);
    SolvedWhenFinished(f, turns);
    StartDescribed(f, s, actuals);
    if NeverTrips(f, s, world, m, k) {
      forall j: nat | j <= k ensures DescribedAfter(f, s, world, m, j) {
        NeverTripsFewer(f, s, world, m, j, k);
        RunDescribed(f, s, world, m, j);
      }
    }
    if AllDescribed(f, s, world, m, k) {
      forall j: nat | j < k ensures !TripsAfter(f, s, world, m, j) {
        assert DescribedAfter(f, s, world, m, j) && DescribedAfter(f, s, world, m, j + 1);
        if TripsAfter(f, s, world, m, j) { TripShows(f, s, world, m, j); }
      }
    }
  }

  // ----- facts that no run can trip over

  predicate Leq(c: Cell, d: Cell) { c.Bot? || c == d || d.Top? }

  /** What is recorded for `i` is right for every word its operands' cells admit. */
  predicate Trusted(f: Function, s: Facts, i: InstId) {
    f.ResultOf(i).Some? ==>
      && !SarFails(f, s, i)
      && (IsTwice(f, f.At(i)) ==> Leq(Interpreted(f, s, f.At(i)), CellAt(s, f.ResultOf(i).value)))
  }

  ghost predicate AllTrusted(f: Function, s: Facts) {
    forall i {:trigger Trusted(f, s, i)} :: Executable(f, s, i) ==> Trusted(f, s, i)
  }

  lemma TrustedNeverTrips(f: Function, s: Facts, m: Machine)
    requires WellFormed(f) && AllTrusted(f, s) && Described(f, s, m)
    ensures !Trips(f, s, m)
  {
    hide WellFormed, AllTrusted, TripsAt;
    if m.at < |f.Body(m.block)| {
      var i := f.Body(m.block)[m.at];
      PlacedOf(f, m.block, i);
      ExecutableTrusted(f, s, m, i);
      TrustedNotTripped(f, s, m, i);
    }
  }

  lemma ExecutableTrusted(f: Function, s: Facts, m: Machine, i: InstId)
    requires AllTrusted(f, s) && Described(f, s, m) && i in f.home && f.home[i] == m.block
    ensures Trusted(f, s, i)
  {
    assert Executable(f, s, i);
  }

  lemma TrustedNotTripped(f: Function, s: Facts, m: Machine, i: InstId)
    requires Trusted(f, s, i) && Described(f, s, m)
    ensures !TripsAt(f, s, m, i)
  {
    hide SarFails, IsTwice, Interpreted, ApplyUnary;
    var inst := f.At(i);
    if inst.Unary? && IsTwice(f, inst) && f.ResultOf(i).Some? {
      var val := Values(f, m);
      assert ValueDescribed(f, s, m, inst.arg) && val(inst.arg) == Lookup(f, m, inst.arg);
      if val(inst.arg).Word? && WellSized(val(inst.arg).imm) { InterpretedSound(f, s, m, inst); }
    }
  }

  lemma {:induction false} TrustedRun(f: Function, s: Facts, world: World, m: Machine, k: nat)
    requires WellFormed(f) && Solved(f, s) && WorldTyped(f, world) && Described(f, s, m) && AllTrusted(f, s)
    ensures NeverTrips(f, s, world, m, k)
    decreases k
  {
    hide WellFormed, Solved, WorldTyped, Described, AllTrusted, TripsAfter, NeverTrips;
    NoTripYet(f, s, world, m);
    if k > 0 {
      TrustedRun(f, s, world, m, k - 1);
      RunDescribed(f, s, world, m, k - 1);
      OneMoreStep(f, s, world, m, k - 1);
    }
  }

  lemma NoTripYet(f: Function, s: Facts, world: World, m: Machine)
    ensures NeverTrips(f, s, world, m, 0)
  {
  }

  lemma OneMoreStep(f: Function, s: Facts, world: World, m: Machine, k: nat)
    requires WellFormed(f) && AllTrusted(f, s) && NeverTrips(f, s, world, m, k) && DescribedAfter(f, s, world, m, k)
    ensures NeverTrips(f, s, world, m, k + 1)
  {
    hide WellFormed, AllTrusted, Trips;
    var o := Run(f, world, m, k);
    if o.Running? { TrustedNeverTrips(f, s, o.m); }
  }

  /** Facts that can be trusted, which one pass over them decides, describe every
      state of every run. */
  lemma EveryRunDescribed(f: Function, turns: nat, actuals: seq<EvalValue>, world: World, k: nat)
    requires WellFormed(f) && Finished(Iterate(f, turns).facts) && AllTrusted(f, Iterate(f, turns).facts)
    requires ActualsTyped(f, actuals) && WorldTyped(f, world)
    ensures var o := Run(f, world, Start(f, actuals), k);
      o.Running? ==> Described(f, Iterate(f, turns).facts, o.m)
  {
    assert |actuals| == |f.args|;
    hide WellFormed, Solved, WorldTyped, Described, Finished, Iterate, Run, ActualsTyped, AllTrusted, NeverTrips;
    SolvedWhenFinished(f, turns);
    var s := Iterate(f, turns).facts;
    StartDescribed(f, s, actuals);
    TrustedRun(f, s, world, Start(f, actuals), k);
    RunDescribed(f, s, world, Start(f, actuals), k);
  }

  // ----- no weaker check would do

  ghost predicate NoneTrips(f: Function, s: Facts) {
    forall m: Machine {:trigger Trips(f, s, m)} :: Described(f, s, m) ==> !Trips(f, s, m)
  }

  ghost predicate StepStays(f: Function, s: Facts, world: World, m: Machine) {
    var o := Step(f, world, m); o.Running? ==> Described(f, s, o.m)
  }

  /** Whatever the outside answers, no step leaves the described states. */
  ghost predicate Closed(f: Function, s: Facts) {
    forall world: World, m: Machine {:trigger StepStays(f, s, world, m)} ::
      WorldTyped(f, world) && Described(f, s, m) ==> StepStays(f, s, world, m)
  }

  /** `e` is a value the facts allow `v` to hold. */
  predicate Allowed(f: Function, s: Facts, v: ValueId, e: EvalValue) {
    f.Data(v).Immediate? || (f.Data(v).Result? && Typed(e, f.Type(v)) && Holds(CellAt(s, v), e))
  }

  /** A described state just before `i` that holds allowed values. */
  lemma StateBefore(f: Function, s: Facts, i: InstId, locals: map<ValueId, EvalValue>) returns (m: Machine)
    requires WellFormed(f) && Executable(f, s, i) && forall v :: v in locals ==> Allowed(f, s, v, locals[v])
    ensures Described(f, s, m) && m.locals == locals && m.at < |f.Body(m.block)| && f.Body(m.block)[m.at] == i
  {
    hide WellFormed, WellSized;
    InstOf(f, i);
    var b := f.home[i];
    var k: nat :| k < |f.Body(b)| && f.Body(b)[k] == i;
    m := Machine(locals, None, b, k, []);
    forall v ensures ValueDescribed(f, s, m, v) {
      ValueOf(f, v);
      if v in locals { assert Allowed(f, s, v, locals[v]); }
    }
  }

  lemma KnownAllowed(f: Function, s: Facts, v: ValueId)
    requires CellTyped(f, s, v) && KnownImm(f, s, v).Some?
    ensures Allowed(f, s, v, Word(KnownImm(f, s, v).value))
    ensures forall m {:trigger Lookup(f, m, v)} :: Local(m, v) == Word(KnownImm(f, s, v).value) ==> Lookup(f, m, v) == Word(KnownImm(f, s, v).value)
  {
    hide WellSized;
  }

  /** A wrong shift trips on the words the facts have for its operands. */
  lemma ShiftState(f: Function, s: Facts, i: InstId) returns (m: Machine)
    requires WellFormed(f) && CellsTyped(f, s) && Executable(f, s, i) && f.ResultOf(i).Some? && SarFails(f, s, i)
    ensures Described(f, s, m) && Trips(f, s, m)
  {
    hide WellFormed, KeptByZeroShift, Described, KnownImm, Lookup, Allowed;
    var (l, r) := (f.At(i).lhs, f.At(i).rhs);
    assert CellTyped(f, s, l) && CellTyped(f, s, r);
    KnownAllowed(f, s, l);
    KnownAllowed(f, s, r);
    m := StateBefore(f, s, i, map[l := Word(KnownImm(f, s, l).value), r := Word(KnownImm(f, s, r).value)]);
  }

  /** A word that the operand of `i` can hold and whose negation is not recorded. */
  lemma WordMissed(f: Function, s: Facts, i: InstId) returns (x: Imm)
    requires WellFormed(f) && CellsTyped(f, s) && IsTwice(f, f.At(i)) && f.ResultOf(i).Some?
    requires !Leq(Interpreted(f, s, f.At(i)), CellAt(s, f.ResultOf(i).value))
    ensures WellSized(x) && Allowed(f, s, f.At(i).arg, Word(x))
    ensures !Holds(CellAt(s, f.ResultOf(i).value), Word(ApplyUnary(f.At(i).unop, x)))
  {
    hide WellFormed, Interpreted, WellSized, ApplyUnary;
    var inst, y := f.At(i), CellAt(s, f.ResultOf(i).value);
    var w := f.Type(inst.arg);
    ValueOf(f, inst.arg);
    assert CellTyped(f, s, inst.arg);
    OnCell(f, s, inst);
    SmallWords(inst.unop, w);
    var c := CellAt(s, inst.arg);
    x := if c.Const? then c.imm else if y == Const(ApplyUnary(inst.unop, Imm(w, 0))) then Imm(w, 1) else Imm(w, 0);
  }

  /** What a negation makes of the cell of its operand. */
  lemma OnCell(f: Function, s: Facts, inst: Inst)
    requires inst.Unary? && f.Data(inst.arg).Result?
    ensures match CellAt(s, inst.arg)
      case Bot => Interpreted(f, s, inst) == Bot
      case Const(c) => WellSized(c) ==> Interpreted(f, s, inst) == Const(ApplyUnary(inst.unop, c))
      case Top => Interpreted(f, s, inst) == Top
  {
    hide ApplyUnary, WellSized;
    assert Operands(inst) == [inst.arg] && inst.arg in Operands(inst);
  }

  lemma SmallWords(op: UnOp, w: nat)
    requires w > 0 && op != IsZero
    ensures WellSized(Imm(w, 0)) && WellSized(Imm(w, 1)) && ApplyUnary(op, Imm(w, 0)) != ApplyUnary(op, Imm(w, 1))
  {
    NegatedIs(Imm(w, 0));
    NegatedIs(Imm(w, 1));
    hide Negated;
  }

  lemma NegationState(f: Function, s: Facts, i: InstId) returns (m: Machine)
    requires WellFormed(f) && CellsTyped(f, s) && Executable(f, s, i) && IsTwice(f, f.At(i)) && f.ResultOf(i).Some?
    requires !Leq(Interpreted(f, s, f.At(i)), CellAt(s, f.ResultOf(i).value))
    ensures Described(f, s, m) && Trips(f, s, m)
  {
    hide WellFormed, CellsTyped, Interpreted, WellSized, ApplyUnary, Described, Allowed, Holds;
    var x := WordMissed(f, s, i);
    m := StateBefore(f, s, i, map[f.At(i).arg := Word(x)]);
  }

  /** Facts that fail the check leave a described state that trips. */
  lemma UntrustedTrips(f: Function, s: Facts, i: InstId) returns (m: Machine)
    requires WellFormed(f) && CellsTyped(f, s) && Executable(f, s, i) && !Trusted(f, s, i)
    ensures Described(f, s, m) && Trips(f, s, m)
  {
    hide WellFormed, CellsTyped, SarFails, IsTwice, Interpreted, Described, Trips;
    if SarFails(f, s, i) { m := ShiftState(f, s, i); } else { m := NegationState(f, s, i); }
  }

  lemma NoneTripsClosed(f: Function, s: Facts)
    requires WellFormed(f) && Solved(f, s)
    ensures NoneTrips(f, s) <==> Closed(f, s)
  {
    hide WellFormed, Solved, Described, WorldTyped, Trips, Step;
    if NoneTrips(f, s) {
      forall world: World, m: Machine | WorldTyped(f, world) && Described(f, s, m) ensures StepStays(f, s, world, m) {
        StepDescribed(f, s, world, m);
      }
    }
    if Closed(f, s) {
      var quiet := Quiet();
      QuietTyped(f);
      forall m: Machine | Described(f, s, m) ensures !Trips(f, s, m) {
        assert StepStays(f, s, quiet, m);
        if Trips(f, s, m) { TripsBreaks(f, s, quiet, m); }
      }
    }
  }

  /** An outside that never answers anything defined. */
  function Quiet(): World { (i: InstId, k: nat) => Undef }

  lemma QuietTyped(f: Function)
    ensures WorldTyped(f, Quiet())
  {
  }

  /** Once both worklists are empty, the check on the facts is exact: it passes just
      when no described state trips, which is just when no step, under any answers
      from outside, leaves the described states. */
  lemma TrustedExactly(f: Function, turns: nat)
    requires WellFormed(f) && Finished(Iterate(f, turns).facts)
    ensures var s := Iterate(f, turns).facts;
      (AllTrusted(f, s) <==> NoneTrips(f, s)) && (AllTrusted(f, s) <==> Closed(f, s))
  {
    hide WellFormed, Solved, Described, Finished, Iterate, Closed, Trips, Trusted;
    var s := Iterate(f, turns).facts;
    SolvedWhenFinished(f, turns);
    SolvedTyped(f, s);
    NoneTripsClosed(f, s);
    if AllTrusted(f, s) {
      forall m: Machine | Described(f, s, m) ensures !Trips(f, s, m) { TrustedNeverTrips(f, s, m); }
    }
    if NoneTrips(f, s) {
      forall i: InstId | Executable(f, s, i) ensures Trusted(f, s, i) {
        if !Trusted(f, s, i) { var m := UntrustedTrips(f, s, i); }
      }
    }
  }

  lemma SolvedTyped(f: Function, s: Facts)
    requires Solved(f, s)
    ensures CellsTyped(f, s)
  {
  }
}
