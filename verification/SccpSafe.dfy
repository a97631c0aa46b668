/**
 Which functions constant propagation handles rightly, told from their code
 (crates/codegen/src/optim/sccp.rs:57-113, sccp_simplify.rs:213-258): in SSA
 form the pass ends, and it keeps the meaning of a function in which no known
 word is shifted arithmetically by a known zero and no negation of a negation is
 negated again.
 */
module SccpSafe {
  import opened Options
  import opened Words
  import opened Ir
  import opened Sccps
  import opened SccpSound
  import opened SccpFold
  import opened SccpSsa
  import opened SccpExact

  // ----- conditions on the code

  /** The solver never takes `v` for a constant. */
  predicate NeverConst(f: Function, v: ValueId) {
    match f.Data(v)
    case Immediate(_) => false
    case Result(j) => f.At(j).Effect?
    case _ => true
  }

  /** Not an arithmetic shift by what may be known to be zero of what may be known
      to be a word that such a shift changes. */
  predicate ShiftSafe(f: Function, i: InstId) {
    match f.At(i)
    case Binary(Sar, bits, value) =>
      || NeverConst(f, bits) || (f.Data(bits).Immediate? && f.Data(bits).imm.bits != 0)
      || NeverConst(f, value) || (f.Data(value).Immediate? && KeptByZeroShift(f.Data(value).imm))
    case _ => true
  }

  /** Not a negation of a negation of a negation, unless that started from a value
      that takes one cell only. */
  ghost predicate NegationSafe(f: Function, i: InstId) {
    IsTwice(f, f.At(i)) ==> Plain(f, Inner(f, f.At(i))) || exists d: nat :: Steady(f, Source(f, f.At(i)), d)
  }

  ghost predicate RuleSafe(f: Function, i: InstId) { ShiftSafe(f, i) && NegationSafe(f, i) }

  ghost predicate RulesSafe(f: Function) {
    forall i {:trigger RuleSafe(f, i)} :: i in f.home ==> RuleSafe(f, i)
  }

  // ----- such functions get facts that can be trusted

  lemma ShiftTrusted(f: Function, s: Facts, i: InstId)
    requires CellsTyped(f, s) && ShiftSafe(f, i)
    ensures !SarFails(f, s, i)
  {
    if f.At(i).Binary? && f.At(i).op == Sar {
      assert CellTyped(f, s, f.At(i).lhs) && CellTyped(f, s, f.At(i).rhs);
    }
  }

  /** The cells of a negation of a plain negation, its operand and its source. */
  lemma MatesAgree(op: UnOp, x: Cell, y: Cell, z: Cell)
    requires op != IsZero && (z.Const? ==> WellSized(z.imm)) && (y.Const? ==> WellSized(y.imm))
    requires x == Flip(op, z) && Leq(x, Flip(op, y)) && Leq(y, z) && !y.Bot?
    ensures y == z == Flip(op, x)
  {
    FlipTwice(op, y);
    FlipTwice(op, z);
    hide ApplyUnary, WellSized;
  }

  lemma NegationTrusted(f: Function, s: Facts, i: InstId)
    requires WellFormed(f) && SsaInv(f, s) && Solved(f, s) && s.ssaSet == {}
    requires Executable(f, s, i) && IsTwice(f, f.At(i)) && f.ResultOf(i).Some? && NegationSafe(f, i)
    ensures Interpreted(f, s, f.At(i)) == CellAt(s, f.ResultOf(i).value)
  {
    hide WellFormed, Walks, Sources, AllClean, ArgsTop, WorkOk, Solved, Done, ReadsKnown, NowCell, Interpreted, Known, Flip, Leq, CellOf, Plain, SimplifyTwice;
    var inst, y := f.At(i), f.ResultOf(i).value;
    var x := inst.arg;
    assert Stage(f, s, {}, i) && Mate(f, s, i);
    DoneParts(f, s, i);
    InstOf(f, i);
    InnerDone(f, s, i, {}, {});
    FlipIs(f, s, inst);
    TwiceParts(f, inst);
    CellOfResult(f, s, x);
    CellOfResult(f, s, y);
    if Plain(f, Inner(f, inst)) {
      InnerUpToDate(f, s, i);
      SourceTyped(f, s, Source(f, inst));
      SourceTyped(f, s, y);
      MatesAgree(inst.unop, CellAt(s, x), CellAt(s, y), CellOf(f, s, Source(f, inst)));
    } else {
      var d: nat :| Steady(f, Source(f, inst), d);
      SteadyTwice(f, i, y, d);
      assert SteadyAt(f, s, x, d + 1) && SteadyAt(f, s, y, d + 2);
      NotBotKnown(f, s, y);
    }
  }

  lemma TwiceParts(f: Function, inst: Inst)
    requires IsTwice(f, inst)
    ensures f.Data(inst.arg) == Result(Inner(f, inst)) && f.At(Inner(f, inst)) == Unary(inst.unop, Source(f, inst)) && inst.unop != IsZero
  {
  }

  lemma SteadyTwice(f: Function, i: InstId, y: ValueId, d: nat)
    requires IsTwice(f, f.At(i)) && f.Data(y) == Result(i) && Steady(f, Source(f, f.At(i)), d)
    ensures var (op, x) := (f.At(i).unop, f.At(i).arg);
      Steady(f, x, d + 1) && Steady(f, y, d + 2) && SteadyCell(f, y, d + 2) == Flip(op, SteadyCell(f, x, d + 1))
  {
    TwiceParts(f, f.At(i));
    hide Flip;
    assert Steady(f, f.At(i).arg, d + 1);
  }

  lemma NotBotKnown(f: Function, s: Facts, v: ValueId)
    requires f.Data(v).Result? && !CellAt(s, v).Bot?
    ensures Known(f, s, v)
  {
  }

  lemma DoneParts(f: Function, s: Facts, i: InstId)
    requires Done(f, s, i) && f.ResultOf(i).Some?
    ensures ReadsKnown(f, s, f.At(i)) && !CellAt(s, f.ResultOf(i).value).Bot?
    ensures IsTwice(f, f.At(i)) ==> Leq(CellAt(s, f.ResultOf(i).value), CellOf(f, s, Source(f, f.At(i))))
  {
    hide CellOf;
  }

  lemma InnerUpToDate(f: Function, s: Facts, i: InstId)
    requires Solved(f, s) && IsTwice(f, f.At(i)) && Plain(f, Inner(f, f.At(i))) && Executable(f, s, Inner(f, f.At(i)))
    requires f.ResultOf(Inner(f, f.At(i))) == Some(f.At(i).arg)
    ensures CellAt(s, f.At(i).arg) == Flip(f.At(i).unop, CellOf(f, s, Source(f, f.At(i))))
  {
    var j := Inner(f, f.At(i));
    assert UpToDate(f, s, j);
    FlipIs(f, s, f.At(j));
    hide CellOf, Interpreted, Flip;
  }

  /** In SSA form the final facts of a function with safe rules can be trusted. */
  lemma SafeTrusted(f: Function, n: nat)
    requires WellFormed(f) && SsaForm(f) && RulesSafe(f) && Finished(Iterate(f, n).facts)
    ensures AllTrusted(f, Iterate(f, n).facts)
  {
    hide WellFormed, SsaForm, Iterate, SarFails, IsTwice, Interpreted, NegationSafe, ShiftSafe, SsaInv, Solved, Rises;
    var s := Iterate(f, n).facts;
    SolvedWhenFinished(f, n);
    TurnsRise(f, n);
    WorklistsEmpty(f, s);
    forall i: InstId | Executable(f, s, i) ensures Trusted(f, s, i) {
      assert RuleSafe(f, i);
      ShiftTrusted(f, s, i);
      if IsTwice(f, f.At(i)) && f.ResultOf(i).Some? { NegationTrusted(f, s, i); }
    }
  }

  lemma WorklistsEmpty(f: Function, s: Facts)
    requires SsaInv(f, s) && Finished(s) && Solved(f, s)
    ensures s.ssaSet == {} && CellsTyped(f, s)
  {
  }

  // ----- exactly when arithmetic shifts do no harm

  /** The next instruction shifts a word by zero and changes it, where the facts
      have the word and the zero. */
  predicate ShiftsWrong(f: Function, s: Facts, m: Machine) {
    m.at < |f.Body(m.block)| &&
    var i := f.Body(m.block)[m.at];
    f.At(i).Binary? && f.ResultOf(i).Some? && SarFails(f, s, i) && Lookup(f, m, f.At(i).lhs).Word? && Lookup(f, m, f.At(i).rhs).Word?
  }

  predicate ShiftsWrongAfter(f: Function, s: Facts, world: World, m: Machine, j: nat) {
    var o := Run(f, world, m, j); o.Running? && ShiftsWrong(f, s, o.m)
  }

  ghost predicate NeverShiftsWrong(f: Function, s: Facts, world: World, m: Machine, k: nat) {
    forall j: nat {:trigger ShiftsWrongAfter(f, s, world, m, j)} :: j < k ==> !ShiftsWrongAfter(f, s, world, m, j)
  }

  ghost predicate NegationsSafe(f: Function) {
    forall i {:trigger NegationSafe(f, i)} :: i in f.home ==> NegationSafe(f, i)
  }

  /** Only a wrong shift makes a run trip. */
  lemma TripIsShift(f: Function, s: Facts, m: Machine)
    requires WellFormed(f) && SsaInv(f, s) && Solved(f, s) && s.ssaSet == {} && NegationsSafe(f) && Described(f, s, m)
    ensures Trips(f, s, m) <==> ShiftsWrong(f, s, m)
  {
    hide WellFormed, SsaInv, Solved, SarFails, IsTwice, NegationSafe, Interpreted, ApplyUnary;
    if m.at < |f.Body(m.block)| {
      var i := f.Body(m.block)[m.at];
      PlacedOf(f, m.block, i);
      var inst := f.At(i);
      if inst.Unary? && IsTwice(f, inst) && f.ResultOf(i).Some? {
        assert NegationSafe(f, i) && Executable(f, s, i);
        NegationTrusted(f, s, i);
        NegationHolds(f, s, m, i);
      }
    }
  }

  lemma NegationHolds(f: Function, s: Facts, m: Machine, i: InstId)
    requires f.At(i).Unary? && f.ResultOf(i).Some? && Interpreted(f, s, f.At(i)) == CellAt(s, f.ResultOf(i).value) && Described(f, s, m)
    ensures !TripsAt(f, s, m, i)
  {
    hide Interpreted, ApplyUnary, IsTwice, SarFails;
    var inst, val := f.At(i), Values(f, m);
    assert ValueDescribed(f, s, m, inst.arg) && val(inst.arg) == Lookup(f, m, inst.arg);
    if val(inst.arg).Word? && WellSized(val(inst.arg).imm) { InterpretedSound(f, s, m, inst); }
  }

  lemma {:induction false} NoShiftNoTrip(f: Function, s: Facts, world: World, m: Machine, k: nat)
    requires WellFormed(f) && SsaInv(f, s) && Solved(f, s) && s.ssaSet == {} && NegationsSafe(f)
    requires WorldTyped(f, world) && Described(f, s, m) && NeverShiftsWrong(f, s, world, m, k)
    ensures NeverTrips(f, s, world, m, k)
    decreases k
  {
    hide WellFormed, SsaInv, Solved, NegationsSafe, WorldTyped, Described, Trips, ShiftsWrong, Run;
    NoTripYet(f, s, world, m);
    if k > 0 {
      NoShiftNoTrip(f, s, world, m, k - 1);
      RunDescribed(f, s, world, m, k - 1);
      assert !ShiftsWrongAfter(f, s, world, m, k - 1);
      var o := Run(f, world, m, k - 1);
      if o.Running? { TripIsShift(f, s, o.m); }
    }
  }

  /** In SSA form and with safe negations, the facts the solver ends with describe
      a run for exactly as long as it does not execute a wrong shift. */
  lemma DescribedUnlessShifted(f: Function, actuals: seq<EvalValue>, world: World, k: nat)
    requires WellFormed(f) && SsaForm(f) && NegationsSafe(f) && ActualsTyped(f, actuals) && WorldTyped(f, world)
    ensures var s := Iterate(f, Bound(f)).facts;
      AllDescribed(f, s, world, Start(f, actuals), k) <==> NeverShiftsWrong(f, s, world, Start(f, actuals), k)
  {
    assert |actuals| == |f.args|;
    hide WellFormed, SsaForm, SsaInv, Solved, NegationsSafe, Iterate, Finished, Described, WorldTyped, ActualsTyped, Bound, AllDescribed, NeverTrips, Rises, Run;
    var s, m := Iterate(f, Bound(f)).facts, Start(f, actuals);
    SolverEnds(f);
    SolvedWhenFinished(f, Bound(f));
    TurnsRise(f, Bound(f));
    WorklistsEmpty(f, s);
    StartDescribed(f, s, actuals);
    RunDescribedExactly(f, Bound(f), actuals, world, k);
    if NeverShiftsWrong(f, s, world, m, k) { NoShiftNoTrip(f, s, world, m, k); }
    if NeverTrips(f, s, world, m, k) {
      forall j: nat | j < k ensures !ShiftsWrongAfter(f, s, world, m, j) { ShiftTrips(f, s, world, m, j, k); }
    }
  }

  lemma ShiftTrips(f: Function, s: Facts, world: World, m: Machine, j: nat, k: nat)
    requires NeverTrips(f, s, world, m, k) && j < k
    ensures !ShiftsWrongAfter(f, s, world, m, j)
  {
    assert !TripsAfter(f, s, world, m, j);
    hide SarFails, IsTwice, Run;
  }

  // ----- the pass on functions in SSA form

  /** The facts the solver ends with describe every state of every run. */
  lemma SafeRunsDescribed(f: Function, actuals: seq<EvalValue>, world: World, k: nat)
    requires WellFormed(f) && SsaForm(f) && RulesSafe(f) && ActualsTyped(f, actuals) && WorldTyped(f, world)
    ensures Finished(Iterate(f, Bound(f)).facts)
    ensures var o := Run(f, world, Start(f, actuals), k); o.Running? ==> Described(f, Iterate(f, Bound(f)).facts, o.m)
  {
    assert |actuals| == |f.args|;
    hide WellFormed, SsaForm, RulesSafe, Iterate, Finished, AllTrusted, Run, Described, WorldTyped, ActualsTyped, Bound;
    SolverEnds(f);
    SafeTrusted(f, Bound(f));
    EveryRunDescribed(f, Bound(f), actuals, world, k);
  }

  /** Constant propagation of a function in SSA form: it needs no cut-off, and
      keeps the meaning of every function with safe rules. */
  method PropagateSsa(f: Function) returns (h: Function)
    requires WellFormed(f) && SsaForm(f)
    ensures exists turns: nat {:trigger Propagated(f, h, turns)} :: turns <= Bound(f) && Propagated(f, h, turns)
    ensures RulesSafe(f) ==> KeepsMeaning(f, h)
    ensures AllReached(h)
  {
    SsaOnce(f);
    hide WellFormed, SsaForm, RulesSafe, Iterate, Finished, AllTrusted, KeepsMeaning, Rewritten, Bound, Tidy, AllReached;
    SolverEnds(f);
    var done;
    done, h := PropagateConstants(f, Bound(f));
    ghost var turns: nat :| turns <= Bound(f) && Propagated(f, h, turns);
    NothingUnreachable(f, turns, h);
    if RulesSafe(f) { SafeTrusted(f, turns); }
  }

  lemma SsaOnce(f: Function)
    requires SsaForm(f)
    ensures PlacedOnce(f)
  {
  }
}
