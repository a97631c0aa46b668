/**
 Why constant propagation is only claimed for functions without a shift of a
 known word by a known zero: the rule `x sar 0 = x`
 (crates/codegen/src/optim/sccp_simplify.rs:213-234) against the interpreter
 (crates/ir/src/interpret/arith.rs:132-149), on words of two bits.

   b0:  y = sar 0 3;  return y
 */
module SccpShift {
  import opened Options
  import opened Words
  import opened Ir
  import opened Sccps
  import opened SccpSound
  import opened SccpFold
  import opened SccpSsa
  import opened SccpSafe

  const Y: ValueId := 2
  const THREE := Imm(2, 3)

  function Shifted(): Function {
    Function(
      [], 0,
      map[0 := Immediate(Zero(2)), 1 := Immediate(THREE), Y := Result(0)],
      map[0 := 2, 1 := 2, Y := 2],
      map[0 := Binary(Sar, 0, 1), 1 := Return(Some(Y))],
      map[0 := Y],
      map[0 := [0], 1 := [0], Y := [1]],
      map[0 := [0, 1]],
      map[0 := 0, 1 := 0])
  }

  lemma FourWords()
    ensures Pow2(2) == 4 && Pow2(1) == 2 && WellSized(Zero(2)) && WellSized(THREE) && !KeptByZeroShift(THREE)
  {
    assert Pow2(0) == 1;
  }

  lemma ShiftedInsts(i: InstId)
    ensures i in Shifted().home ==> InstOk(Shifted(), i) && HomeOk(Shifted(), i)
  {
  }

  lemma ShiftedBody(b: BlockId)
    ensures BodyOk(Shifted(), b)
  {
    if b == 0 { assert PlacedAt(Shifted(), 0, 0) && PlacedAt(Shifted(), 0, 1); }
  }

  lemma ShiftedValue(v: ValueId)
    ensures ValueOk(Shifted(), v) && forall i :: i in Shifted().Users(v) ==> i in Shifted().home
  {
    FourWords();
  }

  lemma ShiftedUses(b: BlockId, k: nat)
    ensures k < |Shifted().Body(b)| ==> UsesDefined(Shifted(), b, k)
  {
    var f := Shifted();
    if b == 0 && k == 1 { assert f.Body(0)[..1] == [0] && 0 in f.Body(0)[..1]; }
  }

  lemma ShiftedOnce()
    ensures PlacedOnce(Shifted()) && PhisFit(Shifted()) && (forall i :: i in Shifted().Body(0) ==> !Shifted().At(i).Phi?)
    ensures Shifted().entry == 0 && 0 in Shifted().layout && ArgsOk(Shifted())
  {
  }

  /** The function is in order and in SSA form; only its shift is against the
      condition. */
  lemma ShiftedWellFormed()
    ensures WellFormed(Shifted()) && SsaForm(Shifted()) && NegationsSafe(Shifted())
    ensures forall i: InstId :: i in Shifted().home && i != 0 ==> RuleSafe(Shifted(), i)
    ensures !ShiftSafe(Shifted(), 0)
  {
    hide Shifted, InstOk, HomeOk, BodyOk, ValueOk, UsesDefined, NegationSafe, RuleSafe, ShiftSafe;
    var f := Shifted();
    ShiftedOnce();
    forall i: InstId | i in f.home ensures InstOk(f, i) && HomeOk(f, i) && NegationSafe(f, i) && (i != 0 ==> RuleSafe(f, i)) {
      ShiftedInsts(i);
      ShiftedRules(i);
    }
    forall b: BlockId ensures BodyOk(f, b) { ShiftedBody(b); }
    forall v: ValueId ensures ValueOk(f, v) && forall i :: i in f.Users(v) ==> i in f.home { ShiftedValue(v); }
    forall b: BlockId, k: nat | k < |f.Body(b)| ensures UsesDefined(f, b, k) { ShiftedUses(b, k); }
    ShiftedRules(0);
  }

  lemma ShiftedRules(i: InstId)
    ensures NegationSafe(Shifted(), i) && (i != 0 ==> RuleSafe(Shifted(), i)) && !ShiftSafe(Shifted(), 0)
  {
    FourWords();
  }

  // ----- the solver

  function Final(): Facts { Facts(map[Y := Const(THREE)], map[], {}, {0}, [], [], {}, {}) }

  lemma CopiesThree(f: Function)
    requires f == Shifted()
    ensures Initial(f) == Final().(ssa := [Y], ssaSet := {Y})
  {
    var s := Facts(map[], map[], {}, {0}, [], [], {}, {});
    assert TopArgs(f.args, map[]) == map[];
    assert Simplify(f, s, f.At(0)) == ToCopy(1) && EvalCell(f, s, f.At(0)) == Const(THREE) && !EvalUndef(f, s, f.At(0));
    var t := AfterOne(f, s, 0);
    assert t == Final().(ssa := [Y], ssaSet := {Y});
    assert AfterOne(f, t, 1) == t;
    hide AfterOne;
    assert [0, 1 as InstId][1..] == [1] && [1 as InstId][1..] == [];
    assert AfterAll(f, s, [0, 1]) == AfterAll(f, t, [1]) && AfterAll(f, t, [1]) == AfterAll(f, t, []);
  }

  lemma SolverEndsSoon(f: Function)
    requires f == Shifted()
    ensures Iterate(f, 2) == Config(Final(), true)
  {
    CopiesThree(f);
    var s := Final().(ssa := [Y], ssaSet := {Y});
    assert Iterate(f, 0) == Config(s, false);
    assert Iterate(f, 1) == Config(s, true);
    assert PopSsa(s) == Final();
    assert AfterOne(f, Final(), 1) == Final() && [1 as InstId][1..] == [];
    hide AfterOne, Initial;
    assert AfterUsers(f, Final(), [1]) == AfterUsers(f, Final(), []);
  }

  // ----- the run

  lemma ThreeNegated()
    ensures Apply(Sar, Zero(2), THREE) == Imm(2, 1)
  {
    FourWords();
    ShiftLaws(Zero(2), THREE);
    hide ShiftRight, ShiftLeft;
    assert Signed(THREE) == -1 && (0 - 3) % 4 == 1;
  }

  lemma ReturnsOne(f: Function, world: World)
    requires f == Shifted()
    ensures var m := Run(f, world, Start(f, []), 1);
      && m.Running? && Lookup(f, m.m, Y) == Word(Imm(2, 1))
      && Run(f, world, Start(f, []), 2) == Returned(Word(Imm(2, 1)), [])
  {
    ThreeNegated();
    FourWords();
    hide Apply, WellSized;
    var m := Start(f, []);
    var o := Machine(map[Y := Word(Imm(2, 1))], None, 0, 1, []);
    assert m.locals == map[] && Step(f, world, m) == Running(o);
    assert Step(f, world, o) == Returned(Word(Imm(2, 1)), []);
    hide Step;
    assert Run(f, world, o, 1) == Step(f, world, o);
  }

  /** Whatever the rewriting makes of it returns 3. */
  lemma RewrittenReturnsThree(f: Function, g: Function, h: Function, world: World, j: nat)
    requires f == Shifted() && Rewritten(f, Final(), g, h) && |h.args| == 0
    ensures var o := Run(h, world, Start(h, []), j); o.Returned? ==> o.value == Word(THREE)
  {
    var s := Final();
    assert Folded(f, s, 0) && !Folded(f, s, 1) && Executable(f, s, 1);
    assert f.Body(0) == [0, 1] && Kept(f, s, [0]) == [] by { assert [0 as InstId][..0] == []; }
    assert Kept(f, s, [0, 1]) == [1] by { assert [0, 1 as InstId][..1] == [0]; }
    assert 0 in g.layout && 0 in h.layout && h.Body(0) == [1];
    assert h.At(1) == NewInst(f, g, s, 1) == Return(Some(Y));
    assert h.Data(Y) == NewData(f, s, Y) == Immediate(THREE);
    hide Rewritten, Folded, Kept, NewInst, NewData;
    var m := Start(h, []);
    assert Step(h, world, m) == Returned(Word(THREE), []);
  }

  lemma NotKept(f: Function, g: Function, h: Function)
    requires f == Shifted() && Rewritten(f, Final(), g, h)
    ensures !KeepsMeaning(f, h)
  {
    assert |f.args| == 0 && ActualsTyped(f, []) && WorldTyped(f, Quiet());
    ReturnsOne(f, Quiet());
    hide Rewritten, KeepsMeaning, Run, Quiet, WorldTyped;
    if |h.args| == 0 {
      forall j: nat ensures var p := Run(h, Quiet(), Start(h, []), j); p.Returned? ==> p.value == Word(THREE) {
        RewrittenReturnsThree(f, g, h, Quiet(), j);
      }
    }
    MeaningLost(f, h, [], Quiet(), 2, THREE);
  }

  lemma NoArgs()
    ensures Shifted().args == []
  {
  }

  lemma WrongFacts(f: Function, m: Machine)
    requires f == Shifted()
    ensures Finished(Final()) && SarFails(f, Final(), 0)
    ensures Lookup(f, m, Y) == Word(Imm(2, 1)) ==> !ValueDescribed(f, Final(), m, Y)
  {
    FourWords();
    hide Pow2;
  }

  /** After two turns both worklists are empty and y is recorded as 3; every run
      sets it to 1 and returns that, and no rewriting by those facts keeps the
      meaning. */
  lemma ShiftByZeroIsWrong(world: World, g: Function, h: Function)
    ensures Finished(Iterate(Shifted(), 2).facts) && SarFails(Shifted(), Iterate(Shifted(), 2).facts, 0)
    ensures |Shifted().args| == 0
    ensures var o := Run(Shifted(), world, Start(Shifted(), []), 1);
      o.Running? && !ValueDescribed(Shifted(), Iterate(Shifted(), 2).facts, o.m, Y)
    ensures Run(Shifted(), world, Start(Shifted(), []), 2) == Returned(Word(Imm(2, 1)), [])
    ensures Rewritten(Shifted(), Iterate(Shifted(), 2).facts, g, h) ==> !KeepsMeaning(Shifted(), h)
  {
    var f := Shifted();
    SolverEndsSoon(f);
    ReturnsOne(f, world);
    NoArgs();
    WrongFacts(f, Run(f, world, Start(f, []), 1).m);
    hide Shifted, Final, Iterate, Run, Rewritten, KeepsMeaning, SarFails, ValueDescribed, Finished, Lookup;
    if Rewritten(f, Final(), g, h) { NotKept(f, g, h); }
  }
}
