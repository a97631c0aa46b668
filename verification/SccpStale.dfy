/**
 Why constant propagation is only claimed for functions without a negation of a
 negation of a negation: a function on which the solver of
 crates/codegen/src/optim/sccp.rs finishes with a constant that a run
 contradicts.  The rules of crates/codegen/src/optim/sccp_simplify.rs:236-258
 read a value that is no operand of the instruction, so nothing asks for a second
 look when it changes.

   b0:  jump b1
   b1:  u = phi (0, b0) (1, b1);  e = effect;  z = not u;  br e b1 b2
   b2:  y = not z;  x = not y;  return x
 */
module SccpStale {
  import opened Options
  import opened Words
  import opened Ir
  import opened Sccps
  import opened SccpSound
  import opened SccpFold
  import opened SccpSsa
  import opened SccpSafe
  import Graphs

  const U: ValueId := 2
  const E: ValueId := 3
  const Z: ValueId := 4
  const Y: ValueId := 5
  const X: ValueId := 6

  const LOW := Imm(1, 0)
  const HIGH := Imm(1, 1)

  function Loop(): Function {
    Function(
      [], 0,
      map[0 := Immediate(LOW), 1 := Immediate(HIGH), U := Result(1), E := Result(2), Z := Result(3), Y := Result(5), X := Result(6)],
      map[],
      map[0 := Jump(1),
          1 := Phi([(0, 0), (1, 1)]), 2 := Effect(0, []), 3 := Unary(Not, U), 4 := Br(E, 1, 2),
          5 := Unary(Not, Z), 6 := Unary(Not, Y), 7 := Return(Some(X))],
      map[1 := U, 2 := E, 3 := Z, 5 := Y, 6 := X],
      map[0 := [1], 1 := [1], U := [3], E := [4], Z := [5], Y := [6], X := [7]],
      map[0 := [0], 1 := [1, 2, 3, 4], 2 := [5, 6, 7]],
      map[0 := 0, 1 := 1, 2 := 1, 3 := 1, 4 := 1, 5 := 2, 6 := 2, 7 := 2])
  }

  ghost predicate Blocks(f: Function) {
    && f.args == [] && f.entry == 0
    && f.Body(0) == [0] && f.Body(1) == [1, 2, 3, 4] && f.Body(2) == [5, 6, 7]
    && f.LastInst(0) == Some(0) && f.LastInst(1) == Some(4)
    && 0 in f.layout && 1 in f.layout && 2 in f.layout
  }

  ghost predicate Insts(f: Function) {
    && f.At(0) == Jump(1) && f.At(1) == Phi([(0, 0), (1, 1)]) && f.At(2) == Effect(0, []) && f.At(3) == Unary(Not, U)
    && f.At(4) == Br(E, 1, 2) && f.At(5) == Unary(Not, Z) && f.At(6) == Unary(Not, Y) && f.At(7) == Return(Some(X))
    && f.ResultOf(0) == None && f.ResultOf(1) == Some(U) && f.ResultOf(2) == Some(E) && f.ResultOf(3) == Some(Z)
    && f.ResultOf(4) == None && f.ResultOf(5) == Some(Y) && f.ResultOf(6) == Some(X) && f.ResultOf(7) == None
  }

  ghost predicate Data(f: Function) {
    && f.Data(0) == Immediate(LOW) && f.Data(1) == Immediate(HIGH) && f.Data(U) == Result(1) && f.Data(E) == Result(2)
    && f.Data(Z) == Result(3) && f.Data(Y) == Result(5) && f.Data(X) == Result(6)
    && f.Users(U) == [3] && f.Users(E) == [4] && f.Users(Z) == [5] && f.Users(Y) == [6] && f.Users(X) == [7]
    && Home(f, 1) == 1 && Home(f, 3) == 1 && Home(f, 4) == 1 && Home(f, 5) == 2 && Home(f, 6) == 2 && Home(f, 7) == 2
  }

  ghost predicate Shape(f: Function) { Blocks(f) && Insts(f) && Data(f) }

  lemma LoopBlocks()
    ensures Blocks(Loop())
  {
  }

  lemma LoopInsts()
    ensures Insts(Loop())
  {
  }

  lemma LoopData()
    ensures Data(Loop())
  {
  }

  lemma LoopShape()
    ensures Shape(Loop())
  {
    hide Loop, Blocks, Insts, Data;
    LoopBlocks();
    LoopInsts();
    LoopData();
  }

  ghost predicate Rest(f: Function) {
    && f.types == map[] && f.Users(0) == [1] && f.Users(1) == [1]
    && f.home == map[0 := 0, 1 := 1, 2 := 1, 3 := 1, 4 := 1, 5 := 2, 6 := 2, 7 := 2]
    && f.layout == map[0 := [0], 1 := [1, 2, 3, 4], 2 := [5, 6, 7]]
  }

  lemma InstShape(f: Function, i: InstId)
    requires Shape(f) && Rest(f) && i <= 7
    ensures InstOk(f, i)
  {
    if i == 1 {
      var args: seq<(ValueId, BlockId)> := [(0, 0), (1, 1)];
      assert First(args) == [0] + First(args[1..]) && args[1..] == [(1, 1)];
    }
  }

  lemma BodyShape(f: Function, b: BlockId)
    requires Shape(f) && Rest(f)
    ensures BodyOk(f, b)
  {
    if b == 0 { assert PlacedAt(f, 0, 0); }
    if b == 1 { assert PlacedAt(f, 1, 1) && PlacedAt(f, 1, 2) && PlacedAt(f, 1, 3) && PlacedAt(f, 1, 4); }
    if b == 2 { assert PlacedAt(f, 2, 5) && PlacedAt(f, 2, 6) && PlacedAt(f, 2, 7); }
  }

  lemma PlaceShape(f: Function)
    requires Shape(f) && Rest(f)
    ensures (forall b {:trigger BodyOk(f, b)} :: BodyOk(f, b)) && (forall i {:trigger HomeOk(f, i)} :: i in f.home ==> HomeOk(f, i))
    ensures forall i :: i in f.home ==> i <= 7
  {
    hide Shape;
    forall i: InstId | i in f.home ensures HomeOk(f, i) {}
    hide Rest, BodyOk;
    forall b: BlockId ensures BodyOk(f, b) { BodyShape(f, b); }
  }

  lemma ValueShape(v: ValueId)
    ensures ValueOk(Loop(), v) && forall i :: i in Loop().Users(v) ==> i <= 7
  {
    assert Pow2(1) == 2;
  }

  /** The function is in order and in SSA form; only the last of its three
      negations is against the conditions. */
  lemma LoopWellFormed()
    ensures WellFormed(Loop()) && SsaForm(Loop())
    ensures forall i: InstId :: i in Loop().home && i != 6 ==> RuleSafe(Loop(), i)
    ensures ShiftSafe(Loop(), 6) && !NegationSafe(Loop(), 6)
  {
    hide Loop, Shape, Rest, InstOk, ValueOk, BodyOk, HomeOk, ShiftSafe, NegationSafe, RuleSafe, UsesDefined, PhiFits;
    var f := Loop();
    LoopShape();
    LoopRest();
    PlaceShape(f);
    HomeShape(f);
    forall i: InstId | i in f.home ensures InstOk(f, i) && (i != 6 ==> RuleSafe(f, i)) {
      InstShape(f, i);
      RuleShape(f, i);
    }
    RuleShape(f, 6);
    OnceShape(f);
    forall i: InstId | i in f.home && f.At(i).Phi? ensures PhiFits(f, f.home[i], f.At(i).args) { PhiShape(f, i); }
    forall b: BlockId, k: nat | k < |f.Body(b)| ensures UsesDefined(f, b, k) { UsesShape(f, b, k); }
    forall v: ValueId ensures ValueOk(f, v) && forall i :: i in f.Users(v) ==> i in f.home { ValueShape(v); }
  }

  lemma LoopRest()
    ensures Rest(Loop())
  {
  }

  lemma HomeShape(f: Function)
    requires Shape(f) && Rest(f)
    ensures f.entry in f.layout && ArgsOk(f) && forall i: InstId :: i in f.home <==> i <= 7
  {
  }

  lemma RuleShape(f: Function, i: InstId)
    requires Shape(f) && Rest(f) && i <= 7
    ensures i != 6 ==> RuleSafe(f, i)
    ensures i == 6 ==> ShiftSafe(f, 6) && !NegationSafe(f, 6)
  {
    Places(f);
    Definitions(f);
    hide Shape, Rest;
    assert forall d: nat :: !Steady(f, U, d);
    assert forall d: nat :: !Steady(f, Z, d);
  }

  lemma Definitions(f: Function)
    requires Shape(f)
    ensures f.Data(U) == Result(1) && f.Data(E) == Result(2) && f.Data(Z) == Result(3) && f.Data(Y) == Result(5) && f.Data(X) == Result(6)
    ensures f.Data(0).Immediate? && f.Data(1).Immediate?
  {
  }

  lemma OnceShape(f: Function)
    requires Shape(f) && Rest(f)
    ensures PlacedOnce(f) && forall i :: i in f.Body(f.entry) ==> !f.At(i).Phi?
  {
  }

  lemma EdgeShape(f: Function, b: BlockId, d: BlockId)
    requires Shape(f) && Rest(f)
    ensures HasEdge(f, b, d) <==> (b == 0 && d == 1) || (b == 1 && (d == 1 || d == 2))
  {
  }

  lemma PhiShape(f: Function, i: InstId)
    requires Shape(f) && Rest(f) && i in f.home && f.At(i).Phi?
    ensures PhiFits(f, f.home[i], f.At(i).args)
  {
    var args: seq<(ValueId, BlockId)> := [(0, 0), (1, 1)];
    assert i == 1 && f.home[i] == 1 && f.At(i).args == args;
    assert args[1..] == [(1, 1)] && args[1..][1..] == [];
    assert Second(args) == [0, 1];
    hide Shape, Rest, HasEdge;
    forall p: BlockId ensures p in Second(args) <==> HasEdge(f, p, 1) { EdgeShape(f, p, 1); }
  }

  /** Every way to b2 leads over b1. */
  lemma MiddleDominates(f: Function)
    requires Shape(f) && Rest(f)
    ensures Dominates(f, 1, 2)
  {
    var a := Graph(f);
    assert f.entry == 0;
    forall d ensures Graphs.Edge(a, 0, d) ==> d == 1 { EdgeShape(f, 0, d); }
    hide Shape, Rest, Graph, Graphs.Path, Graphs.Edge;
    forall p | Graphs.Path(a, 0, p, 2) ensures 1 in p {
      var x, y, px, py := Graphs.PathCrossing(a, {0}, 0, p, 2);
    }
  }

  lemma UsesShape(f: Function, b: BlockId, k: nat)
    requires Shape(f) && Rest(f) && k < |f.Body(b)|
    ensures UsesDefined(f, b, k)
  {
    BodiesAre(f, b);
    Places(f);
    Definitions(f);
    hide Shape, Rest, UsesDefined;
    if b == 0 { FirstUses(f, k); } else if b == 1 { MiddleUses(f, k); } else { LastUses(f, k); }
  }

  lemma FirstUses(f: Function, k: nat)
    requires k < |f.Body(0)| && f.Body(0) == [0] && Here(f, 0, 0, 0, Jump(1), None)
    ensures UsesDefined(f, 0, k)
  {
  }

  lemma MiddleUses(f: Function, k: nat)
    requires Shape(f) && Rest(f) && k < |f.Body(1)|
    ensures UsesDefined(f, 1, k)
  {
    BodiesAre(f, 1);
    Places(f);
    Definitions(f);
    hide Shape, Rest, Dominates;
    if k == 2 { assert f.Body(1)[..2][0] == 1; }
    if k == 3 { assert f.Body(1)[..3][1] == 2; }
  }

  lemma LastUses(f: Function, k: nat)
    requires Shape(f) && Rest(f) && k < |f.Body(2)|
    ensures UsesDefined(f, 2, k)
  {
    BodiesAre(f, 2);
    Places(f);
    Definitions(f);
    MiddleDominates(f);
    hide Shape, Rest, Dominates;
    if k == 1 { assert f.Body(2)[..1][0] == 5; }
    if k == 2 { assert f.Body(2)[..2][1] == 6; }
  }

  lemma BodiesAre(f: Function, b: BlockId)
    requires Shape(f) && Rest(f)
    ensures f.Body(0) == [0] && f.Body(1) == [1, 2, 3, 4] && f.Body(2) == [5, 6, 7] && (b > 2 ==> f.Body(b) == [])
    ensures 3 in f.home && f.home[3] == 1
  {
  }

  lemma NotBit()
    ensures WellSized(LOW) && WellSized(HIGH) && ApplyUnary(Not, LOW) == HIGH && ApplyUnary(Not, HIGH) == LOW
  {
    assert Pow2(1) == 2;
  }

  // ----- the run

  function Answers(): World {
    (i: InstId, k: nat) => Answer(k)
  }

  function Answer(k: nat): EvalValue { if k == 0 then Word(HIGH) else Word(LOW) }

  /** The instruction at place `k` of block `b`. */
  predicate Here(f: Function, b: BlockId, k: nat, i: InstId, inst: Inst, r: Option<ValueId>) {
    k < |f.Body(b)| && f.Body(b)[k] == i && f.At(i) == inst && f.ResultOf(i) == r
  }

  lemma Places(f: Function)
    requires Shape(f)
    ensures Here(f, 0, 0, 0, Jump(1), None) && Here(f, 1, 0, 1, Phi([(0, 0), (1, 1)]), Some(U)) && Here(f, 1, 1, 2, Effect(0, []), Some(E))
    ensures Here(f, 1, 2, 3, Unary(Not, U), Some(Z)) && Here(f, 1, 3, 4, Br(E, 1, 2), None)
    ensures Here(f, 2, 0, 5, Unary(Not, Z), Some(Y)) && Here(f, 2, 1, 6, Unary(Not, Y), Some(X)) && Here(f, 2, 2, 7, Return(Some(X)), None)
  {
  }

  lemma Constants(f: Function)
    requires Shape(f)
    ensures f.Data(0) == Immediate(LOW) && f.Data(1) == Immediate(HIGH)
    ensures forall v: ValueId :: v == U || v == E || v == Z || v == Y || v == X ==> !f.Data(v).Immediate?
  {
  }

  lemma StepPhi(f: Function, m: Machine)
    requires Shape(f) && m.block == 1 && m.at == 0 && (m.prev == Some(0) || m.prev == Some(1))
    ensures Step(f, Answers(), m) == Running(m.(at := 1, locals := m.locals[U := Word(if m.prev == Some(0) then LOW else HIGH)]))
  {
    hide Shape, Incoming, Evaluable;
    Places(f);
    Constants(f);
    IncomingHere(Values(f, m), m.prev.value);
    assert m.events + [] == m.events;
  }

  lemma IncomingHere(val: Valuation, prev: BlockId)
    requires prev <= 1
    ensures Incoming(val, [(0, 0), (1, 1)], prev) == val(prev)
  {
    assert [(0, 0), (1, 1)][1..] == [(1, 1)];
  }

  lemma StepRest(f: Function, m: Machine)
    requires Shape(f) && m.block == 1 && Local(m, U).Word? && WellSized(Local(m, U).imm)
    ensures m.at == 1 ==> Step(f, Answers(), m) == Running(m.(at := 2, locals := m.locals[E := Answers()(2, |m.events|)], events := m.events + [Event(2, [])]))
    ensures m.at == 2 ==> Step(f, Answers(), m) == Running(m.(at := 3, locals := m.locals[Z := Word(ApplyUnary(Not, Local(m, U).imm))]))
    ensures m.at == 3 && Local(m, E).Word? ==> Step(f, Answers(), m) == Running(JumpTo(m, if Local(m, E).imm.bits == 0 then 2 else 1))
  {
    hide Shape, Incoming, ApplyUnary, WellSized;
    Places(f);
    Constants(f);
    assert m.events + [] == m.events;
  }

  lemma StepLast(f: Function, m: Machine)
    requires Shape(f) && m.block == 2
    ensures m.at == 0 && Local(m, Z).Word? && WellSized(Local(m, Z).imm) ==> Step(f, Answers(), m) == Running(m.(at := 1, locals := m.locals[Y := Word(ApplyUnary(Not, Local(m, Z).imm))]))
    ensures m.at == 1 && Local(m, Y).Word? && WellSized(Local(m, Y).imm) ==> Step(f, Answers(), m) == Running(m.(at := 2, locals := m.locals[X := Word(ApplyUnary(Not, Local(m, Y).imm))]))
  {
    hide Shape, Incoming, ApplyUnary, WellSized;
    Places(f);
    Constants(f);
    assert m.events + [] == m.events;
  }

  /** One round through b1, which decides `u` by where it comes from. */
  lemma Round(f: Function, m: Machine, u: Imm, answer: Imm)
    requires Shape(f) && m.block == 1 && m.at == 0
    requires (m.prev == Some(0) && u == LOW) || (m.prev == Some(1) && u == HIGH)
    requires Answers()(2, |m.events|) == Word(answer) && (answer == LOW || answer == HIGH)
    ensures var n := Run(f, Answers(), m, 4);
      && n.Running? && n.m.prev == Some(1) && n.m.at == 0 && n.m.block == (if answer == LOW then 2 else 1)
      && Local(n.m, U) == Word(u) && Local(n.m, Z) == Word(Imm(1, 1 - u.bits)) && n.m.events == m.events + [Event(2, [])]
  {
    hide Shape, Step, Answers, Run, ApplyUnary, WellSized;
    NotBit();
    StepPhi(f, m);
    var a := Step(f, Answers(), m).m;
    assert Local(a, U) == Word(u);
    StepRest(f, a);
    var b := Step(f, Answers(), a).m;
    assert Local(b, U) == Word(u) && Local(b, E) == Word(answer);
    StepRest(f, b);
    var c := Step(f, Answers(), b).m;
    assert Local(c, U) == Word(u) && Local(c, E) == Word(answer) && Local(c, Z) == Word(ApplyUnary(Not, u));
    StepRest(f, c);
    RunFour(f, Answers(), m);
  }

  lemma RunFour(f: Function, world: World, m: Machine)
    requires var o := Step(f, world, m); o.Running? && var p := Step(f, world, o.m); p.Running? && Step(f, world, p.m).Running?
    ensures Run(f, world, m, 4) == Step(f, world, Step(f, world, Step(f, world, Step(f, world, m).m).m).m)
  {
    hide Step;
    var a := Step(f, world, m).m;
    var b := Step(f, world, a).m;
    var c := Step(f, world, b).m;
    assert Run(f, world, c, 1) == Step(f, world, c);
    assert Run(f, world, b, 2) == Run(f, world, c, 1);
    assert Run(f, world, a, 3) == Run(f, world, b, 2);
  }

  lemma Enter(f: Function)
    requires Shape(f)
    ensures Run(f, Answers(), Start(f, []), 1) == Running(Machine(map[], Some(0), 1, 0, []))
  {
    var m := Machine(map[], None, 0, 0, []);
    assert Start(f, []) == m;
    assert Step(f, Answers(), m) == Running(JumpTo(m, 1));
  }

  lemma Leave(f: Function, c: Machine)
    requires Shape(f) && c.block == 2 && c.at == 0 && Local(c, Z) == Word(LOW)
    ensures var o := Run(f, Answers(), c, 2); o.Running? && o.m.block == 2 && o.m.at == 2 && Local(o.m, X) == Word(LOW)
  {
    hide Shape, Step, ApplyUnary, WellSized;
    NotBit();
    StepLast(f, c);
    var d := c.(at := 1, locals := c.locals[Y := Word(HIGH)]);
    StepLast(f, d);
    assert Run(f, Answers(), d, 1) == Step(f, Answers(), d);
  }

  /** Two rounds, then b2: x is what z was the second time round. */
  lemma RunEnds(f: Function)
    requires Shape(f)
    ensures var o := Run(f, Answers(), Start(f, []), 11);
      o.Running? && o.m.block == 2 && o.m.at == 2 && Local(o.m, X) == Word(LOW)
  {
    assert f.args == [];
    hide Run, Shape;
    var m := Start(f, []);
    Enter(f);
    var a := Run(f, Answers(), m, 1).m;
    Round(f, a, LOW, HIGH);
    var b := Run(f, Answers(), a, 4).m;
    Round(f, b, HIGH, LOW);
    var c := Run(f, Answers(), b, 4).m;
    Leave(f, c);
    RunSplit(f, Answers(), m, 1, 4);
    RunSplit(f, Answers(), m, 5, 4);
    RunSplit(f, Answers(), m, 9, 2);
  }

  // ----- the solver

  const IN := FlowEdge(0, 1)
  const BACK := FlowEdge(4, 1)
  const OUT := FlowEdge(4, 2)

  lemma EvalPhiHere(f: Function, s: Facts)
    requires Shape(f) && s.mayBeUndef == map[] && IN in s.edges
    ensures AfterOne(f, s, 1) == SetCell(s, U, if BACK in s.edges then Top else Const(LOW))
  {
    var args: seq<(ValueId, BlockId)> := [(0, 0), (1, 1)];
    assert f.At(1) == Phi(args) && f.ResultOf(1) == Some(U) && Home(f, 1) == 1;
    assert SetCell(s, U, PhiCell(f, s, 1)).mayBeUndef == map[];
    hide SetCell;
    assert args[1..] == [(1, 1)] && args[1..][1..] == [];
    assert IsReachable(f, s, 0, 1) && (IsReachable(f, s, 1, 1) <==> BACK in s.edges);
    assert CellOf(f, s, 0) == Const(LOW) && CellOf(f, s, 1) == Const(HIGH);
    hide Shape, IsReachable, CellOf;
    assert JoinArgs(f, s, 1, args, Bot) == JoinArgs(f, s, 1, args[1..], Const(LOW));
    assert JoinArgs(f, s, 1, args[1..], Const(LOW)) == if BACK in s.edges then Top else Const(LOW);
    assert !MayBeUndef(f, s, 0) && !MayBeUndef(f, s, 1);
    assert UndefArgs(f, s, 1, args, false) == UndefArgs(f, s, 1, args[1..], false) == false;
  }

  lemma EvalOthersHere(f: Function, s: Facts)
    requires Shape(f) && s.mayBeUndef == map[]
    ensures AfterOne(f, s, 0) == PushFlow(s, IN)
    ensures AfterOne(f, s, 2) == SetCell(s, E, Top)
    ensures CellAt(s, E) == Top ==> AfterOne(f, s, 4) == PushFlow(PushFlow(s, OUT), BACK)
    ensures AfterOne(f, s, 7) == s
  {
    hide Shape, PushFlow, SetCell;
    Places(f);
    Constants(f);
    assert PushAll(s, 0, [1]) == PushFlow(s, IN) by { assert [1][1..] == []; }
    PushTwo(s, 4, 2, 1);
  }

  lemma EvalNotsHere(f: Function, s: Facts)
    requires Shape(f) && s.mayBeUndef == map[]
    ensures CellAt(s, U) == Const(LOW) ==> AfterOne(f, s, 3) == SetCell(s, Z, Const(HIGH))
    ensures CellAt(s, U) == Top ==> AfterOne(f, s, 3) == SetCell(s, Z, Top)
    ensures AfterOne(f, s, 5) == SetCell(s, Y, CellAt(s, U))
    ensures AfterOne(f, s, 6) == SetCell(s, X, CellAt(s, Z))
  {
    hide Shape, AfterOne, SetCell;
    EvalFirstNot(f, s);
    EvalLaterNots(f, s);
  }

  lemma EvalFirstNot(f: Function, s: Facts)
    requires Shape(f) && s.mayBeUndef == map[]
    ensures CellAt(s, U) == Const(LOW) ==> AfterOne(f, s, 3) == SetCell(s, Z, Const(HIGH))
    ensures CellAt(s, U) == Top ==> AfterOne(f, s, 3) == SetCell(s, Z, Top)
  {
    NotBit();
    hide ApplyUnary, WellSized;
    assert AnyUndef(f, s, [U]) == false;
    assert Simplify(f, s, f.At(3)) == NoChange && CellOf(f, s, U) == CellAt(s, U);
    if CellAt(s, U) == Top {
      assert U in Operands(f.At(3)) && CellOf(f, s, U).Top?;
    }
  }

  lemma EvalLaterNots(f: Function, s: Facts)
    requires Shape(f) && s.mayBeUndef == map[]
    ensures AfterOne(f, s, 5) == SetCell(s, Y, CellAt(s, U))
    ensures AfterOne(f, s, 6) == SetCell(s, X, CellAt(s, Z))
  {
    assert Simplify(f, s, f.At(5)) == ToCopy(U) && Simplify(f, s, f.At(6)) == ToCopy(Z);
    assert CellOf(f, s, U) == CellAt(s, U) && CellOf(f, s, Z) == CellAt(s, Z);
    hide Interpreted, Simplify, Pow2;
  }

  lemma LateClear(z: Cell, ssa: seq<ValueId>)
    ensures Late(z, ssa).mayBeUndef == map[]
  {
  }

  /** The facts with everything found executable and `ssa` waiting. */
  function Late(z: Cell, ssa: seq<ValueId>): Facts {
    Facts(map[U := Top, E := Top, Z := z, Y := Top, X := Const(HIGH)], map[], {IN, BACK, OUT}, {0, 1, 2},
          [], ssa, {}, set v | v in ssa)
  }

  function Early(edges: set<FlowEdge>, u: Cell, flow: seq<FlowEdge>): Facts {
    Facts(map[U := u, E := Top, Z := Const(HIGH)], map[], edges, {0, 1}, flow, [U, E, Z], set e | e in flow, {U, E, Z})
  }

  lemma Turn0(f: Function)
    requires Shape(f)
    ensures Initial(f) == Facts(map[], map[], {}, {0}, [IN], [], {IN}, {})
  {
    var s := Facts(map[], map[], {}, {0}, [], [], {}, {});
    EvalOthersHere(f, s);
    assert AfterAll(f, s, [0]) == AfterOne(f, s, 0) by { assert [0 as InstId][1..] == []; }
    assert TopArgs(f.args, map[]) == map[];
  }

  lemma FirstCells()
    ensures SetCell(Facts(map[], map[], {IN}, {0, 1}, [], [], {}, {}), U, Const(LOW)) ==
            Facts(map[U := Const(LOW)], map[], {IN}, {0, 1}, [], [U], {}, {U})
    ensures SetCell(Facts(map[U := Const(LOW)], map[], {IN}, {0, 1}, [], [U], {}, {U}), E, Top) ==
            Facts(map[U := Const(LOW), E := Top], map[], {IN}, {0, 1}, [], [U, E], {}, {U, E})
    ensures SetCell(Facts(map[U := Const(LOW), E := Top], map[], {IN}, {0, 1}, [], [U, E], {}, {U, E}), Z, Const(HIGH)) ==
            Early({IN}, Const(LOW), [])
    ensures PushFlow(PushFlow(Early({IN}, Const(LOW), []), OUT), BACK) == Early({IN}, Const(LOW), [OUT, BACK])
  {
  }

  lemma FirstVisit(f: Function)
    requires Shape(f)
    ensures AfterAll(f, Facts(map[], map[], {IN}, {0, 1}, [], [], {}, {}), [1, 2, 3, 4]) == Early({IN}, Const(LOW), [OUT, BACK])
  {
    var s := Facts(map[], map[], {IN}, {0, 1}, [], [], {}, {});
    var a := Facts(map[U := Const(LOW)], map[], {IN}, {0, 1}, [], [U], {}, {U});
    var b := Facts(map[U := Const(LOW), E := Top], map[], {IN}, {0, 1}, [], [U, E], {}, {U, E});
    var c := Early({IN}, Const(LOW), []);
    assert CellAt(b, U) == Const(LOW) && CellAt(c, E) == Top && BACK !in s.edges;
    hide Shape, AfterOne, SetCell, PushFlow, CellAt, AfterAll;
    EvalPhiHere(f, s);
    EvalOthersHere(f, a);
    EvalNotsHere(f, b);
    EvalOthersHere(f, c);
    FirstCells();
    AllFour(f, s, 1, 2, 3, 4);
  }

  /** b1 for the first time. */
  lemma Turn1(f: Function)
    requires Shape(f)
    ensures Advance(f, Config(Facts(map[], map[], {}, {0}, [IN], [], {IN}, {}), false)) ==
            Config(Early({IN}, Const(LOW), [OUT, BACK]), false)
  {
    var s := Facts(map[], map[], {}, {0}, [IN], [], {IN}, {});
    FirstVisit(f);
    assert PopFlow(s) == Facts(map[], map[], {}, {0}, [], [], {}, {});
    assert {} + {IN} == {IN} && {0} + {1} == {0, 1};
    hide AfterAll;
  }

  lemma AllFour(f: Function, s: Facts, i: InstId, j: InstId, k: InstId, l: InstId)
    ensures AfterAll(f, s, [i, j, k, l]) == AfterOne(f, AfterOne(f, AfterOne(f, AfterOne(f, s, i), j), k), l)
  {
    hide AfterOne;
    assert [i, j, k, l][1..] == [j, k, l] && [j, k, l][1..] == [k, l] && [k, l][1..] == [l] && [l][1..] == [];
    var t := AfterOne(f, s, i);
    assert AfterAll(f, t, [j, k, l]) == AfterAll(f, AfterOne(f, t, j), [k, l]);
    assert forall u :: AfterAll(f, u, [k, l]) == AfterAll(f, AfterOne(f, u, k), [l]);
    assert forall u :: AfterAll(f, u, [l]) == AfterOne(f, u, l);
  }

  /** The edge back into b1: its phi is evaluated again. */
  lemma Turn2(f: Function)
    requires Shape(f)
    ensures Advance(f, Config(Early({IN}, Const(LOW), [OUT, BACK]), false)) == Config(Early({IN, BACK}, Top, [OUT]), false)
  {
    var s := Early({IN}, Const(LOW), [OUT, BACK]);
    var t := Early({IN, BACK}, Const(LOW), [OUT]);
    assert f.Body(1) == [1, 2, 3, 4];
    hide Shape, SetCell, AfterPhis, AfterOne, Early, PopFlow;
    BackFacts();
    EvalPhiHere(f, t);
    OnlyFirstPhi(f, t);
  }

  lemma BackFacts()
    ensures var (s, t) := (Early({IN}, Const(LOW), [OUT, BACK]), Early({IN, BACK}, Const(LOW), [OUT]));
      && s.flow == [OUT, BACK] && BACK !in s.edges && 1 in s.blocks && PopFlow(s).(edges := s.edges + {BACK}) == t && s.edges == PopFlow(s).edges
      && s.blocks == PopFlow(s).blocks && t.mayBeUndef == map[] && IN in t.edges && BACK in t.edges && SetCell(t, U, Top) == Early({IN, BACK}, Top, [OUT])
  {
  }

  lemma OnlyFirstPhi(f: Function, s: Facts)
    requires Shape(f)
    ensures AfterPhis(f, s, [1, 2, 3, 4]) == AfterOne(f, s, 1)
  {
    hide AfterPhi;
    assert [1, 2, 3, 4 as InstId][1..] == [2, 3, 4] && [2, 3, 4 as InstId][1..] == [3, 4];
    assert [3, 4 as InstId][1..] == [4] && [4 as InstId][1..] == [];
    var t := AfterOne(f, s, 1);
    assert AfterPhis(f, t, [4]) == t;
    assert AfterPhis(f, t, [3, 4]) == AfterPhis(f, t, [4]);
    assert AfterPhis(f, t, [2, 3, 4]) == AfterPhis(f, t, [3, 4]);
  }

  lemma LastCells()
    ensures var s := Early({IN, BACK, OUT}, Top, []).(blocks := {0, 1, 2});
      SetCell(SetCell(s, Y, Top), X, Const(HIGH)) == Late(Const(HIGH), [U, E, Z, Y, X]) && CellAt(SetCell(s, Y, Top), Z) == Const(HIGH)
      && CellAt(s, U) == Top && SetCell(s, Y, Top).mayBeUndef == map[] == s.mayBeUndef
  {
  }

  lemma AllThree(f: Function, s: Facts, i: InstId, j: InstId, k: InstId)
    ensures AfterAll(f, s, [i, j, k]) == AfterOne(f, AfterOne(f, AfterOne(f, s, i), j), k)
  {
    hide AfterOne;
    assert [i, j, k][1..] == [j, k] && [j, k][1..] == [k] && [k][1..] == [];
    var t := AfterOne(f, s, i);
    assert AfterAll(f, t, [j, k]) == AfterAll(f, AfterOne(f, t, j), [k]);
  }

  /** b2 is evaluated with the new u and the old z. */
  lemma Turn3(f: Function)
    requires Shape(f)
    ensures Advance(f, Config(Early({IN, BACK}, Top, [OUT]), false)) == Config(Late(Const(HIGH), [U, E, Z, Y, X]), false)
  {
    var s := Early({IN, BACK}, Top, [OUT]);
    var t := Early({IN, BACK, OUT}, Top, []).(blocks := {0, 1, 2});
    assert PopFlow(s).(edges := s.edges + {OUT}, blocks := s.blocks + {2}) == t;
    assert f.Body(2) == [5, 6, 7] && OUT !in s.edges && 2 !in s.blocks;
    LateClear(Const(HIGH), [U, E, Z, Y, X]);
    hide Shape, AfterOne, SetCell, CellAt, Late, AfterAll;
    LastCells();
    EvalNotsHere(f, t);
    var u := SetCell(t, Y, Top);
    EvalNotsHere(f, u);
    EvalOthersHere(f, Late(Const(HIGH), [U, E, Z, Y, X]));
    AllThree(f, t, 5, 6, 7);
  }

  /** A popped value whose one user is up to date. */
  lemma Drop(f: Function, z: Cell, rest: seq<ValueId>, v: ValueId, user: InstId)
    requires Shape(f) && f.Users(v) == [user] && v !in rest && Home(f, user) in {1, 2}
    requires AfterOne(f, Late(z, rest), user) == Late(z, rest)
    ensures Advance(f, Config(Late(z, rest + [v]), true)) == Config(Late(z, rest), true)
  {
    hide AfterOne, Shape;
    var s := Late(z, rest + [v]);
    assert s.ssa[..|s.ssa| - 1] == rest;
    assert PopSsa(s) == Late(z, rest);
    assert [user][1..] == [];
    assert AfterUsers(f, Late(z, rest), [user]) == AfterUsers(f, AfterOne(f, Late(z, rest), user), []);
  }

  lemma UpToDateUsers(f: Function, z: Cell, rest: seq<ValueId>)
    requires Shape(f)
    ensures AfterOne(f, Late(z, rest), 7) == Late(z, rest)
    ensures AfterOne(f, Late(z, rest), 4) == Late(z, rest)
    ensures AfterOne(f, Late(z, rest), 5) == Late(z, rest)
    ensures z == Const(HIGH) ==> AfterOne(f, Late(z, rest), 6) == Late(z, rest)
  {
    var s := Late(z, rest);
    assert CellAt(s, E) == Top && CellAt(s, U) == Top && CellAt(s, Y) == Top && CellAt(s, X) == Const(HIGH) && CellAt(s, Z) == z;
    assert PushFlow(PushFlow(s, OUT), BACK) == s;
    assert SetCell(s, Y, Top) == s && SetCell(s, X, Const(HIGH)) == s;
    LateClear(z, rest);
    hide Shape, AfterOne, SetCell, CellAt, Late, PushFlow;
    EvalOthersHere(f, s);
    EvalNotsHere(f, s);
  }

  lemma LateZ()
    ensures var (s, t) := (Late(Const(HIGH), [U]), Late(Const(HIGH), []));
      PopSsa(s) == t && CellAt(t, U) == Top && SetCell(t, Z, Top) == Late(Top, [Z]) && 1 in t.blocks
  {
  }

  /** u comes up: z is evaluated again, and changes. */
  lemma Turn9(f: Function)
    requires Shape(f)
    ensures Advance(f, Config(Late(Const(HIGH), [U]), true)) == Config(Late(Top, [Z]), true)
  {
    var (s, t) := (Late(Const(HIGH), [U]), Late(Const(HIGH), []));
    LateZ();
    assert f.Users(U) == [3] && Home(f, 3) == 1;
    hide Shape, AfterOne, SetCell, CellAt, PopSsa;
    EvalNotsHere(f, t);
    assert [3 as InstId][1..] == [];
    assert AfterUsers(f, t, [3]) == AfterUsers(f, AfterOne(f, t, 3), []);
  }

  lemma Unrolled(f: Function, n: nat, c: Config)
    requires Iterate(f, n) == c
    ensures Iterate(f, n + 1) == Advance(f, c)
  {
  }

  lemma FlowEnds(f: Function)
    requires Shape(f)
    ensures Iterate(f, 4) == Config(Late(Const(HIGH), [U, E, Z, Y, X]), true)
  {
    Turn0(f);
    Turn1(f);
    Turn2(f);
    Turn3(f);
    var late := Late(Const(HIGH), [U, E, Z, Y, X]);
    assert Advance(f, Config(late, false)) == Config(late, true);
    var c0 := Config(Facts(map[], map[], {}, {0}, [IN], [], {IN}, {}), false);
    assert Iterate(f, 0) == c0;
    hide Advance, Late, Early, Shape, Initial, Iterate;
    Unrolled(f, 0, c0);
    Unrolled(f, 1, Config(Early({IN}, Const(LOW), [OUT, BACK]), false));
    Unrolled(f, 2, Config(Early({IN, BACK}, Top, [OUT]), false));
    Unrolled(f, 3, Config(late, false));
  }

  lemma DropX(f: Function, z: Cell, rest: seq<ValueId>, v: ValueId)
    requires Shape(f) && v !in rest && (v == Y || v == Z || v == E || v == X) && (v == Y ==> z == Const(HIGH))
    ensures Advance(f, Config(Late(z, rest + [v]), true)) == Config(Late(z, rest), true)
  {
    hide AfterOne, Late, Advance;
    UpToDateUsers(f, z, rest);
    Drop(f, z, rest, v, if v == X then 7 else if v == Y then 6 else if v == Z then 5 else 4);
  }

  /** The solver finishes with x constant. */
  lemma SolverStops(f: Function)
    requires Shape(f)
    ensures Iterate(f, 10) == Config(Late(Top, []), true)
  {
    hide AfterOne, Iterate, Shape, Advance, Late;
    var z := Const(HIGH);
    FlowEnds(f);
    assert [U, E, Z, Y, X] == [U, E, Z, Y] + [X] && [U, E, Z, Y] == [U, E, Z] + [Y] && [U, E, Z] == [U, E] + [Z];
    assert [U, E] == [U] + [E] && [Z] == [] + [Z];
    DropX(f, z, [U, E, Z, Y], X);
    DropX(f, z, [U, E, Z], Y);
    DropX(f, z, [U, E], Z);
    DropX(f, z, [U], E);
    Turn9(f);
    DropX(f, Top, [], Z);
    Unrolled(f, 4, Config(Late(z, [U, E, Z, Y, X]), true));
    Unrolled(f, 5, Config(Late(z, [U, E, Z, Y]), true));
    Unrolled(f, 6, Config(Late(z, [U, E, Z]), true));
    Unrolled(f, 7, Config(Late(z, [U, E]), true));
    Unrolled(f, 8, Config(Late(z, [U]), true));
    Unrolled(f, 9, Config(Late(Top, [Z]), true));
  }

  lemma Contradicted(f: Function)
    requires Shape(f) && |f.args| == 0
    ensures Finished(Iterate(f, 10).facts)
    ensures var o := Run(f, Answers(), Start(f, []), 11); o.Running? && !ValueDescribed(f, Iterate(f, 10).facts, o.m, X)
  {
    hide Shape, Iterate, Run, Answers, Late, ValueDescribed, Finished;
    SolverStops(f);
    RunEnds(f);
    WrongFacts(f, Run(f, Answers(), Start(f, []), 11).m);
  }

  lemma WrongFacts(f: Function, m: Machine)
    requires Shape(f)
    ensures Finished(Late(Top, [])) && (Local(m, X) == Word(LOW) ==> !ValueDescribed(f, Late(Top, []), m, X))
  {
    Definitions(f);
    hide Shape;
  }

  // ----- the rewritten function

  lemma {:induction false} KeptMembers(f: Function, s: Facts, insts: seq<InstId>, i: InstId)
    requires i in Kept(f, s, insts)
    ensures i in insts && !Folded(f, s, i)
  {
    hide Folded;
    if insts != [] {
      var n := |insts| - 1;
      if i in Kept(f, s, insts[..n]) { KeptMembers(f, s, insts[..n], i); }
    }
  }

  lemma Rebuilds(inst: Inst, gone: set<BlockId>)
    ensures Shrunk(inst, gone).Return? ==> inst.Return? && Shrunk(inst, gone) == inst
  {
  }

  /** If the rewritten function returns, it returns 1. */
  lemma StepReturnsHigh(f: Function, g: Function, h: Function, m: Machine)
    requires Shape(f) && Rest(f) && Rewritten(f, Late(Top, []), g, h) && Step(h, Answers(), m).Returned?
    ensures Step(h, Answers(), m).value == Word(HIGH)
  {
    hide Shape, Rest, Late, Step, Rewritten, Answers;
    StepReturns(h, Answers(), m);
    var i := h.Body(m.block)[m.at];
    RewrittenParts(f, Late(Top, []), g, h, m.block, i);
    BodyKnown(f, m.block, i);
    LastFacts(f);
  }

  lemma StepReturns(h: Function, world: World, m: Machine)
    requires Step(h, world, m).Returned?
    ensures m.at < |h.Body(m.block)| && h.At(h.Body(m.block)[m.at]).Return?
    ensures var inst := h.At(h.Body(m.block)[m.at]); inst.ret.Some? ==> Step(h, world, m).value == Lookup(h, m, inst.ret.value)
  {
  }

  /** A return that is left is one of the original. */
  lemma RewrittenParts(f: Function, s: Facts, g: Function, h: Function, b: BlockId, i: InstId)
    requires Rewritten(f, s, g, h) && i in h.Body(b)
    ensures i in f.Body(b) && h.Data(X) == NewData(f, s, X)
    ensures Executable(f, s, i) && h.At(i).Return? ==> h.At(i) == f.At(i)
  {
    KeptMembers(f, s, f.Body(b), i);
    Rebuilds(f.At(i), Dead(f, s, i));
    hide Shrunk, Retained, Kept, Folded, NewData;
    assert Executable(f, s, i) ==> h.At(i) == NewInst(f, g, s, i);
  }

  lemma BodyKnown(f: Function, b: BlockId, i: InstId)
    requires Shape(f) && Rest(f) && i in f.Body(b)
    ensures Executable(f, Late(Top, []), i) && (f.At(i).Return? ==> f.At(i) == Return(Some(X)))
  {
  }

  lemma LastFacts(f: Function)
    requires Shape(f) && Rest(f)
    ensures NewData(f, Late(Top, []), X) == Immediate(HIGH)
  {
    Constants(f);
  }

  lemma {:induction false} RunReturnsHigh(f: Function, g: Function, h: Function, m: Machine, j: nat)
    requires Shape(f) && Rest(f) && Rewritten(f, Late(Top, []), g, h)
    ensures var o := Run(h, Answers(), m, j); o.Returned? ==> o.value == Word(HIGH)
    decreases j
  {
    hide Shape, Rest, Rewritten, Step, Late, Answers;
    if j > 0 {
      var o := Step(h, Answers(), m);
      if o.Returned? { StepReturnsHigh(f, g, h, m); }
      if o.Running? { RunReturnsHigh(f, g, h, o.m, j - 1); }
    }
  }

  /** The original returns 0. */
  lemma ReturnsLow(f: Function)
    requires Shape(f) && |f.args| == 0
    ensures var o := Run(f, Answers(), Start(f, []), 12); o.Returned? && o.value == Word(LOW)
  {
    hide Run, Answers;
    RunEnds(f);
    var m := Run(f, Answers(), Start(f, []), 11).m;
    RunSplit(f, Answers(), Start(f, []), 11, 1);
    RunOne(f, Answers(), m);
    Places(f);
    Constants(f);
    hide Shape;
  }

  lemma AnswersTyped(f: Function)
    requires Shape(f) && Rest(f)
    ensures WorldTyped(f, Answers()) && ActualsTyped(f, [])
  {
    NoTypes(f);
    BitsTyped();
    hide Shape, Rest, Typed;
  }

  lemma BitsTyped()
    ensures Typed(Word(HIGH), 1) && Typed(Word(LOW), 1)
  {
    NotBit();
  }

  lemma NoTypes(f: Function)
    requires Shape(f) && Rest(f)
    ensures f.types == map[] && f.args == []
  {
  }

  lemma NotKept(f: Function, g: Function, h: Function)
    requires Shape(f) && Rest(f) && Rewritten(f, Late(Top, []), g, h)
    ensures !KeepsMeaning(f, h)
  {
    AnswersTyped(f);
    assert |f.args| == 0;
    hide Shape, Rest, Rewritten, KeepsMeaning, Run, Answers, Late, WorldTyped;
    ReturnsLow(f);
    if |h.args| == 0 {
      forall j: nat ensures var p := Run(h, Answers(), Start(h, []), j); p.Returned? ==> p.value == Word(HIGH) {
        RunReturnsHigh(f, g, h, Start(h, []), j);
      }
    }
    MeaningLost(f, h, [], Answers(), 12, HIGH);
  }

  /** After ten turns both worklists are empty and x is recorded as the constant
      1, but the run whose effect answers 1 and then 0 leaves x at 0; so no
      rewriting by those facts keeps the meaning. */
  lemma NegationOfNegationIsStale(g: Function, h: Function)
    ensures Finished(Iterate(Loop(), 10).facts)
    ensures |Loop().args| == 0
    ensures var o := Run(Loop(), Answers(), Start(Loop(), []), 11);
      o.Running? && !ValueDescribed(Loop(), Iterate(Loop(), 10).facts, o.m, X)
    ensures Rewritten(Loop(), Iterate(Loop(), 10).facts, g, h) ==> !KeepsMeaning(Loop(), h)
  {
    LoopShape();
    LoopRest();
    hide Loop, Shape, Rest, Iterate, Run, Answers, ValueDescribed, Finished, Rewritten, KeepsMeaning;
    NoArguments(Loop());
    Contradicted(Loop());
    SolverStops(Loop());
    if Rewritten(Loop(), Late(Top, []), g, h) { NotKept(Loop(), g, h); }
  }

  lemma NoArguments(f: Function)
    requires Shape(f)
    ensures |f.args| == 0
  {
  }
}
