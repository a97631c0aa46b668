/**
 The part of the SSA form that constant propagation works on, with the
 interpreter as its meaning (crates/ir/src/function.rs, dfg.rs, layout.rs,
 inst/control_flow.rs; crates/interpreter/src/lib.rs; crates/ir/src/interpret).
 */
module Ir {
  import opened Options
  import opened Words

  type ValueId = nat
  type BlockId = nat
  type InstId = nat

  datatype EvalValue = Word(imm: Imm) | Undef

  datatype ValueData = Immediate(imm: Imm) | Undefined | Arg | Result(inst: InstId)

  /** `Effect` stands for every instruction the solver gives up on: calls,
      memory accesses and whatever has no interpretation of its own; `what` tells
      them apart. */
  datatype Inst = Binary(op: BinOp, lhs: ValueId, rhs: ValueId)
                | Unary(unop: UnOp, arg: ValueId)
                | Cast(cast: CastOp, from: ValueId, width: nat)
                | Effect(what: nat, operands: seq<ValueId>)
                | Phi(args: seq<(ValueId, BlockId)>)
                | Jump(dest: BlockId)
                | Br(cond: ValueId, nzDest: BlockId, zDest: BlockId)
                | BrTable(scrutinee: ValueId, default: Option<BlockId>, table: seq<(ValueId, BlockId)>)
                | Return(ret: Option<ValueId>)
                | Unreachable

  predicate IsBranch(inst: Inst) { inst.Jump? || inst.Br? || inst.BrTable? }

  predicate IsTerminator(inst: Inst) { IsBranch(inst) || inst.Return? || inst.Unreachable? }

  predicate IsPure(inst: Inst) { inst.Binary? || inst.Unary? || inst.Cast? }

  function First(pairs: seq<(ValueId, BlockId)>): (vs: seq<ValueId>)
    ensures |vs| == |pairs| && forall k :: 0 <= k < |vs| ==> vs[k] == pairs[k].0
  {
    if pairs == [] then [] else [pairs[0].0] + First(pairs[1..])
  }

  function Second(pairs: seq<(ValueId, BlockId)>): (bs: seq<BlockId>)
    ensures |bs| == |pairs| && forall k :: 0 <= k < |bs| ==> bs[k] == pairs[k].1
  {
    if pairs == [] then [] else [pairs[0].1] + Second(pairs[1..])
  }

  function Operands(inst: Inst): seq<ValueId> {
    match inst
    case Binary(_, l, r) => [l, r]
    case Unary(_, a) => [a]
    case Cast(_, a, _) => [a]
    case Effect(_, vs) => vs
    case Phi(args) => First(args)
    case Jump(_) => []
    case Br(c, _, _) => [c]
    case BrTable(s, _, table) => [s] + First(table)
    case Return(Some(v)) => [v]
    case Return(None) => []
    case Unreachable => []
  }

  /** The destinations of a branch, in the order the source lists them. */
  function Dests(inst: Inst): seq<BlockId> {
    match inst
    case Jump(d) => [d]
    case Br(_, nz, z) => [nz, z]
    case BrTable(_, default, table) => TableDests(default, table)
    case _ => []
  }

  function TableDests(default: Option<BlockId>, table: seq<(ValueId, BlockId)>): seq<BlockId> {
    (if default.Some? then [default.value] else []) + Second(table)
  }

  /** A function: values, instructions with their results and users, and the
      layout.  `home` is the block field of the layout's instruction nodes. */
  datatype Function = Function(
    args: seq<ValueId>,
    entry: BlockId,
    values: map<ValueId, ValueData>,
    types: map<ValueId, nat>,
    insts: map<InstId, Inst>,
    results: map<InstId, ValueId>,
    users: map<ValueId, seq<InstId>>,
    layout: map<BlockId, seq<InstId>>,
    home: map<InstId, BlockId>
  ) {
    function Data(v: ValueId): ValueData { if v in values then values[v] else Undefined }

    function Type(v: ValueId): nat { if v in types then types[v] else 1 }

    function At(i: InstId): Inst { if i in insts then insts[i] else Unreachable }

    function ResultOf(i: InstId): Option<ValueId> { if i in results then Some(results[i]) else None }

    function Users(v: ValueId): seq<InstId> { if v in users then users[v] else [] }

    function Body(b: BlockId): seq<InstId> { if b in layout then layout[b] else [] }

    function LastInst(b: BlockId): Option<InstId> {
      if Body(b) == [] then None else Some(Body(b)[|Body(b)| - 1])
    }
  }

  // ----- well-formed functions

  predicate PlacedAt(f: Function, b: BlockId, i: InstId) {
    i in f.home && f.home[i] == b && (IsBranch(f.At(i)) ==> f.LastInst(b) == Some(i))
  }

  predicate BodyOk(f: Function, b: BlockId) {
    forall i :: i in f.Body(b) ==> PlacedAt(f, b, i)
  }

  predicate HomeOk(f: Function, i: InstId)
    requires i in f.home
  {
    i in f.Body(f.home[i])
  }

  predicate UsersOk(f: Function, i: InstId) {
    forall v :: v in Operands(f.At(i)) ==> i in f.Users(v)
  }

  /** What an instruction reads is defined in the layout. */
  predicate OperandsOk(f: Function, i: InstId) {
    forall v :: v in Operands(f.At(i)) && f.Data(v).Result? ==> f.Data(v).inst in f.home
  }

  predicate ResultOk(f: Function, i: InstId) {
    f.ResultOf(i).Some? ==> f.Data(f.ResultOf(i).value) == Result(i) && !IsBranch(f.At(i))
  }

  predicate ValueOk(f: Function, v: ValueId) {
    && f.Type(v) > 0
    && match f.Data(v)
       case Immediate(c) => WellSized(c) && c.width == f.Type(v)
       case Arg => v in f.args
       case Result(i) => f.ResultOf(i) == Some(v)
       case Undefined => true
  }

  /** The type rules the verifier enforces on an instruction and its result. */
  predicate TypeOk(f: Function, i: InstId) {
    match f.At(i)
    case Binary(op, l, r) =>
      && f.Type(l) == f.Type(r) <= 256
      && (f.ResultOf(i).Some? ==> f.Type(f.ResultOf(i).value) == ResultWidth(op, f.Type(l)))
    case Unary(op, a) => f.ResultOf(i).Some? ==> f.Type(f.ResultOf(i).value) == if op == IsZero then 1 else f.Type(a)
    case Cast(op, a, w) =>
      && CastAllowed(op, f.Type(a), w)
      && (f.ResultOf(i).Some? ==> f.Type(f.ResultOf(i).value) == w)
    case Phi(args) =>
      f.ResultOf(i).Some? ==>
        forall k :: 0 <= k < |args| ==> f.Type(args[k].0) == f.Type(f.ResultOf(i).value)
    case BrTable(_, _, table) => forall k :: 0 <= k < |table| ==> f.Data(table[k].0).Immediate?
    case _ => true
  }

  predicate DestsOk(f: Function, i: InstId) {
    forall d :: d in Dests(f.At(i)) ==> d in f.layout
  }

  predicate InstOk(f: Function, i: InstId) {
    ResultOk(f, i) && UsersOk(f, i) && OperandsOk(f, i) && TypeOk(f, i) && DestsOk(f, i)
  }

  predicate ArgsOk(f: Function) {
    forall v :: v in f.args ==> f.Data(v) == Arg
  }

  ghost predicate WellFormed(f: Function) {
    && f.entry in f.layout
    && ArgsOk(f)
    && (forall b {:trigger BodyOk(f, b)} :: BodyOk(f, b))
    && (forall i {:trigger HomeOk(f, i)} :: i in f.home ==> HomeOk(f, i))
    && (forall i {:trigger InstOk(f, i)} :: i in f.home ==> InstOk(f, i))
    && (forall v {:trigger ValueOk(f, v)} :: ValueOk(f, v))
    && (forall v, i :: i in f.Users(v) ==> i in f.home)
  }

  /** The layout lists every instruction once. */
  ghost predicate PlacedOnce(f: Function) {
    forall b, k, l :: 0 <= k < l < |f.Body(b)| ==> f.Body(b)[k] != f.Body(b)[l]
  }

  // ----- edges and phis

  predicate HasEdge(f: Function, b: BlockId, d: BlockId) {
    f.LastInst(b).Some? && d in Dests(f.At(f.LastInst(b).value))
  }

  /** The incoming blocks of a phi are the predecessors, each once. */
  ghost predicate PhiFits(f: Function, b: BlockId, args: seq<(ValueId, BlockId)>) {
    && (forall p {:trigger p in Second(args)} :: p in Second(args) <==> HasEdge(f, p, b))
    && (forall j, k :: 0 <= j < k < |args| ==> args[j].1 != args[k].1)
  }

  ghost predicate PhisFit(f: Function) {
    forall i {:trigger f.At(i)} :: i in f.home && f.At(i).Phi? ==> PhiFits(f, f.home[i], f.At(i).args)
  }

  lemma PlacedOf(f: Function, b: BlockId, i: InstId)
    requires WellFormed(f) && i in f.Body(b)
    ensures PlacedAt(f, b, i)
  {
    assert BodyOk(f, b);
  }

  lemma InstOf(f: Function, i: InstId)
    requires WellFormed(f) && i in f.home
    ensures InstOk(f, i) && i in f.Body(f.home[i])
  {
    assert HomeOk(f, i);
  }

  lemma ValueOf(f: Function, v: ValueId)
    requires WellFormed(f)
    ensures ValueOk(f, v)
  {
  }

  // ----- evaluating one instruction

  function Zip(op: BinOp, x: EvalValue, y: EvalValue): EvalValue
    requires Fits(x) && Fits(y) && (x.Word? && y.Word? ==> x.imm.width == y.imm.width)
  {
    if x.Word? && y.Word? then Word(Apply(op, x.imm, y.imm)) else Undef
  }

  predicate Fits(x: EvalValue) { x.Word? ==> WellSized(x.imm) }

  predicate Typed(x: EvalValue, width: nat) { x.Word? ==> WellSized(x.imm) && x.imm.width == width }

  type Valuation = ValueId -> EvalValue

  predicate Evaluable(val: Valuation, inst: Inst) {
    match inst
    case Binary(_, l, r) =>
      Fits(val(l)) && Fits(val(r)) && (val(l).Word? && val(r).Word? ==> val(l).imm.width == val(r).imm.width)
    case Unary(_, a) => Fits(val(a))
    case Cast(op, a, w) => Fits(val(a)) && (val(a).Word? ==> CastAllowed(op, val(a).imm.width, w))
    case _ => true
  }

  /** What a pure instruction computes; undefined as soon as an operand is. */
  function Evaluate(val: Valuation, inst: Inst): EvalValue
    requires IsPure(inst) && Evaluable(val, inst)
  {
    match inst
    case Binary(op, l, r) => Zip(op, val(l), val(r))
    case Unary(op, a) => if val(a).Word? then Word(ApplyUnary(op, val(a).imm)) else Undef
    case Cast(op, a, w) => if val(a).Word? then Word(ApplyCast(op, val(a).imm, w)) else Undef
  }

  function TableTarget(val: Valuation, scrutinee: Imm, table: seq<(ValueId, BlockId)>): Option<BlockId> {
    if table == [] then None
    else if val(table[0].0) == Word(scrutinee) then Some(table[0].1)
    else TableTarget(val, scrutinee, table[1..])
  }

  /** Where a branch goes; nowhere when the condition is undefined or no case
      fits and there is no default. */
  function Target(val: Valuation, inst: Inst): Option<BlockId> {
    match inst
    case Jump(d) => Some(d)
    case Br(c, nz, z) => if val(c).Word? then Some(if val(c).imm.bits == 0 then z else nz) else None
    case BrTable(s, default, table) =>
      if val(s).Word? then
        var hit := TableTarget(val, val(s).imm, table);
        if hit.Some? then hit else default
      else None
    case _ => None
  }

  /** The first incoming value for `prev`; undefined when there is none. */
  function Incoming(val: Valuation, args: seq<(ValueId, BlockId)>, prev: BlockId): EvalValue {
    if args == [] then Undef
    else if args[0].1 == prev then val(args[0].0)
    else Incoming(val, args[1..], prev)
  }

  // ----- runs

  datatype Event = Event(inst: InstId, args: seq<EvalValue>)

  /** One frame: the locals, the block entered from, the program counter as a
      position in its block, and the effects so far. */
  datatype Machine = Machine(
    locals: map<ValueId, EvalValue>,
    prev: Option<BlockId>,
    block: BlockId,
    at: nat,
    events: seq<Event>
  )

  datatype Outcome = Running(m: Machine) | Returned(value: EvalValue, events: seq<Event>) | Panicked

  /** The answer the outside gives to the k-th effect. */
  type World = (InstId, nat) -> EvalValue

  function Local(m: Machine, v: ValueId): EvalValue {
    if v in m.locals then m.locals[v] else Undef
  }

  function Lookup(f: Function, m: Machine, v: ValueId): EvalValue {
    if f.Data(v).Immediate? then Word(f.Data(v).imm) else Local(m, v)
  }

  /** All values of a state; it depends on the value table and the locals only. */
  function Values(f: Function, m: Machine): (val: Valuation)
    ensures forall v: ValueId {:trigger val(v)} :: val(v) == Lookup(f, m, v)
  {
    ValuesOf(f.values, m.locals)
  }

  function ValuesOf(values: map<ValueId, ValueData>, locals: map<ValueId, EvalValue>): Valuation {
    (v: ValueId) =>
      if v in values && values[v].Immediate? then Word(values[v].imm)
      else if v in locals then locals[v] else Undef
  }

  function Map(val: Valuation, vs: seq<ValueId>): (es: seq<EvalValue>)
    ensures |es| == |vs| && forall k :: 0 <= k < |vs| ==> es[k] == val(vs[k])
  {
    if vs == [] then [] else [val(vs[0])] + Map(val, vs[1..])
  }

  function Continue(f: Function, m: Machine, i: InstId, value: EvalValue): Machine {
    var next := m.(at := m.at + 1);
    if f.ResultOf(i).Some? then next.(locals := m.locals[f.ResultOf(i).value := value]) else next
  }

  function JumpTo(m: Machine, d: BlockId): Machine {
    m.(prev := Some(m.block), block := d, at := 0)
  }

  /** The value an instruction that falls to the next one produces; `None` when
      the interpreter panics. */
  function Produced(f: Function, world: World, m: Machine, i: InstId): Option<EvalValue> {
    var inst := f.At(i);
    if inst.Phi? then
      if m.prev.Some? then Some(Incoming(Values(f, m), inst.args, m.prev.value)) else None
    else if inst.Effect? then Some(world(i, |m.events|))
    else if IsPure(inst) && Evaluable(Values(f, m), inst) then Some(Evaluate(Values(f, m), inst))
    else None
  }

  function Observed(f: Function, m: Machine, i: InstId): seq<Event> {
    if f.At(i).Effect? then [Event(i, Map(Values(f, m), f.At(i).operands))] else []
  }

  function Step(f: Function, world: World, m: Machine): Outcome {
    if m.at >= |f.Body(m.block)| then Panicked
    else
      var i := f.Body(m.block)[m.at];
      var inst := f.At(i);
      if inst.Return? then
        Returned(if inst.ret.Some? then Lookup(f, m, inst.ret.value) else Undef, m.events)
      else if IsBranch(inst) then
        var d := Target(Values(f, m), inst);
        if d.Some? then Running(JumpTo(m, d.value)) else Panicked
      else
        var e := Produced(f, world, m, i);
        if e.Some? then Running(Continue(f, m, i, e.value).(events := m.events + Observed(f, m, i))) else Panicked
  }

  function Run(f: Function, world: World, m: Machine, n: nat): Outcome
    decreases n
  {
    if n == 0 then Running(m)
    else
      var o := Step(f, world, m);
      if o.Running? then Run(f, world, o.m, n - 1) else o
  }

  lemma {:induction false} RunSplit(f: Function, world: World, m: Machine, j: nat, k: nat)
    requires Run(f, world, m, j).Running?
    ensures Run(f, world, m, j + k) == Run(f, world, Run(f, world, m, j).m, k)
    decreases j
  {
    hide Step;
    if j > 0 { RunSplit(f, world, Step(f, world, m).m, j - 1, k); }
  }

  lemma RunOne(f: Function, world: World, m: Machine)
    ensures Run(f, world, m, 1) == Step(f, world, m)
  {
  }

  function ArgMap(args: seq<ValueId>, actuals: seq<EvalValue>): map<ValueId, EvalValue>
    requires |args| == |actuals|
  {
    if args == [] then map[]
    else ArgMap(args[..|args| - 1], actuals[..|args| - 1])[args[|args| - 1] := actuals[|args| - 1]]
  }

  function Start(f: Function, actuals: seq<EvalValue>): Machine
    requires |actuals| == |f.args|
  {
    Machine(ArgMap(f.args, actuals), None, f.entry, 0, [])
  }

  predicate ActualsTyped(f: Function, actuals: seq<EvalValue>) {
    && |actuals| == |f.args|
    && forall k :: 0 <= k < |actuals| ==> Typed(actuals[k], f.Type(f.args[k]))
  }

  ghost predicate WorldTyped(f: Function, world: World) {
    forall i, k :: f.ResultOf(i).Some? ==> Typed(world(i, k), f.Type(f.ResultOf(i).value))
  }

  lemma {:induction false} ArgMapLookup(f: Function, args: seq<ValueId>, actuals: seq<EvalValue>, v: ValueId)
    requires |args| == |actuals|
    requires forall k :: 0 <= k < |args| ==> Typed(actuals[k], f.Type(args[k]))
    requires v in ArgMap(args, actuals)
    ensures v in args && Typed(ArgMap(args, actuals)[v], f.Type(v))
  {
    var n := |args| - 1;
    if v != args[n] { ArgMapLookup(f, args[..n], actuals[..n], v); }
  }
}
