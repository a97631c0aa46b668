/**
 Splicing a straight-line callee into its caller
 (crates/codegen/src/optim/inliner.rs:629-679, 738-822, 888-898): the values of
 the callee are mapped to values of the caller, the body is copied with its
 operands renamed, and the result of the call becomes the mapped result.
 */
module Splices {
  import opened Options
  import opened Words
  import opened Ir

  /** A body instruction and the value it defines. */
  datatype Template = Template(inst: Inst, result: Option<ValueId>)

  datatype Constant = ImmOf(imm: Imm) | UndefValue

  datatype Plan = Plan(calleeArgs: seq<ValueId>, constants: Constants, body: seq<Template>, ret: Option<ValueId>)

  /** The values of a function that no instruction defines: immediates, which the
      interpreter reads off the value table, and undefined values, which it looks
      for among the locals. */
  type Constants = map<ValueId, Constant>

  /** A caller; names from `next` on are unused. */
  datatype Caller = Caller(constants: Constants, next: nat)

  ghost predicate CallerOk(c: Caller) {
    forall v :: v in c.constants ==> v < c.next
  }

  type ValueMap = map<ValueId, ValueId>

  // ----- running straight-line code

  /** The locals of a frame and the effects so far, each with its kind and operands. */
  datatype Line = Line(locals: map<ValueId, EvalValue>, effects: seq<(nat, seq<EvalValue>)>)

  type Outside = nat -> EvalValue

  function ValuesIn(consts: Constants, locals: map<ValueId, EvalValue>): Valuation {
    (v: ValueId) =>
      if v in consts && consts[v].ImmOf? then Word(consts[v].imm)
      else if v in locals then locals[v] else Undef
  }

  /** No undefined value is set: true at the start of every frame, as only
      parameters and results are ever set. */
  ghost predicate Clear(consts: Constants, l: Line) {
    forall v :: v in consts && consts[v].UndefValue? ==> v !in l.locals
  }

  predicate Straight(inst: Inst) { inst.Effect? || IsPure(inst) }

  function ExecInst(consts: Constants, outside: Outside, l: Line, t: Template): Option<Line> {
    var val := ValuesIn(consts, l.locals);
    if !Straight(t.inst) || !Evaluable(val, t.inst) then None
    else
      var e := if t.inst.Effect? then outside(|l.effects|) else Evaluate(val, t.inst);
      Some(Line(
        if t.result.Some? then l.locals[t.result.value := e] else l.locals,
        if t.inst.Effect? then l.effects + [(t.inst.what, Map(val, t.inst.operands))] else l.effects))
  }

  function Exec(consts: Constants, outside: Outside, l: Line, body: seq<Template>): Option<Line>
    decreases |body|
  {
    if body == [] then Some(l)
    else
      var n := ExecInst(consts, outside, l, body[0]);
      if n.Some? then Exec(consts, outside, n.value, body[1..]) else None
  }

  function ValueIn(consts: Constants, l: Line, v: ValueId): EvalValue { ValuesIn(consts, l.locals)(v) }

  /** The frame of a call: the parameters hold the arguments, nothing else is set. */
  function Frame(params: seq<ValueId>, args: seq<EvalValue>, effects: seq<(nat, seq<EvalValue>)>): Line
    requires |params| == |args|
  {
    Line(ArgMap(params, args), effects)
  }

  // ----- renaming

  predicate Mapped(inst: Inst, vm: ValueMap) {
    forall v :: v in Operands(inst) ==> v in vm
  }

  function MapAll(vs: seq<ValueId>, vm: ValueMap): (r: seq<ValueId>)
    requires forall v :: v in vs ==> v in vm
    ensures |r| == |vs| && forall k :: 0 <= k < |r| ==> r[k] == vm[vs[k]]
  {
    if vs == [] then [] else [vm[vs[0]]] + MapAll(vs[1..], vm)
  }

  /** `rewrite_inst_values` on the instructions a body can hold. */
  function Rename(inst: Inst, vm: ValueMap): Inst
    requires Straight(inst) && Mapped(inst, vm)
  {
    match inst
    case Binary(op, l, r) => assert l in Operands(inst) && r in Operands(inst); Binary(op, vm[l], vm[r])
    case Unary(op, a) => assert a in Operands(inst); Unary(op, vm[a])
    case Cast(op, a, w) => assert a in Operands(inst); Cast(op, vm[a], w)
    case Effect(what, vs) => Effect(what, MapAll(vs, vm))
  }

  /** Mapped values are worth the same on both sides. */
  ghost predicate Agree(vals: Constants, l: Line, wals: Constants, k: Line, vm: ValueMap) {
    forall v {:trigger v in vm} :: v in vm ==> ValueIn(vals, l, v) == ValueIn(wals, k, vm[v])
  }

  lemma RenamedSame(val: Valuation, wal: Valuation, inst: Inst, vm: ValueMap)
    requires Straight(inst) && Mapped(inst, vm) && forall v :: v in Operands(inst) ==> val(v) == wal(vm[v])
    ensures Evaluable(wal, Rename(inst, vm)) <==> Evaluable(val, inst)
    ensures Evaluable(val, inst) && IsPure(inst) ==> Evaluate(wal, Rename(inst, vm)) == Evaluate(val, inst)
    ensures inst.Effect? ==> Map(wal, Rename(inst, vm).operands) == Map(val, inst.operands)
  {
    hide Apply, ApplyUnary, ApplyCast, WellSized, Map;
    match inst
    case Binary(op, l, r) => assert l in Operands(inst) && r in Operands(inst);
    case Unary(op, a) => assert a in Operands(inst);
    case Cast(op, a, w) => assert a in Operands(inst);
    case Effect(what, vs) => SameMapped(val, wal, vs, vm);
  }

  lemma SameMapped(val: Valuation, wal: Valuation, vs: seq<ValueId>, vm: ValueMap)
    requires forall v :: v in vs ==> v in vm && val(v) == wal(vm[v])
    ensures Map(wal, MapAll(vs, vm)) == Map(val, vs)
  {
  }

  // ----- validation

  /** Every operand is available where it is used, and so is the returned value. */
  predicate FlowOk(body: seq<Template>, required: Option<ValueId>, available: set<ValueId>)
    decreases |body|
  {
    if body == [] then required.None? || required.value in available
    else
      && (forall v :: v in Operands(body[0].inst) ==> v in available)
      && FlowOk(body[1..], required, if body[0].result.Some? then available + {body[0].result.value} else available)
  }

  /** Before position `k`: available from the start, or the result of an earlier
      instruction. */
  predicate Defined(body: seq<Template>, k: nat, initial: set<ValueId>, v: ValueId)
    requires k <= |body|
  {
    v in initial || exists j :: 0 <= j < k && body[j].result == Some(v)
  }

  /** Every operand is defined before its instruction, and the returned value at
      the end. */
  ghost predicate Flows(body: seq<Template>, required: Option<ValueId>, initial: set<ValueId>) {
    && (forall k: nat, v {:trigger Defined(body, k, initial, v)} :: k < |body| && v in Operands(body[k].inst) ==> Defined(body, k, initial, v))
    && (required.Some? ==> Defined(body, |body|, initial, required.value))
  }

  lemma DefinedLater(body: seq<Template>, k: nat, initial: set<ValueId>, v: ValueId)
    requires k < |body|
    ensures var more := if body[0].result.Some? then initial + {body[0].result.value} else initial;
      Defined(body, k + 1, initial, v) <==> Defined(body[1..], k, more, v)
  {
    if j :| 0 <= j < k + 1 && body[j].result == Some(v) { assert j > 0 ==> body[1..][j - 1].result == Some(v); }
    if j :| 0 <= j < k && body[1..][j].result == Some(v) { assert body[j + 1].result == Some(v); }
  }

  lemma {:induction false} FlowExact(body: seq<Template>, required: Option<ValueId>, initial: set<ValueId>)
    ensures FlowOk(body, required, initial) <==> Flows(body, required, initial)
    decreases |body|
  {
    if body != [] {
      var rest, more := body[1..], if body[0].result.Some? then initial + {body[0].result.value} else initial;
      FlowExact(rest, required, more);
      forall k: nat, v | k < |body| ensures Defined(body, k + 1, initial, v) <==> Defined(rest, k, more, v) { DefinedLater(body, k, initial, v); }
      if Flows(body, required, initial) {
        forall v | v in Operands(body[0].inst) ensures v in initial { assert Defined(body, 0, initial, v); }
        forall k: nat, v | k < |rest| && v in Operands(rest[k].inst) ensures Defined(rest, k, more, v) {
          assert Operands(body[k + 1].inst) == Operands(rest[k].inst) && Defined(body, k + 1, initial, v);
        }
      }
      if Flows(rest, required, more) && forall v :: v in Operands(body[0].inst) ==> v in initial {
        forall k: nat, v | k < |body| && v in Operands(body[k].inst) ensures Defined(body, k, initial, v) {
          if k > 0 { assert rest[k - 1] == body[k] && Defined(rest, k - 1, more, v); }
        }
      }
    }
  }

  /** `validate_splice_value_flow`. */
  method ValidateValueFlow(body: seq<Template>, required: Option<ValueId>, initial: set<ValueId>) returns (ok: bool)
    ensures ok <==> FlowOk(body, required, initial)
    ensures ok <==> Flows(body, required, initial)
  {
    FlowExact(body, required, initial);
    hide Flows;
    var available, k := initial, 0;
    while k < |body|
      invariant 0 <= k <= |body| && (FlowOk(body, required, initial) <==> FlowOk(body[k..], required, available))
    {
      assert body[k..][1..] == body[k + 1..];
      var operands, j := Operands(body[k].inst), 0;
      while j < |operands|
        invariant 0 <= j <= |operands| && forall v :: v in operands[..j] ==> v in available
      {
        if operands[j] !in available { return false; }
        assert operands[..j + 1] == operands[..j] + [operands[j]];
        j := j + 1;
      }
      assert operands[..j] == operands;
      if body[k].result.Some? { available := available + {body[k].result.value}; }
      k := k + 1;
    }
    ok := required.None? || required.value in available;
  }

  // ----- copying the body

  /** The caller after the copy, the map, and the copied instructions. */
  datatype Copied = Copied(caller: Caller, vm: ValueMap, body: seq<Template>)

  /** One turn of `apply_splice_body`; the new instruction is recorded by the
      name of the value it defines. */
  function CopyInst(s: Copied, t: Template): Copied
    requires Straight(t.inst) && Mapped(t.inst, s.vm)
  {
    var n := s.caller.next;
    if t.result.Some? then
      Copied(Caller(s.caller.constants, n + 1), s.vm[t.result.value := n], s.body + [Template(Rename(t.inst, s.vm), Some(n))])
    else s.(body := s.body + [Template(Rename(t.inst, s.vm), None)])
  }

  predicate BodyOk(body: seq<Template>) {
    forall k :: 0 <= k < |body| ==> Straight(body[k].inst)
  }

  function CopyAll(s: Copied, body: seq<Template>, required: Option<ValueId>): (r: Copied)
    requires BodyOk(body) && FlowOk(body, required, s.vm.Keys)
    ensures required.Some? ==> required.value in r.vm
    decreases |body|
  {
    if body == [] then s
    else
      var n := CopyInst(s, body[0]);
      assert n.vm.Keys == if body[0].result.Some? then s.vm.Keys + {body[0].result.value} else s.vm.Keys;
      CopyAll(n, body[1..], required)
  }

  /** The callee at `l` and the caller at `k` are at the same point. */
  ghost predicate InStep(callee: Constants, l: Line, s: Copied, k: Line) {
    && CallerOk(s.caller) && (forall v :: v in s.vm ==> s.vm[v] < s.caller.next)
    && k.effects == l.effects && Agree(callee, l, s.caller.constants, k, s.vm)
  }

  /** The locals named before `n` are untouched. */
  ghost predicate SameBelow(k: Line, j: Line, n: nat) {
    forall v :: v < n ==> (v in j.locals <==> v in k.locals) && (v in j.locals ==> j.locals[v] == k.locals[v])
  }

  lemma CopyInstInStep(callee: Constants, outside: Outside, l: Line, s: Copied, k: Line, t: Template)
    requires InStep(callee, l, s, k) && Straight(t.inst) && Mapped(t.inst, s.vm)
    requires t.result.Some? ==> t.result.value !in callee
    requires ExecInst(callee, outside, l, t).Some?
    ensures var r := CopyInst(s, t);
      && ExecInst(r.caller.constants, outside, k, r.body[|s.body|]).Some?
      && InStep(callee, ExecInst(callee, outside, l, t).value, r, ExecInst(r.caller.constants, outside, k, r.body[|s.body|]).value)
      && r.body[..|s.body|] == s.body && |r.body| == |s.body| + 1
      && SameBelow(k, ExecInst(r.caller.constants, outside, k, r.body[|s.body|]).value, s.caller.next)
  {
    var r, e := CopyInst(s, t), ResultOf(callee, outside, l, t);
    CopyExec(callee, outside, l, s, k, t);
    hide ExecInst, Rename, Mapped, Straight, ResultOf, Agree;
    var (l1, k1) := (ExecInst(callee, outside, l, t).value, ExecInst(r.caller.constants, outside, k, r.body[|s.body|]).value);
    if t.result.Some? {
      ResultAgrees(callee, l, s, k, t.result.value, e);
      AgreeByLocals(callee, l.(locals := l.locals[t.result.value := e]), l1, s.caller.constants, k.(locals := k.locals[s.caller.next := e]), k1, r.vm);
    } else {
      AgreeByLocals(callee, l, l1, s.caller.constants, k, k1, s.vm);
    }
  }

  lemma AgreeByLocals(vals: Constants, l: Line, l1: Line, wals: Constants, k: Line, k1: Line, vm: ValueMap)
    requires l1.locals == l.locals && k1.locals == k.locals && Agree(vals, l, wals, k, vm)
    ensures Agree(vals, l1, wals, k1, vm)
  {
  }

  /** What an instruction of a body evaluates to. */
  function ResultOf(consts: Constants, outside: Outside, l: Line, t: Template): EvalValue
    requires ExecInst(consts, outside, l, t).Some?
  {
    if t.inst.Effect? then outside(|l.effects|) else Evaluate(ValuesIn(consts, l.locals), t.inst)
  }

  /** The instruction and its copy have the same result and the same effects. */
  lemma CopyExec(callee: Constants, outside: Outside, l: Line, s: Copied, k: Line, t: Template)
    requires InStep(callee, l, s, k) && Straight(t.inst) && Mapped(t.inst, s.vm) && ExecInst(callee, outside, l, t).Some?
    ensures var (r, e, n) := (CopyInst(s, t), ResultOf(callee, outside, l, t), ExecInst(callee, outside, l, t).value);
      && n.locals == (if t.result.Some? then l.locals[t.result.value := e] else l.locals)
      && ExecInst(r.caller.constants, outside, k, r.body[|s.body|])
           == Some(Line(if t.result.Some? then k.locals[s.caller.next := e] else k.locals, n.effects))
  {
    hide Evaluate, Evaluable, Rename, ValuesIn, Map, Mapped;
    CopyComputes(callee, l, s, k, t);
  }

  /** What the copied instruction is and computes. */
  lemma CopyComputes(callee: Constants, l: Line, s: Copied, k: Line, t: Template)
    requires InStep(callee, l, s, k) && Straight(t.inst) && Mapped(t.inst, s.vm)
    ensures var (val, wal, r) := (ValuesIn(callee, l.locals), ValuesIn(CopyInst(s, t).caller.constants, k.locals), Rename(t.inst, s.vm));
      && Straight(r) && r.Effect? == t.inst.Effect? && IsPure(r) == IsPure(t.inst) && (r.Effect? ==> r.what == t.inst.what)
      && (Evaluable(wal, r) <==> Evaluable(val, t.inst))
      && (Evaluable(val, t.inst) && IsPure(t.inst) ==> Evaluate(wal, r) == Evaluate(val, t.inst))
      && (t.inst.Effect? ==> Map(wal, r.operands) == Map(val, t.inst.operands))
  {
    hide Evaluate, Evaluable, Rename, ValuesIn, Map, InStep;
    SameStart(callee, l, s, k, t);
    RenamedSame(ValuesIn(callee, l.locals), ValuesIn(CopyInst(s, t).caller.constants, k.locals), t.inst, s.vm);
    RenameKind(t.inst, s.vm);
  }

  lemma RenameKind(inst: Inst, vm: ValueMap)
    requires Straight(inst) && Mapped(inst, vm)
    ensures var r := Rename(inst, vm); Straight(r) && r.Effect? == inst.Effect? && IsPure(r) == IsPure(inst) && (inst.Effect? ==> r.what == inst.what)
  {
  }

  lemma SameStart(callee: Constants, l: Line, s: Copied, k: Line, t: Template)
    requires InStep(callee, l, s, k) && Straight(t.inst) && Mapped(t.inst, s.vm)
    ensures var (val, wal) := (ValuesIn(callee, l.locals), ValuesIn(CopyInst(s, t).caller.constants, k.locals));
      forall v :: v in s.vm ==> val(v) == wal(s.vm[v])
  {
    hide Rename;
    var (val, wal) := (ValuesIn(callee, l.locals), ValuesIn(CopyInst(s, t).caller.constants, k.locals));
    forall v | v in s.vm ensures val(v) == wal(s.vm[v]) { assert ValueIn(callee, l, v) == ValueIn(s.caller.constants, k, s.vm[v]); }
  }

  /** Setting the defined value on one side and the new one on the other. */
  lemma ResultAgrees(callee: Constants, l: Line, s: Copied, k: Line, o: ValueId, e: EvalValue)
    requires InStep(callee, l, s, k) && o !in callee
    ensures var n := s.caller.next;
      Agree(callee, l.(locals := l.locals[o := e]), s.caller.constants, k.(locals := k.locals[n := e]), s.vm[o := n])
  {
    var n := s.caller.next;
    var (l2, k2, vm) := (l.(locals := l.locals[o := e]), k.(locals := k.locals[n := e]), s.vm[o := n]);
    var wals := s.caller.constants;
    forall v | v in vm ensures ValueIn(callee, l2, v) == ValueIn(wals, k2, vm[v]) {
      if v != o { assert v in s.vm && ValueIn(callee, l, v) == ValueIn(s.caller.constants, k, s.vm[v]); }
    }
  }

  lemma {:induction false} CopyAllShape(s: Copied, body: seq<Template>, required: Option<ValueId>)
    requires BodyOk(body) && FlowOk(body, required, s.vm.Keys)
    ensures var r := CopyAll(s, body, required);
      r.caller.constants == s.caller.constants && r.caller.next >= s.caller.next && |r.body| == |s.body| + |body| && r.body[..|s.body|] == s.body
    decreases |body|
  {
    hide Rename;
    if body != [] {
      var n := CopyInst(s, body[0]);
      assert n.vm.Keys == if body[0].result.Some? then s.vm.Keys + {body[0].result.value} else s.vm.Keys;
      CopyAllShape(n, body[1..], required);
      assert n.body[..|s.body|] == s.body;
    }
  }

  /** Running the copy in the caller follows the body in the callee's frame. */
  lemma {:induction false} CopyAllRuns(callee: Constants, outside: Outside, l: Line, s: Copied, k: Line, body: seq<Template>, required: Option<ValueId>)
    returns (j: Line)
    requires InStep(callee, l, s, k) && BodyOk(body) && FlowOk(body, required, s.vm.Keys)
    requires forall x :: 0 <= x < |body| && body[x].result.Some? ==> body[x].result.value !in callee
    requires Exec(callee, outside, l, body).Some?
    ensures var r := CopyAll(s, body, required);
      && |r.body| >= |s.body| && Exec(r.caller.constants, outside, k, r.body[|s.body|..]) == Some(j)
      && InStep(callee, Exec(callee, outside, l, body).value, r, j) && SameBelow(k, j, s.caller.next)
    decreases |body|
  {
    hide ExecInst, InStep, Rename, Straight;
    CopyAllShape(s, body, required);
    var r := CopyAll(s, body, required);
    if body == [] {
      assert r.body[|s.body|..] == [];
      j := k;
    } else {
      var n := CopyInst(s, body[0]);
      assert n.vm.Keys == if body[0].result.Some? then s.vm.Keys + {body[0].result.value} else s.vm.Keys;
      CopyInstInStep(callee, outside, l, s, k, body[0]);
      CopyAllShape(n, body[1..], required);
      var k1 := ExecInst(n.caller.constants, outside, k, n.body[|s.body|]).value;
      j := CopyAllRuns(callee, outside, ExecInst(callee, outside, l, body[0]).value, n, k1, body[1..], required);
      var rest := r.body[|s.body|..];
      assert rest[0] == r.body[..|n.body|][|s.body|] == n.body[|s.body|];
      assert rest[1..] == r.body[|n.body|..];
      SameBelowTwice(k, k1, j, s.caller.next, n.caller.next);
    }
  }

  lemma SameBelowTwice(k: Line, k1: Line, j: Line, n: nat, m: nat)
    requires SameBelow(k, k1, n) && SameBelow(k1, j, m) && n <= m
    ensures SameBelow(k, j, n)
  {
  }

  // ----- the value map

  function Zipped(params: seq<ValueId>, args: seq<ValueId>): ValueMap
    requires |params| == |args|
  {
    if params == [] then map[] else Zipped(params[..|params| - 1], args[..|args| - 1])[params[|params| - 1] := args[|args| - 1]]
  }

  /** A constant of the callee as a new value of the caller. */
  function Materialized(c: Caller, k: Constant): (Caller, ValueId) {
    (Caller(c.constants[c.next := k], c.next + 1), c.next)
  }

  /** What the plan records about the callee: a straight-line body, the constants
      by their values, and that parameters and results are no constants. */
  ghost predicate PlanOk(p: Plan, callee: Constants) {
    && BodyOk(p.body)
    && (forall v :: v in p.constants ==> v in callee && callee[v] == p.constants[v])
    && (forall v :: v in p.calleeArgs ==> v !in callee)
    && (forall x :: 0 <= x < |p.body| && p.body[x].result.Some? ==> p.body[x].result.value !in callee)
  }

  lemma PlanParts(p: Plan, callee: Constants)
    requires PlanOk(p, callee)
    ensures BodyOk(p.body) && forall x :: 0 <= x < |p.body| && p.body[x].result.Some? ==> p.body[x].result.value !in callee
  {
  }

  /** Where a mapped value comes from. */
  ghost predicate Entry(p: Plan, callArgs: seq<ValueId>, c0: Caller, c: Caller, vm: ValueMap, v: ValueId)
    requires v in vm && |p.calleeArgs| == |callArgs|
  {
    if v in p.constants && c0.next <= vm[v] then
      vm[v] in c.constants && c.constants[vm[v]] == p.constants[v]
    else v in Zipped(p.calleeArgs, callArgs) && vm[v] == Zipped(p.calleeArgs, callArgs)[v]
  }

  /** The caller with its new constants, and the map built for the plan. */
  ghost predicate MapOk(p: Plan, callArgs: seq<ValueId>, c0: Caller, c: Caller, vm: ValueMap)
    requires |p.calleeArgs| == |callArgs|
  {
    && CallerOk(c) && c0.next <= c.next
    && (forall v :: v < c0.next ==> (v in c.constants <==> v in c0.constants) && (v in c.constants ==> c.constants[v] == c0.constants[v]))
    && (forall v {:trigger v in vm} :: v in vm ==> Entry(p, callArgs, c0, c, vm, v))
  }

  lemma {:induction false} ZippedKeys(params: seq<ValueId>, args: seq<ValueId>)
    requires |params| == |args|
    ensures forall v :: v in Zipped(params, args) <==> v in params
    ensures forall v :: v in Zipped(params, args) ==> Zipped(params, args)[v] in args
  {
    if params != [] {
      var n := |params| - 1;
      ZippedKeys(params[..n], args[..n]);
      assert params == params[..n] + [params[n]] && args == args[..n] + [args[n]];
    }
  }

  /** `build_splice_value_map`. */
  method BuildValueMap(p: Plan, caller: Caller, callArgs: seq<ValueId>) returns (r: Option<(Caller, ValueMap)>)
    requires CallerOk(caller) && forall v :: v in callArgs ==> v < caller.next
    ensures r.Some? <==> |p.calleeArgs| == |callArgs|
    ensures r.Some? ==> MapOk(p, callArgs, caller, r.value.0, r.value.1)
    ensures r.Some? ==> forall v :: v in r.value.1 <==> v in p.calleeArgs || v in p.constants
  {
    if |p.calleeArgs| != |callArgs| { return None; }
    var vm: ValueMap, k := map[], 0;
    while k < |callArgs|
      invariant 0 <= k <= |callArgs| && vm == Zipped(p.calleeArgs[..k], callArgs[..k])
    {
      assert p.calleeArgs[..k + 1][..k] == p.calleeArgs[..k] && callArgs[..k + 1][..k] == callArgs[..k];
      vm := vm[p.calleeArgs[k] := callArgs[k]];
      k := k + 1;
    }
    assert p.calleeArgs[..k] == p.calleeArgs && callArgs[..k] == callArgs;
    ZippedKeys(p.calleeArgs, callArgs);
    var c, rest := caller, p.constants.Keys;
    assert MapOk(p, callArgs, caller, c, vm);
    while rest != {}
      invariant rest <= p.constants.Keys && MapOk(p, callArgs, caller, c, vm)
      invariant forall v :: v in vm <==> v in p.calleeArgs || v in p.constants.Keys - rest
      decreases |rest|
    {
      var v: ValueId :| v in rest;
      rest := rest - {v};
      MaterializedOk(p, callArgs, caller, c, vm, v);
      var (d, n) := Materialized(c, p.constants[v]);
      c, vm := d, vm[v := n];
    }
    r := Some((c, vm));
  }

  lemma MaterializedOk(p: Plan, callArgs: seq<ValueId>, c0: Caller, c: Caller, vm: ValueMap, v: ValueId)
    requires |p.calleeArgs| == |callArgs| && MapOk(p, callArgs, c0, c, vm) && v in p.constants
    ensures var (d, n) := Materialized(c, p.constants[v]); MapOk(p, callArgs, c0, d, vm[v := n])
  {
    hide Zipped;
    var (d, n) := Materialized(c, p.constants[v]);
    var wm := vm[v := n];
    forall w | w in wm ensures Entry(p, callArgs, c0, d, wm, w) {
      if w != v { assert w in vm && Entry(p, callArgs, c0, c, vm, w); }
    }
  }

  function ArgValues(consts: Constants, k: Line, args: seq<ValueId>): (r: seq<EvalValue>)
    ensures |r| == |args|
  {
    if args == [] then [] else ArgValues(consts, k, args[..|args| - 1]) + [ValueIn(consts, k, args[|args| - 1])]
  }

  lemma {:induction false} ParamsAgree(params: seq<ValueId>, args: seq<ValueId>, consts: Constants, k: Line, v: ValueId)
    requires |params| == |args|
    ensures var m := ArgMap(params, ArgValues(consts, k, args));
      (v in m <==> v in Zipped(params, args)) && (v in m ==> m[v] == ValueIn(consts, k, Zipped(params, args)[v]))
  {
    if params != [] {
      var n := |params| - 1;
      var vals := ArgValues(consts, k, args);
      assert vals[..n] == ArgValues(consts, k, args[..n]);
      ParamsAgree(params[..n], args[..n], consts, k, v);
    }
  }

  /** Before the body runs, mapped values agree. */
  lemma AgreeAtStart(p: Plan, callee: Constants, callArgs: seq<ValueId>, c0: Caller, c: Caller, vm: ValueMap, k: Line)
    requires PlanOk(p, callee) && |p.calleeArgs| == |callArgs| && MapOk(p, callArgs, c0, c, vm)
    requires (forall v :: v in callArgs ==> v < c0.next) && Clear(c.constants, k)
    ensures InStep(callee, Frame(p.calleeArgs, ArgValues(c0.constants, k, callArgs), k.effects), Copied(c, vm, []), k)
  {
    hide Zipped, BodyOk;
    ZippedKeys(p.calleeArgs, callArgs);
    var l := Frame(p.calleeArgs, ArgValues(c0.constants, k, callArgs), k.effects);
    forall v | v in vm ensures ValueIn(callee, l, v) == ValueIn(c.constants, k, vm[v]) && vm[v] < c.next {
      assert Entry(p, callArgs, c0, c, vm, v);
      ParamsAgree(p.calleeArgs, callArgs, c0.constants, k, v);
    }
  }

  // ----- the splice

  /** The caller's values, the instructions that take the place of the call, and
      what the result of the call now stands for. */
  datatype Spliced = Spliced(caller: Caller, body: seq<Template>, alias: Option<ValueId>)

  /** Doing the call in a fresh frame and running the spliced body, be it the
      first time or again, leave the same effects, the same value for every value
      the caller had, and for the result of the call the value the callee returns. */
  ghost predicate SameAsCall(callee: Constants, p: Plan, callArgs: seq<ValueId>, caller: Caller, r: Spliced, outside: Outside, k: Line)
    requires |p.calleeArgs| == |callArgs|
  {
    var call := Exec(callee, outside, Frame(p.calleeArgs, ArgValues(caller.constants, k, callArgs), k.effects), p.body);
    Clear(r.caller.constants, k) && call.Some? ==>
      var j := Exec(r.caller.constants, outside, k, r.body);
      && j.Some? && j.value.effects == call.value.effects && Clear(r.caller.constants, j.value)
      && (forall v: ValueId :: v < caller.next ==> ValueIn(r.caller.constants, j.value, v) == ValueIn(caller.constants, k, v))
      && (p.ret.Some? && r.alias.Some? ==> ValueIn(r.caller.constants, j.value, r.alias.value) == ValueIn(callee, call.value, p.ret.value))
  }

  lemma SpliceRight(callee: Constants, p: Plan, callArgs: seq<ValueId>, caller: Caller, c: Caller, vm: ValueMap, hasResult: bool, outside: Outside, k: Line)
    requires PlanOk(p, callee) && |p.calleeArgs| == |callArgs| && MapOk(p, callArgs, caller, c, vm) && FlowOk(p.body, p.ret, vm.Keys)
    requires forall v :: v in callArgs ==> v < caller.next
    ensures var r := CopyAll(Copied(c, vm, []), p.body, p.ret);
      SameAsCall(callee, p, callArgs, caller, Spliced(r.caller, r.body, if hasResult && p.ret.Some? then Some(r.vm[p.ret.value]) else None), outside, k)
  {
    hide Exec, FlowOk, MapOk, SameBelow, PlanOk, Clear;
    PlanParts(p, callee);
    var l := Frame(p.calleeArgs, ArgValues(caller.constants, k, callArgs), k.effects);
    var s := Copied(c, vm, []);
    CopyAllShape(s, p.body, p.ret);
    if Clear(c.constants, k) && Exec(callee, outside, l, p.body).Some? {
      AgreeAtStart(p, callee, callArgs, caller, c, vm, k);
      var j := CopyAllRuns(callee, outside, l, s, k, p.body, p.ret);
      var r := CopyAll(s, p.body, p.ret);
      assert r.body[0..] == r.body;
      OthersStay(p, callArgs, caller, c, vm, k, j);
      if p.ret.Some? { assert p.ret.value in r.vm; }
    }
  }

  /** Nothing the caller had, and no constant, is touched. */
  lemma OthersStay(p: Plan, callArgs: seq<ValueId>, c0: Caller, c: Caller, vm: ValueMap, k: Line, j: Line)
    requires |p.calleeArgs| == |callArgs| && MapOk(p, callArgs, c0, c, vm) && SameBelow(k, j, c.next)
    ensures forall v: ValueId :: v < c0.next ==> ValueIn(c.constants, j, v) == ValueIn(c0.constants, k, v)
    ensures Clear(c.constants, k) ==> Clear(c.constants, j)
  {
    hide Entry, Zipped;
  }

  lemma CopiedKeys(s: Copied, t: Template)
    requires Straight(t.inst) && Mapped(t.inst, s.vm)
    ensures CopyInst(s, t).vm.Keys == if t.result.Some? then s.vm.Keys + {t.result.value} else s.vm.Keys
  {
  }

  /** `apply_splice_body`: validation has made sure that every operand is mapped. */
  method ApplySpliceBody(s0: Copied, body: seq<Template>, ghost required: Option<ValueId>) returns (s: Copied)
    requires BodyOk(body) && FlowOk(body, required, s0.vm.Keys)
    ensures s == CopyAll(s0, body, required)
  {
    hide CopyInst;
    s := s0;
    var k := 0;
    while k < |body|
      invariant 0 <= k <= |body| && FlowOk(body[k..], required, s.vm.Keys)
      invariant CopyAll(s0, body, required) == CopyAll(s, body[k..], required)
    {
      assert body[k..][1..] == body[k + 1..];
      CopiedKeys(s, body[k]);
      s := CopyInst(s, body[k]);
      k := k + 1;
    }
  }

  /** `apply_splice_single_block`: declines a call that wants a result the callee
      does not return, a wrong number of arguments, or a body whose values do not
      flow; otherwise the splice does what the call does. */
  method SpliceSingleBlock(callee: Constants, p: Plan, caller: Caller, callArgs: seq<ValueId>, hasResult: bool) returns (r: Option<Spliced>)
    requires PlanOk(p, callee) && CallerOk(caller) && forall v :: v in callArgs ==> v < caller.next
    ensures r.Some? <==> !(hasResult && p.ret.None?) && |p.calleeArgs| == |callArgs| && Flows(p.body, p.ret, (set v | v in p.calleeArgs) + p.constants.Keys)
    ensures r.Some? ==> (r.value.alias.Some? <==> hasResult)
    ensures r.Some? ==> forall outside: Outside, k: Line {:trigger SameAsCall(callee, p, callArgs, caller, r.value, outside, k)} ::
      SameAsCall(callee, p, callArgs, caller, r.value, outside, k)
  {
    hide SameAsCall, FlowOk, MapOk, CopyAll, Flows;
    if hasResult && p.ret.None? { return None; }
    var built := BuildValueMap(p, caller, callArgs);
    if built.None? { return None; }
    var (c, vm) := built.value;
    assert vm.Keys == (set v | v in p.calleeArgs) + p.constants.Keys;
    var ok := ValidateValueFlow(p.body, p.ret, vm.Keys);
    if !ok { return None; }
    var s := ApplySpliceBody(Copied(c, vm, []), p.body, p.ret);
    r := Some(Spliced(s.caller, s.body, if hasResult && p.ret.Some? then Some(s.vm[p.ret.value]) else None));
    forall outside: Outside, k: Line ensures SameAsCall(callee, p, callArgs, caller, r.value, outside, k) {
      SpliceRight(callee, p, callArgs, caller, c, vm, hasResult, outside, k);
    }
  }

  // ----- the same instructions in the interpreter

  /** The locals and effects of a line are those of a frame of the interpreter. */
  ghost predicate SameFrame(f: Function, m: Machine, consts: Constants, l: Line) {
    && l.locals == m.locals && |l.effects| == |m.events|
    && (forall k :: 0 <= k < |l.effects| ==> l.effects[k].1 == m.events[k].args)
    && (forall v: ValueId {:trigger f.Data(v)} :: f.Data(v).Immediate? <==> v in consts && consts[v].ImmOf?)
    && (forall v: ValueId {:trigger f.Data(v)} :: f.Data(v).Immediate? ==> f.Data(v).imm == consts[v].imm)
  }

  lemma SameReading(f: Function, m: Machine, consts: Constants, l: Line, inst: Inst)
    requires SameFrame(f, m, consts, l) && Straight(inst)
    ensures Evaluable(Values(f, m), inst) <==> Evaluable(ValuesIn(consts, l.locals), inst)
    ensures IsPure(inst) && Evaluable(Values(f, m), inst) ==> Evaluate(Values(f, m), inst) == Evaluate(ValuesIn(consts, l.locals), inst)
    ensures inst.Effect? ==> Map(Values(f, m), inst.operands) == Map(ValuesIn(consts, l.locals), inst.operands)
  {
    var (val, wal) := (Values(f, m), ValuesIn(consts, l.locals));
    assert forall v: ValueId :: val(v) == wal(v);
    hide Apply, ApplyUnary, ApplyCast, WellSized, ValuesIn;
    if inst.Effect? { SameOn(val, wal, inst.operands); }
  }

  lemma {:induction false} SameOn(val: Valuation, wal: Valuation, vs: seq<ValueId>)
    requires forall v: ValueId :: val(v) == wal(v)
    ensures Map(val, vs) == Map(wal, vs)
  {
    if vs != [] { SameOn(val, wal, vs[1..]); }
  }

  /** Straight-line instructions run as in the interpreter: with the same answer
      from outside they set the same local and have the same effect. */
  lemma ExecIsStep(f: Function, world: World, m: Machine, consts: Constants, outside: Outside, l: Line)
    requires SameFrame(f, m, consts, l) && m.at < |f.Body(m.block)|
    requires var i := f.Body(m.block)[m.at]; Straight(f.At(i)) && outside(|l.effects|) == world(i, |m.events|)
    ensures var (i, o) := (f.Body(m.block)[m.at], Step(f, world, m));
      var e := ExecInst(consts, outside, l, Template(f.At(i), f.ResultOf(i)));
      && (o.Running? <==> e.Some?)
      && (e.Some? ==> SameFrame(f, o.m, consts, e.value) && o.m.block == m.block && o.m.at == m.at + 1)
      && (e.Some? && f.At(i).Effect? ==> |e.value.effects| == |l.effects| + 1 && e.value.effects[|l.effects|].0 == f.At(i).what)
      && (e.Some? && !f.At(i).Effect? ==> e.value.effects == l.effects)
  {
    var i := f.Body(m.block)[m.at];
    SameReading(f, m, consts, l, f.At(i));
    hide Evaluate, Evaluable, Map, Values, ValuesIn;
  }
}
