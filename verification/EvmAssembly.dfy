/**
 The EVM as a backend (crates/codegen/src/isa/evm/mod.rs), and what the machine
 reads in a linked section.
 */
module EvmAssembly {
  import opened Options
  import opened Assembly
  import opened Linking
  import opened LinkFacts

  datatype PushWidthPolicy = Push4 | MinimalRelax

  const PUSH0: nat := 0x5f

  /** Big-endian without leading zeros. */
  function Minimal(v: nat): (bs: seq<Byte>)
    ensures v == 0 <==> bs == []
  {
    if v == 0 then [] else Minimal(v / 256) + [v % 256]
  }

  /** `n` big-endian bytes. */
  function Fixed(v: nat, n: nat): (bs: seq<Byte>)
    ensures |bs| == n
  {
    if n == 0 then [] else Fixed(v / 256, n - 1) + [v % 256]
  }

  function Decode(bs: seq<Byte>): nat {
    if bs == [] then 0 else 256 * Decode(bs[..|bs| - 1]) + bs[|bs| - 1]
  }

  function PushOp(n: nat): Op { PUSH0 + n }

  function Power(n: nat): nat { if n == 0 then 1 else 256 * Power(n - 1) }

  // ----- the machine

  /** The machine's pushes: 0x5f takes no operand, 0x60 to 0x7f take 1 to 32 bytes. */
  function PushWidth(opcode: Byte): Option<nat> {
    if 0x5f <= opcode <= 0x7f then Some(opcode - 0x5f) else None
  }

  /** A number as the machine reads it, the most significant byte first. */
  function BigEndian(bs: seq<Byte>): nat {
    if bs == [] then 0 else bs[0] * Power(|bs| - 1) + BigEndian(bs[1..])
  }

  datatype Step = Step(opcode: Byte, operand: seq<Byte>)

  /** The instruction at the start of `code` and what follows it; only a push has
      an operand. */
  function ReadStep(code: seq<Byte>): Option<(Step, seq<Byte>)> {
    if code == [] then None
    else
      var n := if PushWidth(code[0]).Some? then PushWidth(code[0]).value else 0;
      if n >= |code| then None else Some((Step(code[0], code[1..n + 1]), code[n + 1..]))
  }

  /** The number pushed by the push at the start of `code`, and what follows it. */
  function ReadPush(code: seq<Byte>): Option<(nat, seq<Byte>)> {
    if code == [] || PushWidth(code[0]).None? then None
    else match ReadStep(code)
         case None => None
         case Some(read) => Some((BigEndian(read.0.operand), read.1))
  }

  /** The first `n` instructions of `code` and what follows them. */
  function ReadSteps(code: seq<Byte>, n: nat): Option<(seq<Step>, seq<Byte>)> {
    if n == 0 then Some(([], code))
    else match ReadStep(code)
         case None => None
         case Some(first) =>
           match ReadSteps(first.1, n - 1)
           case None => None
           case Some(more) => Some(([first.0] + more.0, more.1))
  }

  lemma {:induction false} BigEndianLast(bs: seq<Byte>)
    requires bs != []
    ensures BigEndian(bs) == 256 * BigEndian(bs[..|bs| - 1]) + bs[|bs| - 1]
  {
    var n := |bs| - 1;
    if n > 0 {
      BigEndianLast(bs[1..]);
      assert bs[..n][1..] == bs[1..][..n - 1];
      var (first, high, low) := (bs[0], Power(n - 1), BigEndian(bs[..n][1..]));
      assert first * (256 * high) == 256 * (first * high);
    }
  }

  /** Both ways of reading big-endian bytes agree. */
  lemma {:induction false} DecodeIsBigEndian(bs: seq<Byte>)
    ensures Decode(bs) == BigEndian(bs)
  {
    if bs != [] {
      BigEndianLast(bs);
      DecodeIsBigEndian(bs[..|bs| - 1]);
    }
  }

  lemma StepRead(op: Byte, operand: seq<Byte>, rest: seq<Byte>)
    requires |operand| == if PushWidth(op).Some? then PushWidth(op).value else 0
    ensures ReadStep([op] + operand + rest) == Some((Step(op, operand), rest))
    ensures ([op] + operand + rest)[0] == op
  {
    hide PushWidth;
    var (code, n) := ([op] + operand + rest, |operand|);
    assert code[0] == op && code[1..n + 1] == operand && code[n + 1..] == rest;
  }

  /** The machine reads a push of up to 32 bytes as the number they encode, and
      goes on right after them. */
  lemma PushReadsBack(bs: seq<Byte>, rest: seq<Byte>)
    requires |bs| <= 32
    ensures PushOp(|bs|) < 256 && ReadPush([PushOp(|bs|)] + bs + rest) == Some((Decode(bs), rest))
  {
    OpWidth(|bs|);
    DecodeIsBigEndian(bs);
    hide BigEndian, Decode, PushWidth;
    StepRead(PushOp(|bs|), bs, rest);
  }

  // ----- the backend

  function PushBytes(v: nat, policy: PushWidthPolicy): seq<Byte> {
    if policy == Push4 then Fixed(v, 4) else Minimal(v)
  }

  /** `EvmBackend::apply_sym_fixup`. */
  function ApplySymFixup(policy: PushWidthPolicy, op: Op, current: Option<seq<Byte>>, value: nat): Applied {
    if current.None? then Failed
    else
      var bytes := PushBytes(value, policy);
      if current.value == bytes then Applied(op, bytes, Unchanged)
      else Applied(PushOp(|bytes|), bytes, if |current.value| != |bytes| then LayoutChanged else ContentChanged)
  }

  function Evm(policy: PushWidthPolicy): Backend {
    Backend(
      1,
      (op: Op, a: nat) => PushOp(|Minimal(a)|),
      (op: Op, a: nat) => Minimal(a),
      (op: Op, bs: seq<Byte>) => PushOp(|bs|),
      (op: Op) => [op % 256],
      (bs: seq<Byte>) => bs,
      (a: nat) => Minimal(a),
      (op: Op, current: Option<seq<Byte>>, v: nat) => ApplySymFixup(policy, op, current, v),
      (v: nat) => PushBytes(v, policy),
      (bs: seq<Byte>) => Decode(bs),
      (op: Op, n: nat) => n <= 32 ==> PushWidth(op % 256) == Some(n))
  }

  lemma {:induction false} MinimalReadsBack(v: nat)
    ensures Decode(Minimal(v)) == v
  {
    if v > 0 {
      MinimalReadsBack(v / 256);
      assert Minimal(v)[..|Minimal(v)| - 1] == Minimal(v / 256);
    }
  }

  lemma {:induction false} FixedReadsBack(v: nat, n: nat)
    requires v < Power(n)
    ensures Decode(Fixed(v, n)) == v
  {
    if n > 0 {
      FixedReadsBack(v / 256, n - 1);
      assert Fixed(v, n)[..n - 1] == Fixed(v / 256, n - 1);
    }
  }

  /** No shorter sequence of bytes reads as `v`. */
  lemma {:induction false} MinimalIsShortest(v: nat, bs: seq<Byte>)
    requires Decode(bs) == v
    ensures |Minimal(v)| <= |bs|
  {
    if v > 0 {
      assert bs != [];
      MinimalIsShortest(v / 256, bs[..|bs| - 1]);
    }
  }

  lemma PushBytesRead(v: nat, policy: PushWidthPolicy)
    requires v <= U32_MAX
    ensures Decode(PushBytes(v, policy)) == v && |PushBytes(v, policy)| <= 4
    ensures policy == Push4 ==> |PushBytes(v, policy)| == 4
    ensures policy == MinimalRelax ==> forall bs :: Decode(bs) == v ==> |PushBytes(v, policy)| <= |bs|
  {
    assert Power(4) == U32_MAX + 1;
    FixedReadsBack(v, 4);
    MinimalReadsBack(v);
    MinimalIsShortest(v, Fixed(v, 4));
    forall bs | Decode(bs) == v ensures |Minimal(v)| <= |bs| { MinimalIsShortest(v, bs); }
  }

  lemma OpWidth(n: nat)
    ensures n <= 32 ==> PushWidth(PushOp(n) % 256) == Some(n)
  {
  }

  /** A symbol fixup writes the value and reports what that changes. */
  predicate FixupRight(policy: PushWidthPolicy, op: Op, current: Option<seq<Byte>>, v: nat) {
    match ApplySymFixup(policy, op, current, v)
    case Failed => current.None?
    case Applied(op', bytes, update) =>
      && current.Some? && bytes == PushBytes(v, policy)
      && (update == Unchanged <==> bytes == current.value)
      && (update == LayoutChanged <==> |bytes| != |current.value|)
      && (if update == Unchanged then op' == op else |bytes| <= 32 ==> PushWidth(op' % 256) == Some(|bytes|))
  }

  lemma FixupApplied(policy: PushWidthPolicy, op: Op, current: Option<seq<Byte>>, v: nat)
    ensures FixupRight(policy, op, current, v)
  {
    OpWidth(|PushBytes(v, policy)|);
    hide PushBytes, PushOp, PushWidth;
  }

  /** The EVM's encodings do what linking needs of a backend, and a symbol fixup
      is refused exactly when the instruction has no immediate. */
  lemma EvmMeetsContract(policy: PushWidthPolicy)
    ensures Contract(Evm(policy))
    ensures forall op: Op, current: Option<seq<Byte>>, v: nat :: Evm(policy).applyFixup(op, current, v).Failed? <==> current.None?
  {
    var b := Evm(policy);
    forall a: nat ensures b.decode(b.emitLabel(a)) == a { MinimalReadsBack(a); }
    forall v: nat | v <= U32_MAX ensures b.decode(b.symBytes(v)) == v { PushBytesRead(v, policy); }
    hide Minimal, PushBytes, Decode, ApplySymFixup, PushOp, PushWidth;
    forall op: Op, bs: seq<Byte> ensures b.announces(b.immediateOp(op, bs), |bs|) { OpWidth(|bs|); }
    forall op: Op, a: nat ensures b.announces(b.labelOp(op, a), |b.emitLabel(a)|) { OpWidth(|Minimal(a)|); }
    forall op: Op, current: Option<seq<Byte>>, v: nat | b.applyFixup(op, current, v).Applied?
      ensures var r := b.applyFixup(op, current, v);
        && current.Some? && r.bytes == b.symBytes(v)
        && (r.update == Unchanged <==> r.bytes == current.value)
        && (r.update == LayoutChanged <==> |r.bytes| != |current.value|)
        && (if r.update == Unchanged then r.op == op else b.announces(r.op, |r.bytes|))
    {
      FixupApplied(policy, op, current, v);
    }
    forall op: Op, current: Option<seq<Byte>>, v: nat ensures b.applyFixup(op, current, v).Failed? <==> current.None? { FixupApplied(policy, op, current, v); }
  }

  // ----- what the machine reads in a linked section

  /** What follows the opcode of `i`. */
  function Operand(l: FuncLayout, i: InsnId): seq<Byte> {
    if l.code.LabelOf(i).Some? then Minimal(Read(l.tables.labelTargets, l.code.LabelOf(i).value)) else ImmOf(l.imm, i)
  }

  function OpcodeOf(l: FuncLayout, i: InsnId): Byte { if i in l.ops then l.ops[i] % 256 else 0 }

  function InsnSteps(l: FuncLayout, insns: seq<InsnId>): seq<Step> {
    if insns == [] then [] else [Step(OpcodeOf(l, insns[0]), Operand(l, insns[0]))] + InsnSteps(l, insns[1..])
  }

  function BlockSteps(l: FuncLayout, blocks: seq<BlockId>): seq<Step> {
    if blocks == [] then [] else InsnSteps(l, l.code.Insns(blocks[0])) + BlockSteps(l, blocks[1..])
  }

  /** The instructions of the functions, block by block. */
  function AllSteps(m: Layouts, order: seq<FuncRef>): seq<Step> {
    if order == [] then []
    else (if order[0] in m then BlockSteps(m[order[0]], m[order[0]].code.order) else []) + AllSteps(m, order[1..])
  }

  /** The operand is as wide as the opcode says. */
  predicate Readable(l: FuncLayout, i: InsnId) {
    && (l.code.LabelOf(i).Some? ==> i !in l.imm)
    && |Operand(l, i)| == if PushWidth(OpcodeOf(l, i)).Some? then PushWidth(OpcodeOf(l, i)).value else 0
  }

  predicate AllReadable(l: FuncLayout, insns: seq<InsnId>) {
    forall k {:trigger insns[k]} :: 0 <= k < |insns| ==> Readable(l, insns[k])
  }

  lemma InsnRead(policy: PushWidthPolicy, l: FuncLayout, i: InsnId, rest: seq<Byte>)
    requires Readable(l, i)
    ensures InsnBytes(Evm(policy), l, i) == [OpcodeOf(l, i)] + Operand(l, i)
    ensures ReadStep(InsnBytes(Evm(policy), l, i) + rest) == Some((Step(OpcodeOf(l, i), Operand(l, i)), rest))
  {
    hide PushWidth, Minimal, ReadStep;
    StepRead(OpcodeOf(l, i), Operand(l, i), rest);
    assert InsnBytes(Evm(policy), l, i) == [OpcodeOf(l, i)] + Operand(l, i);
  }

  lemma {:induction false} StepsJoin(code: seq<Byte>, n: nat, m: nat)
    requires ReadSteps(code, n).Some?
    ensures var first := ReadSteps(code, n).value; var more := ReadSteps(first.1, m);
      ReadSteps(code, n + m) == if more.None? then None else Some((first.0 + more.value.0, more.value.1))
    decreases n
  {
    hide ReadStep;
    if n > 0 {
      var first := ReadStep(code).value;
      StepsJoin(first.1, n - 1, m);
      assert forall x: seq<Step>, y: seq<Step> :: [first.0] + (x + y) == ([first.0] + x) + y;
    } else {
      assert forall x: seq<Step> :: [] + x == x;
    }
  }

  lemma {:induction false} InsnsRead(policy: PushWidthPolicy, l: FuncLayout, insns: seq<InsnId>, rest: seq<Byte>)
    requires AllReadable(l, insns)
    ensures ReadSteps(InsnsBytes(Evm(policy), l, insns) + rest, |InsnSteps(l, insns)|) == Some((InsnSteps(l, insns), rest))
    decreases |insns|
  {
    hide Readable, InsnBytes, Operand, OpcodeOf, ReadStep;
    if insns != [] {
      var more := InsnsBytes(Evm(policy), l, insns[1..]) + rest;
      InsnRead(policy, l, insns[0], more);
      assert forall k :: 0 <= k < |insns[1..]| ==> insns[1..][k] == insns[k + 1];
      InsnsRead(policy, l, insns[1..], rest);
      assert InsnsBytes(Evm(policy), l, insns) + rest == InsnBytes(Evm(policy), l, insns[0]) + more;
    } else {
      assert InsnsBytes(Evm(policy), l, insns) + rest == rest;
    }
  }

  lemma {:induction false} BlocksRead(policy: PushWidthPolicy, l: FuncLayout, blocks: seq<BlockId>, rest: seq<Byte>)
    requires forall k {:trigger blocks[k]} :: 0 <= k < |blocks| ==> AllReadable(l, l.code.Insns(blocks[k]))
    ensures ReadSteps(BlocksBytes(Evm(policy), l, blocks) + rest, |BlockSteps(l, blocks)|) == Some((BlockSteps(l, blocks), rest))
    decreases |blocks|
  {
    hide InsnSteps, ReadSteps, AllReadable, InsnsBytes;
    if blocks != [] {
      var (insns, code, more) := (l.code.Insns(blocks[0]), BlocksBytes(Evm(policy), l, blocks) + rest, BlocksBytes(Evm(policy), l, blocks[1..]) + rest);
      InsnsRead(policy, l, insns, more);
      assert code == InsnsBytes(Evm(policy), l, insns) + more;
      assert forall k :: 0 <= k < |blocks[1..]| ==> blocks[1..][k] == blocks[k + 1];
      BlocksRead(policy, l, blocks[1..], rest);
      StepsJoin(code, |InsnSteps(l, insns)|, |BlockSteps(l, blocks[1..])|);
    } else {
      assert BlocksBytes(Evm(policy), l, blocks) + rest == rest;
      NoStep(rest);
    }
  }

  lemma NoStep(code: seq<Byte>)
    ensures ReadSteps(code, 0) == Some(([], code))
  {
  }

  /** Every instruction of the function is as wide as its opcode says. */
  predicate FuncReadable(l: FuncLayout) {
    forall k {:trigger l.code.order[k]} :: 0 <= k < |l.code.order| ==> AllReadable(l, l.code.Insns(l.code.order[k]))
  }

  lemma {:induction false} CodeRead(policy: PushWidthPolicy, m: Layouts, order: seq<FuncRef>, rest: seq<Byte>)
    requires forall f :: f in order ==> f in m && FuncReadable(m[f])
    ensures ReadSteps(CodeBytes(Evm(policy), m, order) + rest, |AllSteps(m, order)|) == Some((AllSteps(m, order), rest))
    decreases |order|
  {
    hide BlockSteps, ReadSteps, FuncReadable, FuncBytes, Evm, CodeBytes;
    if order != [] {
      var (l, code, more) := (m[order[0]], CodeBytes(Evm(policy), m, order) + rest, CodeBytes(Evm(policy), m, order[1..]) + rest);
      FuncRead(policy, l, more);
      CodeFirst(Evm(policy), m, order, rest);
      CodeRead(policy, m, order[1..], rest);
      StepsJoin(code, |BlockSteps(l, l.code.order)|, |AllSteps(m, order[1..])|);
    } else {
      NoCode(Evm(policy), m, rest);
      NoStep(rest);
    }
  }

  lemma NoCode(b: Backend, m: Layouts, rest: seq<Byte>)
    ensures CodeBytes(b, m, []) + rest == rest
  {
  }

  lemma CodeFirst(b: Backend, m: Layouts, order: seq<FuncRef>, rest: seq<Byte>)
    requires order != [] && order[0] in m
    ensures CodeBytes(b, m, order) + rest == FuncBytes(b, m[order[0]]) + (CodeBytes(b, m, order[1..]) + rest)
  {
    hide FuncBytes;
  }

  lemma FuncRead(policy: PushWidthPolicy, l: FuncLayout, rest: seq<Byte>)
    requires FuncReadable(l)
    ensures ReadSteps(FuncBytes(Evm(policy), l) + rest, |BlockSteps(l, l.code.order)|) == Some((BlockSteps(l, l.code.order), rest))
  {
    hide BlockSteps, ReadSteps, AllReadable, BlocksBytes;
    BlocksRead(policy, l, l.code.order, rest);
  }

  /** What the label stands for is part of the section. */
  predicate Inside(order: seq<FuncRef>, l: FuncLayout, target: Label) {
    match target
    case FuncLabel(g) => g in order
    case BlockLabel(k) => k in l.code.order
    case InsnLabel(i) => LaidOut(l, i)
  }

  /** A label inside the section, or an immediate, or neither; a lowered immediate
      fits a push, and an opcode alone is no push with an operand. */
  predicate Ordinary(order: seq<FuncRef>, l: FuncLayout, i: InsnId) {
    && (l.code.LabelOf(i).Some? ==> i !in l.imm && l.code.LabelOf(i).value in l.code.labels && Inside(order, l, l.code.labels[l.code.LabelOf(i).value]))
    && (i in l.imm && !OfSymbol(l, i) ==> |l.imm[i]| <= 32)
    && (Plain(l, i) ==> !(0x60 <= l.ops[i] % 256 <= 0x7f))
  }

  lemma LabelShort(policy: PushWidthPolicy, order: seq<FuncRef>, m: Layouts, fo: map<FuncRef, nat>, data: seq<Blob>, embeds: seq<Blob>, table: SymTab, bytes: seq<Byte>, f: FuncRef, i: InsnId)
    requires SelfConsistent(Evm(policy), order, m, fo, data, embeds, table, bytes) && f in order && f in m
    requires LaidOut(m[f], i) && m[f].code.LabelOf(i).Some? && Ordinary(order, m[f], i)
    ensures |Operand(m[f], i)| <= 4
  {
    var (l, lab) := (m[f], m[f].code.LabelOf(i).value);
    assert |bytes| <= U32_MAX;
    EvmMeetsContract(policy);
    LabelsPointHome(Evm(policy), order, m, fo, data, embeds, table, bytes, f, i);
    var a := Read(l.tables.labelTargets, lab);
    match l.code.labels[lab] {
      case FuncLabel(g) => OffsetsRecorded(Evm(policy), order, m, fo, data, embeds, table, bytes, g);
      case _ =>
    }
    assert a <= |bytes|;
    ShortMinimal(a);
  }

  lemma ShortMinimal(v: nat)
    requires v <= U32_MAX
    ensures |Minimal(v)| <= 4
  {
    PushBytesRead(v, MinimalRelax);
  }

  lemma SymbolShort(policy: PushWidthPolicy, order: seq<FuncRef>, m: Layouts, fo: map<FuncRef, nat>, data: seq<Blob>, embeds: seq<Blob>, table: SymTab, bytes: seq<Byte>, p: Pending)
    requires SelfConsistent(Evm(policy), order, m, fo, data, embeds, table, bytes) && Asks(m, p)
    ensures Encoded(Evm(policy), m, table, p)
    ensures FixupValue(table, p.fixup).value <= U32_MAX && m[p.func].imm[p.insn] == PushBytes(FixupValue(table, p.fixup).value, policy)
    ensures |m[p.func].imm[p.insn]| <= 4
  {
    EncodedOf(Evm(policy), order, m, fo, data, embeds, table, bytes, p);
    assert Within(table, U32_MAX);
    hide SelfConsistent;
    assert table[p.fixup.sym].offset + table[p.fixup.sym].size <= U32_MAX;
    PushBytesRead(FixupValue(table, p.fixup).value, policy);
  }

  lemma OrdinaryReadable(policy: PushWidthPolicy, order: seq<FuncRef>, m: Layouts, fo: map<FuncRef, nat>, data: seq<Blob>, embeds: seq<Blob>, table: SymTab, bytes: seq<Byte>, f: FuncRef, i: InsnId)
    requires SelfConsistent(Evm(policy), order, m, fo, data, embeds, table, bytes) && f in order && f in m
    requires LaidOut(m[f], i) && Ordinary(order, m[f], i)
    ensures Readable(m[f], i)
  {
    hide SelfConsistent, Minimal, PushBytes, Decode, Inside;
    EvmMeetsContract(policy);
    hide Contract;
    var l := m[f];
    OffsetsRecorded(Evm(policy), order, m, fo, data, embeds, table, bytes, f);
    assert i in l.ops;
    if l.code.LabelOf(i).Some? {
      LabelShort(policy, order, m, fo, data, embeds, table, bytes, f, i);
    } else if OfSymbol(l, i) {
      SymbolShort(policy, order, m, fo, data, embeds, table, bytes, Pending(f, i, l.code.fixups[i].sym));
    }
    if l.code.LabelOf(i).Some? || i in l.imm {
      OpcodesAnnounce(Evm(policy), order, m, fo, data, embeds, table, bytes, f, i);
      assert InsnBytes(Evm(policy), l, i) == [OpcodeOf(l, i)] + Operand(l, i);
    } else {
      assert Plain(l, i);
    }
  }

  /** Reading a linked section instruction by instruction gives the instructions
      of its functions in their order, each with its label or immediate, and
      then the data and the embedded sections are left. */
  lemma SectionReadsBack(policy: PushWidthPolicy, order: seq<FuncRef>, m: Layouts, fo: map<FuncRef, nat>, data: seq<Blob>, embeds: seq<Blob>, table: SymTab, bytes: seq<Byte>)
    requires SelfConsistent(Evm(policy), order, m, fo, data, embeds, table, bytes)
    requires forall f, i {:trigger Ordinary(order, m[f], i)} :: f in order && f in m && LaidOut(m[f], i) ==> Ordinary(order, m[f], i)
    ensures ReadSteps(bytes, |AllSteps(m, order)|) == Some((AllSteps(m, order), Concat(data) + Concat(embeds)))
  {
    var b := Evm(policy);
    assert bytes == CodeBytes(b, m, order) + (Concat(data) + Concat(embeds));
    hide SelfConsistent, Readable, AllSteps, ReadSteps, CodeBytes, Concat, Ordinary;
    forall f | f in order ensures f in m && FuncReadable(m[f]) {
      OffsetsRecorded(b, order, m, fo, data, embeds, table, bytes, f);
      var l := m[f];
      forall k, j | 0 <= k < |l.code.order| && 0 <= j < |l.code.Insns(l.code.order[k])| ensures Readable(l, l.code.Insns(l.code.order[k])[j]) {
        var i := l.code.Insns(l.code.order[k])[j];
        assert l.code.order[k] in l.code.order && LaidOut(l, i);
        assert Ordinary(order, m[f], i);
        OrdinaryReadable(policy, order, m, fo, data, embeds, table, bytes, f, i);
      }
    }
    CodeRead(policy, m, order, Concat(data) + Concat(embeds));
  }

  /** Where an instruction with a label or an immediate stands the machine reads a push. */
  lemma PushAt(policy: PushWidthPolicy, l: FuncLayout, i: InsnId, bytes: seq<Byte>, pos: nat)
    requires Readable(l, i) && PushWidth(OpcodeOf(l, i)).Some? && Holds(bytes, pos, InsnBytes(Evm(policy), l, i))
    ensures pos + 1 + |Operand(l, i)| <= |bytes|
    ensures ReadPush(bytes[pos..]) == Some((Decode(Operand(l, i)), bytes[pos + 1 + |Operand(l, i)|..]))
  {
    hide PushWidth, Minimal, Decode, BigEndian, Operand;
    var insn := InsnBytes(Evm(policy), l, i);
    var rest := bytes[pos + |insn|..];
    InsnRead(policy, l, i, rest);
    assert bytes[pos..] == insn + rest;
    DecodeIsBigEndian(Operand(l, i));
  }

  /** At an instruction with a label the machine reads a push of the address where
      the label's target stands. */
  lemma LabelsReadBack(policy: PushWidthPolicy, order: seq<FuncRef>, m: Layouts, fo: map<FuncRef, nat>, data: seq<Blob>, embeds: seq<Blob>, table: SymTab, bytes: seq<Byte>, f: FuncRef, i: InsnId)
    requires SelfConsistent(Evm(policy), order, m, fo, data, embeds, table, bytes)
    requires f in order && f in m && LaidOut(m[f], i) && m[f].code.LabelOf(i).Some? && Ordinary(order, m[f], i)
    ensures var pos := Read(m[f].tables.insnOffsets, i);
      && pos <= |bytes| && ReadPush(bytes[pos..]).Some?
      && StandsAt(Evm(policy), order, m, m[f], m[f].code.labels[m[f].code.LabelOf(i).value], bytes, ReadPush(bytes[pos..]).value.0)
  {
    hide SelfConsistent, InsnBytes, Minimal, StandsAt, Inside, ReadPush;
    EvmMeetsContract(policy);
    hide Contract, Evm;
    OrdinaryReadable(policy, order, m, fo, data, embeds, table, bytes, f, i);
    AnnouncedPush(policy, order, m, fo, data, embeds, table, bytes, f, i);
    LabelsPointHome(Evm(policy), order, m, fo, data, embeds, table, bytes, f, i);
    PushAt(policy, m[f], i, bytes, Read(m[f].tables.insnOffsets, i));
    MinimalReadsBack(Read(m[f].tables.labelTargets, m[f].code.LabelOf(i).value));
  }

  lemma AnnouncedPush(policy: PushWidthPolicy, order: seq<FuncRef>, m: Layouts, fo: map<FuncRef, nat>, data: seq<Blob>, embeds: seq<Blob>, table: SymTab, bytes: seq<Byte>, f: FuncRef, i: InsnId)
    requires SelfConsistent(Evm(policy), order, m, fo, data, embeds, table, bytes)
    requires f in order && f in m && LaidOut(m[f], i) && Readable(m[f], i) && (m[f].code.LabelOf(i).Some? <==> i !in m[f].imm)
    ensures PushWidth(OpcodeOf(m[f], i)).Some?
  {
    hide SelfConsistent;
    EvmMeetsContract(policy);
    hide Contract;
    OpcodesAnnounce(Evm(policy), order, m, fo, data, embeds, table, bytes, f, i);
    InsnRead(policy, m[f], i, []);
    assert |Operand(m[f], i)| <= 32;
  }

  /** At an instruction with a symbol the machine reads a push of the offset or
      the size recorded for it, in four bytes or in as few as possible. */
  lemma SymbolsReadBack(policy: PushWidthPolicy, order: seq<FuncRef>, m: Layouts, fo: map<FuncRef, nat>, data: seq<Blob>, embeds: seq<Blob>, table: SymTab, bytes: seq<Byte>, p: Pending)
    requires SelfConsistent(Evm(policy), order, m, fo, data, embeds, table, bytes)
    requires p.func in order && Asks(m, p) && LaidOut(m[p.func], p.insn)
    ensures p.fixup.sym in table
    ensures var (pos, d) := (Read(m[p.func].tables.insnOffsets, p.insn), table[p.fixup.sym]);
      var v := if p.fixup.kind == Addr then d.offset else d.size;
      && pos <= |bytes| && ReadPush(bytes[pos..]).Some? && ReadPush(bytes[pos..]).value.0 == v
      && var width := |bytes| - pos - 1 - |ReadPush(bytes[pos..]).value.1|;
        (policy == Push4 ==> width == 4) && (policy == MinimalRelax ==> forall bs :: Decode(bs) == v ==> width <= |bs|)
  {
    hide SelfConsistent, InsnBytes, Minimal, PushBytes, ReadPush;
    EvmMeetsContract(policy);
    hide Contract;
    var (f, i) := (p.func, p.insn);
    SymbolShort(policy, order, m, fo, data, embeds, table, bytes, p);
    OffsetsRecorded(Evm(policy), order, m, fo, data, embeds, table, bytes, f);
    SymbolPush(policy, order, m, fo, data, embeds, table, bytes, p);
    PushBytesRead(FixupValue(table, p.fixup).value, policy);
    PushAt(policy, m[f], i, bytes, Read(m[f].tables.insnOffsets, i));
  }

  lemma SymbolPush(policy: PushWidthPolicy, order: seq<FuncRef>, m: Layouts, fo: map<FuncRef, nat>, data: seq<Blob>, embeds: seq<Blob>, table: SymTab, bytes: seq<Byte>, p: Pending)
    requires SelfConsistent(Evm(policy), order, m, fo, data, embeds, table, bytes)
    requires p.func in order && Asks(m, p) && LaidOut(m[p.func], p.insn)
    requires p.insn in m[p.func].imm && |m[p.func].imm[p.insn]| <= 4
    ensures Readable(m[p.func], p.insn) && PushWidth(OpcodeOf(m[p.func], p.insn)).Some?
    ensures Operand(m[p.func], p.insn) == m[p.func].imm[p.insn]
    ensures Holds(bytes, Read(m[p.func].tables.insnOffsets, p.insn), InsnBytes(Evm(policy), m[p.func], p.insn))
  {
    var (f, i) := (p.func, p.insn);
    EvmMeetsContract(policy);
    hide Contract, SelfConsistent, Minimal, PushWidth;
    OpcodesAnnounce(Evm(policy), order, m, fo, data, embeds, table, bytes, f, i);
    assert InsnBytes(Evm(policy), m[f], i) == [OpcodeOf(m[f], i)] + Operand(m[f], i);
    hide InsnBytes, Evm;
    SymbolImmediates(Evm(policy), order, m, fo, data, embeds, table, bytes, p);
  }
}
