/**
 Laying out and emitting machine code
 (crates/codegen/src/machinst/assemble.rs, vcode.rs and the assembling part of
 the backend interface in lower.rs).  Offsets, label widths and label values
 depend on each other; `Resize` moves them one pass closer together and reports
 whether anything moved.
 */
module Assembly {
  import opened Options

  type Byte = x: int | 0 <= x < 256
  type Op = nat
  type InsnId = nat
  type LabelId = nat
  type BlockId = nat
  type FuncRef = nat
  type Global = nat
  type Embed = nat

  datatype Symbol = FuncSym(func: FuncRef) | GlobalSym(global: Global) | EmbedSym(embed: Embed)

  datatype FixupKind = Addr | Size

  datatype SymFixup = SymFixup(kind: FixupKind, sym: Symbol)

  datatype Label = InsnLabel(insn: InsnId) | BlockLabel(block: BlockId) | FuncLabel(func: FuncRef)

  datatype Fixup = LabelRef(target: LabelId) | SymRef(sym: SymFixup)

  datatype FixupUpdate = Unchanged | ContentChanged | LayoutChanged

  /** A symbol fixup applied to an instruction and its immediate. */
  datatype Applied = Applied(op: Op, bytes: seq<Byte>, update: FixupUpdate) | Failed

  /** What `LowerBackend` contributes to assembling; `opSize` is the size of an
      instruction in memory, which the layout counts for its opcode. */
  datatype Backend = Backend(
    opSize: nat,
    labelOp: (Op, nat) -> Op,
    labelBytes: (Op, nat) -> seq<Byte>,
    immediateOp: (Op, seq<Byte>) -> Op,
    emitOpcode: Op -> seq<Byte>,
    emitImmediate: seq<Byte> -> seq<Byte>,
    emitLabel: nat -> seq<Byte>,
    applyFixup: (Op, Option<seq<Byte>>, nat) -> Applied,
    symBytes: nat -> seq<Byte>,
    decode: seq<Byte> -> nat,
    announces: (Op, nat) -> bool
  )

  const U32_MAX: nat := 0xFFFF_FFFF

  /** Emitted lengths are the ones counted, labels and symbol values are encoded
      so that they can be read back, a symbol fixup writes the encoding of its
      value and reports what that changes, and an opcode with bytes after it
      announces how many. */
  ghost predicate Contract(b: Backend) {
    && (forall op: Op {:trigger b.emitOpcode(op)} :: |b.emitOpcode(op)| == b.opSize)
    && (forall bs {:trigger b.emitImmediate(bs)} :: b.emitImmediate(bs) == bs)
    && (forall op: Op, a: nat {:trigger b.labelBytes(op, a)} :: b.labelBytes(op, a) == b.emitLabel(a))
    && (forall a: nat {:trigger b.emitLabel(a)} :: a <= U32_MAX ==> b.decode(b.emitLabel(a)) == a)
    && (forall op: Op, a: nat {:trigger b.labelOp(op, a)} :: b.announces(b.labelOp(op, a), |b.emitLabel(a)|))
    && (forall op, bs {:trigger b.immediateOp(op, bs)} :: b.announces(b.immediateOp(op, bs), |bs|))
    && (forall op: Op, old_: Option<seq<Byte>>, v: nat {:trigger b.applyFixup(op, old_, v)} ::
          b.applyFixup(op, old_, v).Applied? && v <= U32_MAX ==>
            var r := b.applyFixup(op, old_, v);
            && old_.Some? && r.bytes == b.symBytes(v)
            && (r.update == Unchanged <==> r.bytes == old_.value)
            && (r.update == LayoutChanged <==> |r.bytes| != |old_.value|)
            && (if r.update == Unchanged then r.op == op else b.announces(r.op, |r.bytes|)))
    && (forall v: nat {:trigger b.symBytes(v)} :: v <= U32_MAX ==> b.decode(b.symBytes(v)) == v)
  }

  /** A function's code apart from what assembling changes. */
  datatype Code = Code(
    fixups: map<InsnId, Fixup>,
    labels: map<LabelId, Label>,
    blocks: map<BlockId, seq<InsnId>>,
    order: seq<BlockId>
  ) {
    function Insns(block: BlockId): seq<InsnId> { if block in blocks then blocks[block] else [] }

    function LabelOf(i: InsnId): Option<LabelId> {
      if i in fixups && fixups[i].LabelRef? then Some(fixups[i].target) else None
    }
  }

  /** The tables of a function's layout; what is not recorded counts as 0. */
  datatype Tables = Tables(
    offset: nat,
    size: nat,
    blockOffsets: map<BlockId, nat>,
    insnOffsets: map<InsnId, nat>,
    labelTargets: map<LabelId, nat>
  )

  type Immediates = map<InsnId, seq<Byte>>

  datatype FuncLayout = FuncLayout(code: Code, ops: map<InsnId, Op>, imm: Immediates, tables: Tables)

  function Read(m: map<nat, nat>, k: nat): nat { if k in m then m[k] else 0 }

  function ImmOf(imm: Immediates, i: InsnId): seq<Byte> { if i in imm then imm[i] else [] }

  // ----- where things are when the tables agree with each other

  /** The address a label stands for, read off the tables. */
  function Address(c: Code, t: Tables, fo: map<FuncRef, nat>, l: LabelId): nat {
    if l !in c.labels then 0
    else match c.labels[l]
         case InsnLabel(i) => Read(t.insnOffsets, i)
         case BlockLabel(k) => Read(t.blockOffsets, k)
         case FuncLabel(f) => Read(fo, f)
  }

  function LabelLen(b: Backend, c: Code, t: Tables, i: InsnId): nat {
    if c.LabelOf(i).Some? then |b.emitLabel(Read(t.labelTargets, c.LabelOf(i).value))| else 0
  }

  function InsnLen(b: Backend, c: Code, imm: Immediates, t: Tables, i: InsnId): nat {
    b.opSize + LabelLen(b, c, t, i) + |ImmOf(imm, i)|
  }

  function InsnsEnd(b: Backend, c: Code, imm: Immediates, t: Tables, insns: seq<InsnId>, at: nat): nat
    decreases |insns|
  {
    if insns == [] then at else InsnsEnd(b, c, imm, t, insns[1..], at + InsnLen(b, c, imm, t, insns[0]))
  }

  function BlocksEnd(b: Backend, c: Code, imm: Immediates, t: Tables, blocks: seq<BlockId>, at: nat): nat
    decreases |blocks|
  {
    if blocks == [] then at
    else BlocksEnd(b, c, imm, t, blocks[1..], InsnsEnd(b, c, imm, t, c.Insns(blocks[0]), at))
  }

  predicate InsnSettled(c: Code, t: Tables, fo: map<FuncRef, nat>, i: InsnId, at: nat) {
    && Read(t.insnOffsets, i) == at
    && (c.LabelOf(i).Some? ==> Read(t.labelTargets, c.LabelOf(i).value) == Address(c, t, fo, c.LabelOf(i).value))
  }

  predicate InsnsSettled(b: Backend, c: Code, imm: Immediates, t: Tables, fo: map<FuncRef, nat>, insns: seq<InsnId>, at: nat)
    decreases |insns|
  {
    insns == [] ||
    (InsnSettled(c, t, fo, insns[0], at) &&
     InsnsSettled(b, c, imm, t, fo, insns[1..], at + InsnLen(b, c, imm, t, insns[0])))
  }

  predicate BlocksSettled(b: Backend, c: Code, imm: Immediates, t: Tables, fo: map<FuncRef, nat>, blocks: seq<BlockId>, at: nat)
    decreases |blocks|
  {
    blocks == [] ||
    (Read(t.blockOffsets, blocks[0]) == at &&
     InsnsSettled(b, c, imm, t, fo, c.Insns(blocks[0]), at) &&
     BlocksSettled(b, c, imm, t, fo, blocks[1..], InsnsEnd(b, c, imm, t, c.Insns(blocks[0]), at)))
  }

  /** Walking the function from its offset meets every recorded offset, and every
      recorded label target is the address its label stands for. */
  predicate FuncSettled(b: Backend, c: Code, imm: Immediates, t: Tables, fo: map<FuncRef, nat>) {
    BlocksSettled(b, c, imm, t, fo, c.order, t.offset) && BlocksEnd(b, c, imm, t, c.order, t.offset) == t.offset + t.size
  }

  /** The opcode of `i` announces the bytes after it, if it has a label or an
      immediate. */
  predicate OpFits(b: Backend, c: Code, ops: map<InsnId, Op>, imm: Immediates, t: Tables, i: InsnId) {
    if i in imm then i in ops && b.announces(ops[i], |imm[i]|)
    else c.LabelOf(i).Some? ==> i in ops && b.announces(ops[i], LabelLen(b, c, t, i))
  }

  predicate OpsFit(b: Backend, c: Code, ops: map<InsnId, Op>, imm: Immediates, t: Tables, insns: seq<InsnId>) {
    forall k {:trigger insns[k]} :: 0 <= k < |insns| ==> OpFits(b, c, ops, imm, t, insns[k])
  }

  predicate FuncFits(b: Backend, l: FuncLayout) {
    forall k {:trigger l.code.order[k]} :: 0 <= k < |l.code.order| ==> OpsFit(b, l.code, l.ops, l.imm, l.tables, l.code.Insns(l.code.order[k]))
  }

  /** The source indexes its instruction and label tables without a check. */
  predicate CodeOk(c: Code, ops: map<InsnId, Op>) {
    && (forall k, i :: k in c.blocks && i in c.blocks[k] ==> i in ops)
    && (forall i :: i in c.fixups ==> i in ops && (c.fixups[i].LabelRef? ==> c.fixups[i].target in c.labels))
  }

  // ----- one pass over a function

  /** An instruction of which only the opcode is emitted. */
  predicate Plain(l: FuncLayout, i: InsnId) {
    i in l.ops && i !in l.imm && l.code.LabelOf(i).None?
  }

  /** What a pass leaves alone. */
  ghost predicate SameCode(l: FuncLayout, m: FuncLayout) {
    && m.code == l.code && m.imm == l.imm && m.ops.Keys == l.ops.Keys
    && forall i {:trigger m.ops[i]} {:trigger Plain(l, i)} :: Plain(l, i) ==> m.ops[i] == l.ops[i]
  }

  lemma SameCodeOk(l: FuncLayout, m: FuncLayout)
    requires SameCode(l, m) && CodeOk(l.code, l.ops)
    ensures CodeOk(m.code, m.ops)
  {
  }

  method ResizeInsns(b: Backend, l0: FuncLayout, insns: seq<InsnId>, fo: map<FuncRef, nat>, at0: nat, changed0: bool)
    returns (l: FuncLayout, at: nat, changed: bool)
    requires Contract(b) && CodeOk(l0.code, l0.ops) && forall i :: i in insns ==> i in l0.ops
    ensures SameCode(l0, l)
    ensures l.tables.offset == l0.tables.offset && l.tables.size == l0.tables.size
    ensures (changed0 ==> changed) && at >= at0
    ensures !changed ==> l.tables == l0.tables && at == InsnsEnd(b, l.code, l.imm, l.tables, insns, at0)
    ensures !changed <==> !changed0 && InsnsSettled(b, l0.code, l0.imm, l0.tables, fo, insns, at0)
    ensures !changed ==> OpsFit(b, l.code, l.ops, l.imm, l.tables, insns)
    ensures !changed ==> forall i {:trigger OpFits(b, l.code, l.ops, l.imm, l.tables, i)} ::
      OpFits(b, l.code, l0.ops, l.imm, l.tables, i) ==> OpFits(b, l.code, l.ops, l.imm, l.tables, i)
  {
    hide Contract, InsnLen, InsnSettled, OpFits, CodeOk;
    l, at, changed := l0, at0, changed0;
    var c, k := l0.code, 0;
    while k < |insns|
      invariant 0 <= k <= |insns| && SameCode(l0, l) && CodeOk(l.code, l.ops)
      invariant l.tables.offset == l0.tables.offset && l.tables.size == l0.tables.size
      invariant (changed0 ==> changed) && at >= at0
      invariant !changed ==> l.tables == l0.tables
      invariant !changed ==> InsnsEnd(b, c, l.imm, l.tables, insns, at0) == InsnsEnd(b, c, l.imm, l.tables, insns[k..], at)
      invariant !changed && InsnsSettled(b, c, l.imm, l.tables, fo, insns[k..], at) <==>
        !changed0 && InsnsSettled(b, c, l0.imm, l0.tables, fo, insns, at0)
      invariant !changed ==> OpsFit(b, c, l.ops, l.imm, l.tables, insns[..k])
      invariant !changed ==> forall i {:trigger OpFits(b, c, l.ops, l.imm, l.tables, i)} ::
        OpFits(b, c, l0.ops, l.imm, l.tables, i) ==> OpFits(b, c, l.ops, l.imm, l.tables, i)
    {
      assert insns[k..][1..] == insns[k + 1..];
      ghost var before := l;
      l, at, changed := ResizeInsn(b, l, insns[k], fo, at, changed);
      SameCodeOk(before, l);
      assert insns[..k + 1] == insns[..k] + [insns[k]];
      k := k + 1;
    }
    assert insns[..k] == insns;
  }

  /** `update` in the source. */
  function Update(m: map<nat, nat>, k: nat, to: nat): (map<nat, nat>, bool) {
    (if Read(m, k) == to then m else m[k := to], Read(m, k) != to)
  }

  method ResizeInsn(b: Backend, l0: FuncLayout, i: InsnId, fo: map<FuncRef, nat>, at0: nat, changed0: bool)
    returns (l: FuncLayout, at: nat, changed: bool)
    requires Contract(b) && CodeOk(l0.code, l0.ops) && i in l0.ops
    ensures SameCode(l0, l)
    ensures l.tables.offset == l0.tables.offset && l.tables.size == l0.tables.size
    ensures (changed0 ==> changed) && at >= at0
    ensures !changed ==> l.tables == l0.tables
    ensures !changed <==> !changed0 && InsnSettled(l0.code, l0.tables, fo, i, at0)
    ensures !changed ==> at == at0 + InsnLen(b, l.code, l.imm, l.tables, i)
    ensures !changed ==> OpFits(b, l.code, l.ops, l.imm, l.tables, i)
    ensures !changed ==> forall j {:trigger OpFits(b, l.code, l.ops, l.imm, l.tables, j)} ::
      OpFits(b, l.code, l0.ops, l.imm, l.tables, j) ==> OpFits(b, l.code, l.ops, l.imm, l.tables, j)
  {
    l, at, changed := l0, at0, changed0;
    var (offsets, moved) := Update(l.tables.insnOffsets, i, at);
    l := l.(tables := l.tables.(insnOffsets := offsets));
    changed := changed || moved;
    at := at + b.opSize;
    if l.code.LabelOf(i).Some? {
      var lab := l.code.LabelOf(i).value;
      var address := Address(l.code, l.tables, fo, lab);
      var (targets, retargeted) := Update(l.tables.labelTargets, lab, address);
      l := l.(tables := l.tables.(labelTargets := targets));
      changed := changed || retargeted;
      at := at + |b.labelBytes(l.ops[i], address)|;
      l := l.(ops := l.ops[i := b.labelOp(l.ops[i], address)]);
    }
    if i in l.imm {
      at := at + |l.imm[i]|;
      l := l.(ops := l.ops[i := b.immediateOp(l.ops[i], l.imm[i])]);
    }
  }

  predicate BlockSettled(b: Backend, c: Code, imm: Immediates, t: Tables, fo: map<FuncRef, nat>, block: BlockId, at: nat) {
    Read(t.blockOffsets, block) == at && InsnsSettled(b, c, imm, t, fo, c.Insns(block), at)
  }

  method ResizeBlock(b: Backend, l0: FuncLayout, block: BlockId, fo: map<FuncRef, nat>, at0: nat, changed0: bool)
    returns (l: FuncLayout, at: nat, changed: bool)
    requires Contract(b) && CodeOk(l0.code, l0.ops)
    ensures SameCode(l0, l) && at >= at0
    ensures l.tables.offset == l0.tables.offset && l.tables.size == l0.tables.size
    ensures !changed ==> l.tables == l0.tables && at == InsnsEnd(b, l.code, l.imm, l.tables, l.code.Insns(block), at0)
    ensures !changed <==> !changed0 && BlockSettled(b, l0.code, l0.imm, l0.tables, fo, block, at0)
    ensures !changed ==> OpsFit(b, l.code, l.ops, l.imm, l.tables, l.code.Insns(block))
    ensures !changed ==> forall insns {:trigger OpsFit(b, l.code, l.ops, l.imm, l.tables, insns)} ::
      OpsFit(b, l.code, l0.ops, l.imm, l.tables, insns) ==> OpsFit(b, l.code, l.ops, l.imm, l.tables, insns)
  {
    hide Contract, InsnsSettled, InsnsEnd, OpFits;
    var (offsets, moved) := Update(l0.tables.blockOffsets, block, at0);
    l := l0.(tables := l0.tables.(blockOffsets := offsets));
    l, at, changed := ResizeInsns(b, l, l0.code.Insns(block), fo, at0, changed0 || moved);
  }

  /** `FuncLayout::resize`. */
  method ResizeFunc(b: Backend, l0: FuncLayout, at0: nat, fo: map<FuncRef, nat>) returns (l: FuncLayout, changed: bool)
    requires Contract(b) && CodeOk(l0.code, l0.ops)
    ensures SameCode(l0, l) && l.tables.offset == at0
    ensures !changed ==> l.tables == l0.tables && FuncFits(b, l)
    ensures !changed <==> l0.tables.offset == at0 && FuncSettled(b, l0.code, l0.imm, l0.tables, fo)
  {
    hide Contract, InsnsSettled, InsnsEnd, OpsFit, CodeOk;
    l := l0.(tables := l0.tables.(offset := at0));
    changed := l0.tables.offset != at0;
    var c, at: nat, k := l0.code, at0, 0;
    while k < |c.order|
      invariant 0 <= k <= |c.order| && SameCode(l0, l) && CodeOk(l.code, l.ops) && at >= at0
      invariant l.tables.offset == at0 && l.tables.size == l0.tables.size
      invariant !changed ==> l.tables == l0.tables
      invariant !changed ==> BlocksEnd(b, c, l.imm, l.tables, c.order, at0) == BlocksEnd(b, c, l.imm, l.tables, c.order[k..], at)
      invariant !changed && BlocksSettled(b, c, l0.imm, l0.tables, fo, c.order[k..], at) <==>
        l0.tables.offset == at0 && BlocksSettled(b, c, l0.imm, l0.tables, fo, c.order, at0)
      invariant !changed ==> forall j {:trigger c.order[j]} :: 0 <= j < k ==> OpsFit(b, c, l.ops, l.imm, l.tables, c.Insns(c.order[j]))
    {
      assert c.order[k..][1..] == c.order[k + 1..];
      ghost var before := l;
      l, at, changed := ResizeBlock(b, l, c.order[k], fo, at, changed);
      assert CodeOk(l.code, l.ops) by { SameOps(before, l); }
      k := k + 1;
    }
    changed := changed || l.tables.size != at - at0;
    l := l.(tables := l.tables.(size := at - at0));
  }

  lemma SameOps(l: FuncLayout, m: FuncLayout)
    requires SameCode(l, m) && CodeOk(l.code, l.ops)
    ensures CodeOk(m.code, m.ops)
  {
  }

  // ----- the bytes

  function InsnBytes(b: Backend, l: FuncLayout, i: InsnId): seq<Byte> {
    b.emitOpcode(if i in l.ops then l.ops[i] else 0)
    + (if l.code.LabelOf(i).Some? then b.emitLabel(Read(l.tables.labelTargets, l.code.LabelOf(i).value)) else [])
    + (if i in l.imm then b.emitImmediate(l.imm[i]) else [])
  }

  function InsnsBytes(b: Backend, l: FuncLayout, insns: seq<InsnId>): seq<Byte> {
    if insns == [] then [] else InsnBytes(b, l, insns[0]) + InsnsBytes(b, l, insns[1..])
  }

  function BlocksBytes(b: Backend, l: FuncLayout, blocks: seq<BlockId>): seq<Byte> {
    if blocks == [] then [] else InsnsBytes(b, l, l.code.Insns(blocks[0])) + BlocksBytes(b, l, blocks[1..])
  }

  function FuncBytes(b: Backend, l: FuncLayout): seq<Byte> { BlocksBytes(b, l, l.code.order) }

  type Layouts = map<FuncRef, FuncLayout>

  function CodeBytes(b: Backend, m: Layouts, order: seq<FuncRef>): seq<Byte> {
    if order == [] then []
    else (if order[0] in m then FuncBytes(b, m[order[0]]) else []) + CodeBytes(b, m, order[1..])
  }

  /** `piece` is what `bytes` holds from `pos` on. */
  predicate Holds(bytes: seq<Byte>, pos: nat, piece: seq<Byte>) {
    pos + |piece| <= |bytes| && bytes[pos..pos + |piece|] == piece
  }

  lemma HoldsInside(outer: seq<Byte>, pos: nat, inner: seq<Byte>, off: nat, piece: seq<Byte>)
    requires Holds(outer, pos, inner) && Holds(inner, off, piece)
    ensures Holds(outer, pos + off, piece)
  {
    var n := |piece|;
    forall k | 0 <= k < n ensures outer[pos + off + k] == piece[k] {
      assert outer[pos..pos + |inner|][off + k] == inner[off + k];
      assert inner[off..off + n][k] == piece[k];
    }
    assert outer[pos + off..pos + off + n] == piece;
  }

  lemma HoldsFirst(x: seq<Byte>, y: seq<Byte>)
    ensures Holds(x + y, 0, x)
  {
  }

  lemma HoldsRest(x: seq<Byte>, y: seq<Byte>, off: nat, piece: seq<Byte>)
    requires Holds(y, off, piece)
    ensures Holds(x + y, |x| + off, piece)
  {
    assert (x + y)[|x| + off..|x| + off + |piece|] == y[off..off + |piece|];
  }

  lemma InsnBytesLen(b: Backend, l: FuncLayout, i: InsnId)
    requires Contract(b)
    ensures |InsnBytes(b, l, i)| == InsnLen(b, l.code, l.imm, l.tables, i)
  {
  }

  lemma {:induction false} InsnsBytesLen(b: Backend, l: FuncLayout, insns: seq<InsnId>, at: nat)
    requires Contract(b)
    ensures at + |InsnsBytes(b, l, insns)| == InsnsEnd(b, l.code, l.imm, l.tables, insns, at)
    decreases |insns|
  {
    hide Contract, InsnBytes, InsnLen;
    if insns != [] {
      InsnBytesLen(b, l, insns[0]);
      InsnsBytesLen(b, l, insns[1..], at + InsnLen(b, l.code, l.imm, l.tables, insns[0]));
    }
  }

  lemma {:induction false} BlocksBytesLen(b: Backend, l: FuncLayout, blocks: seq<BlockId>, at: nat)
    requires Contract(b)
    ensures at + |BlocksBytes(b, l, blocks)| == BlocksEnd(b, l.code, l.imm, l.tables, blocks, at)
    decreases |blocks|
  {
    hide Contract, InsnsBytes, InsnsEnd;
    if blocks != [] {
      InsnsBytesLen(b, l, l.code.Insns(blocks[0]), at);
      BlocksBytesLen(b, l, blocks[1..], InsnsEnd(b, l.code, l.imm, l.tables, l.code.Insns(blocks[0]), at));
    }
  }

  lemma SettledReads(c: Code, t: Tables, fo: map<FuncRef, nat>, i: InsnId, at: nat)
    ensures InsnSettled(c, t, fo, i, at) ==> Read(t.insnOffsets, i) == at
  {
  }

  /** In settled tables the offset of an instruction is where its bytes are. */
  lemma {:induction false} InsnPlaced(b: Backend, l: FuncLayout, fo: map<FuncRef, nat>, insns: seq<InsnId>, at: nat, k: nat)
    requires Contract(b) && InsnsSettled(b, l.code, l.imm, l.tables, fo, insns, at) && k < |insns|
    ensures at <= Read(l.tables.insnOffsets, insns[k])
    ensures InsnSettled(l.code, l.tables, fo, insns[k], Read(l.tables.insnOffsets, insns[k]))
    ensures Holds(InsnsBytes(b, l, insns), Read(l.tables.insnOffsets, insns[k]) - at, InsnBytes(b, l, insns[k]))
    decreases |insns|
  {
    hide Contract, InsnBytes, InsnLen, Holds, InsnSettled;
    SettledReads(l.code, l.tables, fo, insns[0], at);
    InsnBytesLen(b, l, insns[0]);
    var (first, rest) := (InsnBytes(b, l, insns[0]), InsnsBytes(b, l, insns[1..]));
    HoldsFirst(first, rest);
    if k > 0 {
      var next := at + InsnLen(b, l.code, l.imm, l.tables, insns[0]);
      InsnPlaced(b, l, fo, insns[1..], next, k - 1);
      HoldsRest(first, rest, Read(l.tables.insnOffsets, insns[k]) - next, InsnBytes(b, l, insns[k]));
    }
  }

  /** In settled tables the offset of a block is where its bytes are. */
  lemma {:induction false} BlockPlaced(b: Backend, l: FuncLayout, fo: map<FuncRef, nat>, blocks: seq<BlockId>, at: nat, k: nat)
    requires Contract(b) && BlocksSettled(b, l.code, l.imm, l.tables, fo, blocks, at) && k < |blocks|
    ensures var pos := Read(l.tables.blockOffsets, blocks[k]);
      && at <= pos && InsnsSettled(b, l.code, l.imm, l.tables, fo, l.code.Insns(blocks[k]), pos)
      && Holds(BlocksBytes(b, l, blocks), pos - at, InsnsBytes(b, l, l.code.Insns(blocks[k])))
    decreases |blocks|
  {
    hide Contract, InsnsBytes, InsnsEnd, InsnsSettled, Holds;
    var insns := l.code.Insns(blocks[0]);
    InsnsBytesLen(b, l, insns, at);
    var (first, rest) := (InsnsBytes(b, l, insns), BlocksBytes(b, l, blocks[1..]));
    HoldsFirst(first, rest);
    if k > 0 {
      var next := InsnsEnd(b, l.code, l.imm, l.tables, insns, at);
      BlockPlaced(b, l, fo, blocks[1..], next, k - 1);
      HoldsRest(first, rest, Read(l.tables.blockOffsets, blocks[k]) - next, InsnsBytes(b, l, l.code.Insns(blocks[k])));
    }
  }

  // ----- all functions

  predicate LayoutSettled(b: Backend, m: Layouts, fo: map<FuncRef, nat>, order: seq<FuncRef>, at: nat)
    decreases |order|
  {
    order == [] ||
    (order[0] in m && var l := m[order[0]];
     l.tables.offset == at && FuncSettled(b, l.code, l.imm, l.tables, fo) &&
     LayoutSettled(b, m, fo, order[1..], at + l.tables.size))
  }

  function LayoutEnd(m: Layouts, order: seq<FuncRef>, at: nat): nat
    decreases |order|
  {
    if order == [] then at
    else LayoutEnd(m, order[1..], at + if order[0] in m then m[order[0]].tables.size else 0)
  }

  lemma FuncBytesLen(b: Backend, l: FuncLayout, fo: map<FuncRef, nat>)
    requires Contract(b) && FuncSettled(b, l.code, l.imm, l.tables, fo)
    ensures |FuncBytes(b, l)| == l.tables.size
  {
    hide Contract;
    BlocksBytesLen(b, l, l.code.order, l.tables.offset);
  }

  /** The functions follow each other without a gap. */
  lemma {:induction false} CodeBytesLen(b: Backend, m: Layouts, fo: map<FuncRef, nat>, order: seq<FuncRef>, at: nat)
    requires Contract(b) && LayoutSettled(b, m, fo, order, at)
    ensures at + |CodeBytes(b, m, order)| == LayoutEnd(m, order, at)
    decreases |order|
  {
    hide Contract, FuncBytes, FuncSettled;
    if order != [] {
      FuncBytesLen(b, m[order[0]], fo);
      CodeBytesLen(b, m, fo, order[1..], at + m[order[0]].tables.size);
    }
  }

  ghost predicate FuncIsAt(b: Backend, l: FuncLayout, fo: map<FuncRef, nat>, bytes: seq<Byte>, at: nat) {
    && at <= l.tables.offset && |FuncBytes(b, l)| == l.tables.size && FuncSettled(b, l.code, l.imm, l.tables, fo)
    && Holds(bytes, l.tables.offset - at, FuncBytes(b, l))
  }

  /** Each function is at its recorded offset and as long as recorded. */
  lemma {:induction false} FuncPlaced(b: Backend, m: Layouts, fo: map<FuncRef, nat>, order: seq<FuncRef>, at: nat, f: FuncRef)
    requires Contract(b) && LayoutSettled(b, m, fo, order, at) && f in order
    ensures f in m && FuncIsAt(b, m[f], fo, CodeBytes(b, m, order), at)
    decreases |order|
  {
    hide Contract, FuncBytes, FuncSettled, Holds;
    var l := m[order[0]];
    var (first, rest) := (FuncBytes(b, l), CodeBytes(b, m, order[1..]));
    assert CodeBytes(b, m, order) == first + rest;
    FuncBytesLen(b, l, fo);
    HoldsFirst(first, rest);
    if f != order[0] {
      FuncPlaced(b, m, fo, order[1..], at + l.tables.size, f);
      HoldsRest(first, rest, m[f].tables.offset - (at + l.tables.size), FuncBytes(b, m[f]));
    }
  }

  predicate LayoutOk(m: Layouts, f: FuncRef) {
    f in m && CodeOk(m[f].code, m[f].ops)
  }

  /** Same code, and the same tables where `same`. */
  ghost predicate Resized(m: Layouts, n: Layouts, same: bool) {
    m.Keys == n.Keys && forall f {:trigger n[f]} :: f in m ==> SameCode(m[f], n[f]) && (same ==> n[f].tables == m[f].tables)
  }

  lemma ResizedTwice(m: Layouts, n: Layouts, p: Layouts, first: bool, second: bool)
    requires Resized(m, n, first) && Resized(n, p, second)
    ensures Resized(m, p, first && second)
    ensures first ==> forall f :: f in m ==> m[f].tables.size == n[f].tables.size
  {
    forall f | f in m ensures SameCode(m[f], p[f]) && (first && second ==> p[f].tables == m[f].tables) {
      assert n[f].code == m[f].code && p[f].code == n[f].code;
    }
    forall f | f in m && first ensures m[f].tables.size == n[f].tables.size { assert n[f].tables == m[f].tables; }
  }

  predicate OffsetsMatch(m: Layouts, fo: map<FuncRef, nat>) {
    m.Keys == fo.Keys && forall f {:trigger fo[f]} :: f in m ==> fo[f] == m[f].tables.offset
  }

  function Members(order: seq<FuncRef>): set<FuncRef> { set f | f in order }

  /** Every function of the section is laid out once, and the two records of
      its offset agree. */
  ghost predicate ObjectOk(order: seq<FuncRef>, m: Layouts, fo: map<FuncRef, nat>) {
    && NoDup(order) && m.Keys == Members(order)
    && (forall f {:trigger LayoutOk(m, f)} :: f in order ==> LayoutOk(m, f))
    && OffsetsMatch(m, fo)
  }

  lemma ObjectUpdated(order: seq<FuncRef>, m: Layouts, fo: map<FuncRef, nat>, f: FuncRef, l: FuncLayout)
    requires ObjectOk(order, m, fo) && f in order && SameCode(m[f], l)
    ensures ObjectOk(order, m[f := l], fo[f := l.tables.offset])
  {
    var n := m[f := l];
    assert LayoutOk(m, f);
    forall g | g in order ensures LayoutOk(n, g) { assert LayoutOk(m, g); }
  }

  predicate SettledAt(b: Backend, m: Layouts, fo: map<FuncRef, nat>, f: FuncRef, at: nat) {
    f in m && m[f].tables.offset == at && FuncSettled(b, m[f].code, m[f].imm, m[f].tables, fo)
  }

  lemma SettledAtSame(b: Backend, m: Layouts, n: Layouts, fo: map<FuncRef, nat>, f: FuncRef, at: nat)
    requires Resized(m, n, true)
    ensures SettledAt(b, m, fo, f, at) <==> SettledAt(b, n, fo, f, at)
  {
    if f in m { assert n[f].tables == m[f].tables; }
  }

  lemma SettledFrom(b: Backend, m: Layouts, fo: map<FuncRef, nat>, order: seq<FuncRef>, k: nat, at: nat)
    requires k < |order|
    ensures LayoutSettled(b, m, fo, order[k..], at) <==>
      SettledAt(b, m, fo, order[k], at) && LayoutSettled(b, m, fo, order[k + 1..], at + m[order[k]].tables.size)
  {
    hide FuncSettled;
    assert order[k..][1..] == order[k + 1..];
  }

  lemma SettledTurn(b: Backend, m: Layouts, n: Layouts, fo: map<FuncRef, nat>, order: seq<FuncRef>, k: nat, at: nat)
    requires k < |order| && Resized(m, n, true)
    ensures LayoutSettled(b, m, fo, order[k..], at) <==>
      SettledAt(b, n, fo, order[k], at) && LayoutSettled(b, m, fo, order[k + 1..], at + n[order[k]].tables.size)
  {
    hide FuncSettled, LayoutSettled;
    SettledFrom(b, m, fo, order, k, at);
    SettledAtSame(b, m, n, fo, order[k], at);
    if order[k] in m { assert n[order[k]].tables == m[order[k]].tables; }
  }

  /** The functions of `done` are settled, fit, and end at `at`. */
  ghost predicate SettledSoFar(b: Backend, m: Layouts, fo: map<FuncRef, nat>, done: seq<FuncRef>, at0: nat, at: nat) {
    && LayoutSettled(b, m, fo, done, at0) && LayoutEnd(m, done, at0) == at
    && (forall f :: f in done ==> f in m && FuncFits(b, m[f]))
  }

  lemma {:induction false} SettledStep(b: Backend, m: Layouts, n: Layouts, fo: map<FuncRef, nat>, done: seq<FuncRef>, at0: nat, at: nat, f: FuncRef)
    requires LayoutSettled(b, m, fo, done, at0) && LayoutEnd(m, done, at0) == at && Resized(m, n, true)
    requires f in n && n[f].tables.offset == at && FuncSettled(b, n[f].code, n[f].imm, n[f].tables, fo)
    ensures LayoutSettled(b, n, fo, done + [f], at0) && LayoutEnd(n, done + [f], at0) == at + n[f].tables.size
    decreases |done|
  {
    hide FuncSettled;
    if done == [] {
      assert done + [f] == [f] && [f][1..] == [];
      assert LayoutSettled(b, n, fo, [], at + n[f].tables.size);
    } else {
      assert n[done[0]].tables == m[done[0]].tables;
      SettledStep(b, m, n, fo, done[1..], at0 + m[done[0]].tables.size, at, f);
      assert (done + [f])[1..] == done[1..] + [f];
    }
  }

  lemma SoFarStep(b: Backend, order: seq<FuncRef>, m: Layouts, fo: map<FuncRef, nat>, k: nat, at0: nat, at: nat, l: FuncLayout)
    requires ObjectOk(order, m, fo) && k < |order| && SettledSoFar(b, m, fo, order[..k], at0, at)
    requires SameCode(m[order[k]], l) && l.tables == m[order[k]].tables && l.tables.offset == at
    requires FuncSettled(b, l.code, l.imm, l.tables, fo) && FuncFits(b, l)
    ensures SettledSoFar(b, m[order[k] := l], fo, order[..k + 1], at0, at + l.tables.size)
  {
    hide FuncSettled, FuncFits, LayoutSettled, LayoutEnd;
    assert order[k] !in order[..k];
    SettledStep(b, m, m[order[k] := l], fo, order[..k], at0, at, order[k]);
    assert order[..k] + [order[k]] == order[..k + 1];
  }

  lemma NextOffset(order: seq<FuncRef>, m: Layouts, fo: map<FuncRef, nat>, f: FuncRef)
    requires ObjectOk(order, m, fo) && f in order
    ensures f in m && f in fo && fo[f] == m[f].tables.offset && CodeOk(m[f].code, m[f].ops)
  {
    hide CodeOk;
    assert LayoutOk(m, f);
  }

  /** A lowered function. */
  datatype Lowered = Lowered(func: FuncRef, code: Code, ops: map<InsnId, Op>, imm: Immediates)

  predicate InOrder(funcs: seq<Lowered>, k: nat)
    requires k < |funcs|
  {
    CodeOk(funcs[k].code, funcs[k].ops)
  }

  /** The functions to lay out are different ones. */
  ghost predicate LoweredOk(funcs: seq<Lowered>) {
    && NoDup(FuncsOf(funcs))
    && (forall k: nat {:trigger InOrder(funcs, k)} :: k < |funcs| ==> InOrder(funcs, k))
  }

  function FuncsOf(funcs: seq<Lowered>): (fs: seq<FuncRef>)
    ensures |fs| == |funcs|
  {
    if funcs == [] then [] else FuncsOf(funcs[..|funcs| - 1]) + [funcs[|funcs| - 1].func]
  }

  lemma {:induction false} FuncAt(funcs: seq<Lowered>, k: nat)
    requires k < |funcs|
    ensures FuncsOf(funcs)[k] == funcs[k].func
  {
    if k < |funcs| - 1 { FuncAt(funcs[..|funcs| - 1], k); }
  }

  /** `FuncLayout::new`: a first guess without the widths of immediates and
      labels, and two bytes a label for the size. */
  method GuessFunc(f: Lowered, at0: nat) returns (l: FuncLayout)
    ensures l.code == f.code && l.ops == f.ops && l.imm == f.imm && l.tables.offset == at0
  {
    var at: nat, offsets: map<BlockId, nat>, k := at0, map[], 0;
    while k < |f.code.order|
      invariant 0 <= k <= |f.code.order| && at >= at0
    {
      offsets := offsets[f.code.order[k] := at];
      at := at + |f.code.Insns(f.code.order[k])|;
      k := k + 1;
    }
    var rest, immBytes: nat := f.imm.Keys, 0;
    while rest != {}
      decreases |rest|
    {
      var i: InsnId :| i in rest;
      rest := rest - {i};
      immBytes := immBytes + |ImmOf(f.imm, i)|;
    }
    l := FuncLayout(f.code, f.ops, f.imm, Tables(at0, at - at0 + immBytes + 2 * |f.code.labels|, offsets, map[], map[]));
  }

  /** The k-th lowered function is in the object as it was lowered. */
  ghost predicate Holding(funcs: seq<Lowered>, m: Layouts, k: nat)
    requires k < |funcs|
  {
    && funcs[k].func in m
    && var l := m[funcs[k].func]; l.code == funcs[k].code && l.imm == funcs[k].imm && l.ops == funcs[k].ops
  }

  lemma GuessedOk(funcs: seq<Lowered>, m: Layouts, fo: map<FuncRef, nat>)
    requires LoweredOk(funcs) && OffsetsMatch(m, fo) && m.Keys == Members(FuncsOf(funcs))
    requires forall k: nat {:trigger Holding(funcs, m, k)} :: k < |funcs| ==> Holding(funcs, m, k)
    ensures ObjectOk(FuncsOf(funcs), m, fo)
  {
    hide CodeOk;
    var order := FuncsOf(funcs);
    forall f | f in order ensures LayoutOk(m, f) {
      var k: nat :| k < |order| && order[k] == f;
      FuncAt(funcs, k);
      assert InOrder(funcs, k) && Holding(funcs, m, k);
    }
  }

  lemma HoldingStays(funcs: seq<Lowered>, m: Layouts, j: nat, f: FuncRef, l: FuncLayout)
    requires j < |funcs| && Holding(funcs, m, j) && funcs[j].func != f
    ensures Holding(funcs, m[f := l], j)
  {
  }

  lemma MembersStep(order: seq<FuncRef>, k: nat)
    requires k < |order|
    ensures Members(order[..k + 1]) == Members(order[..k]) + {order[k]}
  {
    assert order[..k + 1] == order[..k] + [order[k]];
  }

  predicate NewAt(funcs: seq<Lowered>, k: nat)
    requires k < |funcs|
  {
    forall j :: 0 <= j < k ==> funcs[j].func != funcs[k].func
  }

  lemma DistinctAt(order: seq<FuncRef>, j: nat, k: nat)
    requires NoDup(order) && j < k < |order|
    ensures order[j] != order[k]
  {
  }

  lemma AllNew(funcs: seq<Lowered>, k: nat)
    requires NoDup(FuncsOf(funcs)) && k < |funcs|
    ensures NewAt(funcs, k)
  {
    hide FuncsOf, NoDup;
    forall j: nat | j < k ensures funcs[j].func != funcs[k].func {
      FuncAt(funcs, j);
      FuncAt(funcs, k);
      DistinctAt(FuncsOf(funcs), j, k);
    }
  }

  lemma GuessedStep(funcs: seq<Lowered>, m: Layouts, k: nat, l: FuncLayout)
    requires k < |funcs| && NewAt(funcs, k)
    requires forall j: nat {:trigger Holding(funcs, m, j)} :: j < k ==> Holding(funcs, m, j)
    requires l.code == funcs[k].code && l.imm == funcs[k].imm && l.ops == funcs[k].ops
    ensures var n := m[funcs[k].func := l]; forall j: nat {:trigger Holding(funcs, n, j)} :: j < k + 1 ==> Holding(funcs, n, j)
  {
    var n := m[funcs[k].func := l];
    assert Holding(funcs, n, k);
    hide Holding;
    forall j: nat | j < k ensures Holding(funcs, n, j) {
      HoldingStays(funcs, m, j, funcs[k].func, l);
    }
  }

  /** During a pass: `k` functions have been dealt with, from `m0` to `m`. */
  ghost predicate Passing(b: Backend, m0: Layouts, fo0: map<FuncRef, nat>, m: Layouts, fo: map<FuncRef, nat>, order: seq<FuncRef>, k: int, at0: nat, at: nat, changed: bool)
    requires 0 <= k <= |order|
  {
    && Resized(m0, m, !changed) && (!changed ==> fo == fo0)
    && (!changed ==> SettledSoFar(b, m, fo, order[..k], at0, at))
    && (!changed && LayoutSettled(b, m0, fo0, order[k..], at) <==> LayoutSettled(b, m0, fo0, order, at0))
  }

  lemma PassingSettled(b: Backend, m0: Layouts, fo0: map<FuncRef, nat>, m: Layouts, fo: map<FuncRef, nat>, order: seq<FuncRef>, k: nat, at0: nat, at: nat, changed: bool)
    requires k <= |order| && Passing(b, m0, fo0, m, fo, order, k, at0, at, changed)
    ensures !changed ==> SettledSoFar(b, m, fo, order[..k], at0, at)
  {
  }

  lemma PassStarts(b: Backend, m: Layouts, fo: map<FuncRef, nat>, order: seq<FuncRef>, at0: nat)
    ensures Passing(b, m, fo, m, fo, order, 0, at0, at0, false)
  {
    assert order[0..] == order && order[..0] == [];
  }

  lemma PassTurns(b: Backend, m0: Layouts, fo0: map<FuncRef, nat>, m: Layouts, fo: map<FuncRef, nat>, n: Layouts, go: map<FuncRef, nat>,
      order: seq<FuncRef>, k: nat, at0: nat, at: nat, next: nat, changed: bool, moved: bool)
    requires k < |order| && Passing(b, m0, fo0, m, fo, order, k, at0, at, changed)
    requires Resized(m, n, !moved) && (!moved ==> go == fo)
    requires !changed && !moved ==> SettledSoFar(b, n, go, order[..k + 1], at0, next)
    requires !moved <==> SettledAt(b, m, fo, order[k], at)
    requires !moved ==> next == at + m[order[k]].tables.size
    ensures Passing(b, m0, fo0, n, go, order, k + 1, at0, next, changed || moved)
  {
    hide SettledAt, LayoutSettled, SettledSoFar, Resized;
    ResizedTwice(m0, m, n, !changed, !moved);
    if !changed { SettledTurn(b, m0, m, fo0, order, k, at); }
  }

  lemma PassEnds(b: Backend, m0: Layouts, fo0: map<FuncRef, nat>, m: Layouts, fo: map<FuncRef, nat>, order: seq<FuncRef>, at0: nat, at: nat, changed: bool)
    requires Passing(b, m0, fo0, m, fo, order, |order|, at0, at, changed)
    ensures Resized(m0, m, !changed) && (!changed ==> fo == fo0)
    ensures !changed <==> LayoutSettled(b, m0, fo0, order, at0)
    ensures !changed ==> SettledSoFar(b, m, fo, order, at0, LayoutEnd(m, order, at0))
  {
    hide FuncFits, Resized;
    assert order[..|order|] == order && order[|order|..] == [];
  }

  lemma NoOffsets()
    ensures OffsetsMatch(map[], map[])
  {
  }

  lemma OffsetsStep(m: Layouts, fo: map<FuncRef, nat>, f: FuncRef, l: FuncLayout)
    requires OffsetsMatch(m, fo)
    ensures OffsetsMatch(m[f := l], fo[f := l.tables.offset])
  {
  }

  class ObjectLayout {
    var order: seq<FuncRef>
    var functions: Layouts
    var funcOffsets: map<FuncRef, nat>

    ghost predicate Valid()
      reads this
    {
      ObjectOk(order, functions, funcOffsets)
    }

    /** `ObjectLayout::new`. */
    constructor (funcs: seq<Lowered>, at0: nat)
      requires LoweredOk(funcs)
      ensures Valid() && order == FuncsOf(funcs)
      ensures forall k: nat {:trigger Holding(funcs, functions, k)} :: k < |funcs| ==> Holding(funcs, functions, k)
    {
      assert FuncsOf(funcs)[..0] == [] && Members([]) == {} && NoDup(FuncsOf(funcs));
      hide CodeOk, Holding, LoweredOk, Members, NoDup, NewAt, ObjectOk, OffsetsMatch;
      NoOffsets();
      var at: nat, m: Layouts, fo: map<FuncRef, nat>, k: nat := at0, map[], map[], 0;
      while k < |funcs|
        invariant 0 <= k <= |funcs| && OffsetsMatch(m, fo)
        invariant m.Keys == Members(FuncsOf(funcs)[..k])
        invariant forall j: nat {:trigger Holding(funcs, m, j)} :: j < k ==> Holding(funcs, m, j)
      {
        var l := GuessFunc(funcs[k], at);
        AllNew(funcs, k);
        GuessedStep(funcs, m, k, l);
        FuncAt(funcs, k);
        MembersStep(FuncsOf(funcs), k);
        OffsetsStep(m, fo, funcs[k].func, l);
        fo := fo[funcs[k].func := at];
        m := m[funcs[k].func := l];
        at := at + l.tables.size;
        k := k + 1;
      }
      assert FuncsOf(funcs)[..k] == FuncsOf(funcs);
      GuessedOk(funcs, m, fo);
      order, functions, funcOffsets := FuncsOf(funcs), m, fo;
    }

    /** The k-th function in one pass. */
    method ResizeNext(b: Backend, k: nat, at: nat, ghost at0: nat, ghost still: bool) returns (next: nat, moved: bool)
      requires Contract(b) && Valid() && k < |order|
      requires still ==> SettledSoFar(b, functions, funcOffsets, order[..k], at0, at)
      modifies this
      ensures Valid() && order == old(order)
      ensures Resized(old(functions), functions, !moved) && (!moved ==> funcOffsets == old(funcOffsets))
      ensures still && !moved ==> SettledSoFar(b, functions, funcOffsets, order[..k + 1], at0, next)
      ensures !moved <==> SettledAt(b, old(functions), old(funcOffsets), order[k], at)
      ensures !moved ==> next == at + old(functions)[order[k]].tables.size
    {
      hide Contract, FuncSettled, FuncFits, CodeOk, SettledSoFar, ObjectOk;
      var f := order[k];
      NextOffset(order, functions, funcOffsets, f);
      var l;
      l, moved := ResizeFunc(b, functions[f], at, funcOffsets);
      ObjectUpdated(order, functions, funcOffsets, f, l);
      if still && !moved { SoFarStep(b, order, functions, funcOffsets, k, at0, at, l); }
      functions := functions[f := l];
      funcOffsets := funcOffsets[f := at];
      next := at + l.tables.size;
    }

    /** One pass over all functions.  It reports no movement exactly when the
        tables were settled, and then it leaves them alone. */
    method Resize(b: Backend, at0: nat) returns (changed: bool)
      requires Contract(b) && Valid()
      modifies this
      ensures Valid() && order == old(order)
      ensures Resized(old(functions), functions, !changed)
      ensures !changed ==> funcOffsets == old(funcOffsets)
      ensures !changed <==> LayoutSettled(b, old(functions), old(funcOffsets), order, at0)
      ensures !changed ==> SettledSoFar(b, functions, funcOffsets, order, at0, LayoutEnd(functions, order, at0))
    {
      hide Contract, ObjectOk, Passing, SettledAt, Resized, LayoutSettled, SettledSoFar;
      ghost var m0, fo0 := functions, funcOffsets;
      changed := false;
      var at: nat, k := at0, 0;
      PassStarts(b, m0, fo0, order, at0);
      while k < |order|
        invariant 0 <= k <= |order| && order == old(order) && Valid()
        invariant Passing(b, m0, fo0, functions, funcOffsets, order, k, at0, at, changed)
      {
        var moved: bool;
        ghost var m, fo, start := functions, funcOffsets, at;
        PassingSettled(b, m0, fo0, functions, funcOffsets, order, k, at0, at, changed);
        at, moved := ResizeNext(b, k, at, at0, !changed);
        PassTurns(b, m0, fo0, m, fo, functions, funcOffsets, order, k, at0, start, at, changed, moved);
        changed := changed || moved;
        k := k + 1;
      }
      PassEnds(b, m0, fo0, functions, funcOffsets, order, at0, at, changed);
    }

    /** `ObjectLayout::emit`. */
    method Emit(b: Backend) returns (bytes: seq<Byte>)
      requires Contract(b) && Valid()
      ensures bytes == CodeBytes(b, functions, order)
    {
      hide Contract, FuncBytes, CodeOk;
      bytes := [];
      var k := 0;
      while k < |order|
        invariant 0 <= k <= |order|
        invariant CodeBytes(b, functions, order) == bytes + CodeBytes(b, functions, order[k..])
      {
        assert order[k..][1..] == order[k + 1..];
        assert LayoutOk(functions, order[k]);
        var code := EmitFunc(b, functions[order[k]]);
        bytes := bytes + code;
        k := k + 1;
      }
    }
  }

  /** `FuncLayout::emit`. */
  method EmitFunc(b: Backend, l: FuncLayout) returns (bytes: seq<Byte>)
    requires CodeOk(l.code, l.ops)
    ensures bytes == FuncBytes(b, l)
  {
    hide InsnsBytes;
    bytes := [];
    var order, k := l.code.order, 0;
    while k < |order|
      invariant 0 <= k <= |order|
      invariant FuncBytes(b, l) == bytes + BlocksBytes(b, l, order[k..])
    {
      assert order[k..][1..] == order[k + 1..];
      var block := EmitInsns(b, l, l.code.Insns(order[k]));
      bytes := bytes + block;
      k := k + 1;
    }
  }

  method EmitInsns(b: Backend, l: FuncLayout, insns: seq<InsnId>) returns (bytes: seq<Byte>)
    requires forall i :: i in insns ==> i in l.ops
    ensures bytes == InsnsBytes(b, l, insns)
  {
    hide InsnBytes;
    bytes := [];
    var j := 0;
    while j < |insns|
      invariant 0 <= j <= |insns|
      invariant InsnsBytes(b, l, insns) == bytes + InsnsBytes(b, l, insns[j..])
    {
      assert insns[j..][1..] == insns[j + 1..];
      var insn := EmitInsn(b, l, insns[j]);
      bytes := bytes + insn;
      j := j + 1;
    }
  }

  method EmitInsn(b: Backend, l: FuncLayout, i: InsnId) returns (bytes: seq<Byte>)
    requires i in l.ops
    ensures bytes == InsnBytes(b, l, i)
  {
    bytes := b.emitOpcode(l.ops[i]);
    if l.code.LabelOf(i).Some? { bytes := bytes + b.emitLabel(Read(l.tables.labelTargets, l.code.LabelOf(i).value)); }
    if i in l.imm { bytes := bytes + b.emitImmediate(l.imm[i]); }
  }
}
