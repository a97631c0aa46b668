/**
 What a self-consistent section means for its bytes
 (crates/codegen/src/object/link.rs, crates/codegen/src/machinst/assemble.rs).
 */
module LinkFacts {
  import opened Options
  import opened Assembly
  import opened Linking

  // ----- symbols

  lemma {:induction false} FuncEntry(m: Layouts, order: seq<FuncRef>, table: SymTab, sym: Symbol)
    requires forall f :: f in order ==> f in m
    ensures var t := FuncDefs(m, order, table);
      if sym.FuncSym? && sym.func in order then
        sym in t && t[sym] == SymbolDef(m[sym.func].tables.offset, m[sym.func].tables.size)
      else (sym in t <==> sym in table) && (sym in t ==> t[sym] == table[sym])
    decreases |order|
  {
    if order != [] {
      var f := order[0];
      FuncEntry(m, order[1..], table[FuncSym(f) := SymbolDef(m[f].tables.offset, m[f].tables.size)], sym);
    }
  }

  /** Some blob named `sym` is where `d` says, counting from `at`. */
  ghost predicate BlobAt(blobs: seq<Blob>, at: nat, sym: Symbol, d: SymbolDef) {
    at <= d.offset && exists k :: 0 <= k < |blobs| && IsAt(blobs, at, sym, d, k)
  }

  ghost predicate IsAt(blobs: seq<Blob>, at: nat, sym: Symbol, d: SymbolDef, k: int)
    requires 0 <= k < |blobs| && at <= d.offset
  {
    blobs[k].sym == sym && d.size == |blobs[k].bytes| && Holds(Concat(blobs), d.offset - at, blobs[k].bytes)
  }

  predicate Names(blobs: seq<Blob>, sym: Symbol) {
    exists k :: 0 <= k < |blobs| && blobs[k].sym == sym
  }

  lemma {:induction false} BlobEntry(blobs: seq<Blob>, at: nat, table: SymTab, sym: Symbol)
    ensures var t := BlobDefs(blobs, at, table);
      if Names(blobs, sym) then sym in t && BlobAt(blobs, at, sym, t[sym])
      else (sym in t <==> sym in table) && (sym in t ==> t[sym] == table[sym])
    decreases |blobs|
  {
    hide Holds;
    if blobs != [] {
      var first, rest := blobs[0].bytes, blobs[1..];
      var next := table[blobs[0].sym := SymbolDef(at, |first|)];
      BlobEntry(rest, at + |first|, next, sym);
      HoldsFirst(first, Concat(rest));
      assert Names(blobs, sym) <==> blobs[0].sym == sym || Names(rest, sym) by {
        if Names(rest, sym) { var k :| 0 <= k < |rest| && rest[k].sym == sym; assert blobs[k + 1].sym == sym; }
        if Names(blobs, sym) { var k :| 0 <= k < |blobs| && blobs[k].sym == sym; assert k > 0 ==> rest[k - 1].sym == sym; }
      }
      var d := if sym in BlobDefs(blobs, at, table) then BlobDefs(blobs, at, table)[sym] else SymbolDef(0, 0);
      if Names(rest, sym) {
        var k :| 0 <= k < |rest| && IsAt(rest, at + |first|, sym, d, k);
        HoldsRest(first, Concat(rest), d.offset - (at + |first|), rest[k].bytes);
        assert IsAt(blobs, at, sym, d, k + 1);
      } else if blobs[0].sym == sym {
        assert IsAt(blobs, at, sym, d, 0);
      }
    }
  }

  /** The range recorded for a symbol holds exactly the symbol's bytes. */
  ghost predicate SymbolIsAt(b: Backend, order: seq<FuncRef>, m: Layouts, data: seq<Blob>, embeds: seq<Blob>, bytes: seq<Byte>, sym: Symbol, d: SymbolDef) {
    if sym.FuncSym? then
      sym.func in order && sym.func in m && d.size == |FuncBytes(b, m[sym.func])| && Holds(bytes, d.offset, FuncBytes(b, m[sym.func]))
    else
      exists x {:trigger Holds(bytes, d.offset, x)} :: Blob(sym, x) in data + embeds && d.size == |x| && Holds(bytes, d.offset, x)
  }

  lemma BlobHeld(b: Backend, code: seq<Byte>, blobs: seq<Blob>, rest: seq<Byte>, sym: Symbol, d: SymbolDef)
    requires BlobAt(blobs, |code|, sym, d)
    ensures exists x {:trigger Holds(code + Concat(blobs) + rest, d.offset, x)} ::
      Blob(sym, x) in blobs && d.size == |x| && Holds(code + Concat(blobs) + rest, d.offset, x)
  {
    hide Holds;
    var k :| 0 <= k < |blobs| && IsAt(blobs, |code|, sym, d, k);
    var x := blobs[k].bytes;
    HoldsRest(code, Concat(blobs), d.offset - |code|, x);
    HoldsFirst(code + Concat(blobs), rest);
    HoldsInside(code + Concat(blobs) + rest, 0, code + Concat(blobs), d.offset, x);
    assert Blob(sym, x) == blobs[k];
  }

  lemma Parts(b: Backend, order: seq<FuncRef>, m: Layouts, fo: map<FuncRef, nat>, data: seq<Blob>, embeds: seq<Blob>, table: SymTab, bytes: seq<Byte>)
    requires Contract(b) && SelfConsistent(b, order, m, fo, data, embeds, table, bytes)
    ensures var code := CodeBytes(b, m, order);
      && bytes == code + Concat(data) + Concat(embeds)
      && table == BlobDefs(embeds, |code + Concat(data)|, BlobDefs(data, |code|, FuncDefs(m, order, map[])))
      && LayoutSettled(b, m, fo, order, 0) && Within(table, U32_MAX)
    ensures forall f :: f in order ==> f in m
  {
    hide Contract, FuncSettled, Encoded, FuncFits, CodeOk, CodeBytes, LayoutSettled, FuncDefs, BlobDefs, Concat, Within, OffsetsMatch,
      NoDup, MaxEnd, LayoutEnd;
    forall f | f in order ensures f in m { assert LayoutOk(m, f); }
    SettledMaxEnd(b, m, fo, order, 0, 0);
    CodeBytesLen(b, m, fo, order, 0);
    assert |CodeBytes(b, m, order) + Concat(data)| == MaxEnd(m, order, 0) + |Concat(data)|;
  }

  lemma FuncHeld(b: Backend, order: seq<FuncRef>, m: Layouts, fo: map<FuncRef, nat>, tail: seq<Byte>, f: FuncRef)
    requires Contract(b) && LayoutSettled(b, m, fo, order, 0) && f in order
    ensures f in m && m[f].tables.size == |FuncBytes(b, m[f])| && FuncSettled(b, m[f].code, m[f].imm, m[f].tables, fo)
    ensures Holds(CodeBytes(b, m, order) + tail, m[f].tables.offset, FuncBytes(b, m[f]))
  {
    hide Contract, FuncBytes, CodeBytes, LayoutSettled, Holds, FuncSettled;
    FuncPlaced(b, m, fo, order, 0, f);
    HoldsFirst(CodeBytes(b, m, order), tail);
    HoldsInside(CodeBytes(b, m, order) + tail, 0, CodeBytes(b, m, order), m[f].tables.offset, FuncBytes(b, m[f]));
  }

  /** Every symbol of the section is in the table, nothing else is, and each range
      holds the symbol's bytes. */
  lemma SymbolRanges(b: Backend, order: seq<FuncRef>, m: Layouts, fo: map<FuncRef, nat>, data: seq<Blob>, embeds: seq<Blob>, table: SymTab, bytes: seq<Byte>, sym: Symbol)
    requires Contract(b) && KindsOk(data, embeds) && SelfConsistent(b, order, m, fo, data, embeds, table, bytes)
    ensures sym in table <==> if sym.FuncSym? then sym.func in order else Names(data, sym) || Names(embeds, sym)
    ensures sym in table ==> SymbolIsAt(b, order, m, data, embeds, bytes, sym, table[sym])
  {
    hide Contract, Holds, FuncBytes, FuncSettled, LayoutSettled, SelfConsistent, BlobAt, CodeBytes, Concat, FuncDefs, BlobDefs, Within;
    var code := CodeBytes(b, m, order);
    Parts(b, order, m, fo, data, embeds, table, bytes);
    var t0 := FuncDefs(m, order, map[]);
    FuncEntry(m, order, map[], sym);
    BlobEntry(data, |code|, t0, sym);
    BlobEntry(embeds, |code + Concat(data)|, BlobDefs(data, |code|, t0), sym);
    if sym.FuncSym? {
      assert !Names(data, sym) && !Names(embeds, sym);
      if sym.func in order {
        FuncHeld(b, order, m, fo, Concat(data) + Concat(embeds), sym.func);
        assert bytes == code + (Concat(data) + Concat(embeds));
      }
    } else if Names(embeds, sym) {
      BlobHeld(b, code + Concat(data), embeds, [], sym, table[sym]);
      assert bytes == code + Concat(data) + Concat(embeds) + [];
    } else if Names(data, sym) {
      BlobHeld(b, code, data, Concat(embeds), sym, table[sym]);
    }
  }

  // ----- labels

  /** What a label stands for starts at `a`; labels of functions, blocks and
      instructions outside the section have no position. */
  ghost predicate StandsAt(b: Backend, order: seq<FuncRef>, m: Layouts, l: FuncLayout, target: Label, bytes: seq<Byte>, a: nat) {
    match target
    case FuncLabel(g) => g in order && g in m ==> Holds(bytes, a, FuncBytes(b, m[g]))
    case BlockLabel(k) => k in l.code.order ==> Holds(bytes, a, InsnsBytes(b, l, l.code.Insns(k)))
    case InsnLabel(i) => LaidOut(l, i) ==> Holds(bytes, a, InsnBytes(b, l, i))
  }

  predicate LaidOut(l: FuncLayout, i: InsnId) {
    exists k :: k in l.code.order && i in l.code.Insns(k)
  }

  lemma BlockHeld(b: Backend, l: FuncLayout, fo: map<FuncRef, nat>, bytes: seq<Byte>, k: BlockId)
    requires Contract(b) && FuncSettled(b, l.code, l.imm, l.tables, fo) && Holds(bytes, l.tables.offset, FuncBytes(b, l))
    requires k in l.code.order
    ensures var pos := Read(l.tables.blockOffsets, k);
      Holds(bytes, pos, InsnsBytes(b, l, l.code.Insns(k))) && InsnsSettled(b, l.code, l.imm, l.tables, fo, l.code.Insns(k), pos)
  {
    hide Contract, Holds, InsnsBytes, InsnsSettled, BlocksSettled, BlocksEnd;
    var j: nat :| j < |l.code.order| && l.code.order[j] == k;
    BlockPlaced(b, l, fo, l.code.order, l.tables.offset, j);
    HoldsInside(bytes, l.tables.offset, FuncBytes(b, l), Read(l.tables.blockOffsets, k) - l.tables.offset, InsnsBytes(b, l, l.code.Insns(k)));
  }

  lemma InsnHeld(b: Backend, l: FuncLayout, fo: map<FuncRef, nat>, bytes: seq<Byte>, i: InsnId)
    requires Contract(b) && FuncSettled(b, l.code, l.imm, l.tables, fo) && Holds(bytes, l.tables.offset, FuncBytes(b, l))
    requires LaidOut(l, i)
    ensures var pos := Read(l.tables.insnOffsets, i); Holds(bytes, pos, InsnBytes(b, l, i)) && InsnSettled(l.code, l.tables, fo, i, pos)
  {
    hide Contract, Holds, InsnsBytes, InsnBytes, InsnsSettled, FuncSettled, FuncBytes, InsnSettled;
    var k :| k in l.code.order && i in l.code.Insns(k);
    var insns := l.code.Insns(k);
    BlockHeld(b, l, fo, bytes, k);
    var j: nat :| j < |insns| && insns[j] == i;
    var at := Read(l.tables.blockOffsets, k);
    InsnPlaced(b, l, fo, insns, at, j);
    HoldsInside(bytes, at, InsnsBytes(b, l, insns), Read(l.tables.insnOffsets, i) - at, InsnBytes(b, l, i));
  }

  /** After the opcode of an instruction with a label the section holds the
      encoding of an address, and what the label stands for is at that address. */
  lemma LabelsPointHome(b: Backend, order: seq<FuncRef>, m: Layouts, fo: map<FuncRef, nat>, data: seq<Blob>, embeds: seq<Blob>, table: SymTab, bytes: seq<Byte>, f: FuncRef, i: InsnId)
    requires Contract(b) && SelfConsistent(b, order, m, fo, data, embeds, table, bytes)
    requires f in order && f in m && LaidOut(m[f], i) && m[f].code.LabelOf(i).Some?
    ensures var l := m[f];
      var (pos, a) := (Read(l.tables.insnOffsets, i), Read(l.tables.labelTargets, l.code.LabelOf(i).value));
      && Holds(bytes, pos, InsnBytes(b, l, i)) && Holds(bytes, pos + b.opSize, b.emitLabel(a))
      && l.code.LabelOf(i).value in l.code.labels
      && StandsAt(b, order, m, l, l.code.labels[l.code.LabelOf(i).value], bytes, a)
  {
    hide Contract, Holds, InsnBytes, FuncBytes, FuncSettled, LayoutSettled, SelfConsistent, InsnsBytes, CodeBytes, Within;
    Parts(b, order, m, fo, data, embeds, table, bytes);
    var tail := Concat(data) + Concat(embeds);
    assert bytes == CodeBytes(b, m, order) + tail;
    FuncHeld(b, order, m, fo, tail, f);
    var l, lab := m[f], m[f].code.LabelOf(i).value;
    InsnHeld(b, l, fo, bytes, i);
    LabelInside(b, l, i, bytes, Read(l.tables.insnOffsets, i));
    OffsetsRecorded(b, order, m, fo, data, embeds, table, bytes, f);
    match l.code.labels[lab]
    case FuncLabel(g) => if g in order { FuncHeld(b, order, m, fo, tail, g); OffsetsRecorded(b, order, m, fo, data, embeds, table, bytes, g); }
    case BlockLabel(k) => if k in l.code.order { BlockHeld(b, l, fo, bytes, k); }
    case InsnLabel(j) => if LaidOut(l, j) { InsnHeld(b, l, fo, bytes, j); }
  }

  lemma LabelInside(b: Backend, l: FuncLayout, i: InsnId, bytes: seq<Byte>, pos: nat)
    requires Contract(b) && Holds(bytes, pos, InsnBytes(b, l, i)) && l.code.LabelOf(i).Some?
    ensures Holds(bytes, pos + b.opSize, b.emitLabel(Read(l.tables.labelTargets, l.code.LabelOf(i).value)))
  {
    var op := b.emitOpcode(if i in l.ops then l.ops[i] else 0);
    var lab := b.emitLabel(Read(l.tables.labelTargets, l.code.LabelOf(i).value));
    var imm := if i in l.imm then b.emitImmediate(l.imm[i]) else [];
    assert |op| == b.opSize;
    hide Contract;
    HoldsFirst(op + lab, imm);
    HoldsFirst(lab, []);
    HoldsRest(op, lab, 0, lab);
    HoldsInside(op + lab + imm, 0, op + lab, |op|, lab);
    assert InsnBytes(b, l, i) == op + lab + imm;
    HoldsInside(bytes, pos, InsnBytes(b, l, i), |op|, lab);
  }

  lemma OffsetsRecorded(b: Backend, order: seq<FuncRef>, m: Layouts, fo: map<FuncRef, nat>, data: seq<Blob>, embeds: seq<Blob>, table: SymTab, bytes: seq<Byte>, f: FuncRef)
    requires SelfConsistent(b, order, m, fo, data, embeds, table, bytes) && f in order
    ensures f in m && Read(fo, f) == m[f].tables.offset && CodeOk(m[f].code, m[f].ops)
  {
    hide CodeOk, FuncSettled, Encoded;
    assert LayoutOk(m, f);
  }

  /** A symbol immediate in the section reads as the offset or the size that the
      table records for its symbol. */
  lemma SymbolImmediates(b: Backend, order: seq<FuncRef>, m: Layouts, fo: map<FuncRef, nat>, data: seq<Blob>, embeds: seq<Blob>, table: SymTab, bytes: seq<Byte>, p: Pending)
    requires Contract(b) && SelfConsistent(b, order, m, fo, data, embeds, table, bytes)
    requires p.func in order && Asks(m, p) && LaidOut(m[p.func], p.insn)
    ensures p.insn in m[p.func].imm && p.fixup.sym in table
    ensures Holds(bytes, Read(m[p.func].tables.insnOffsets, p.insn), InsnBytes(b, m[p.func], p.insn))
    ensures var (bs, d) := (m[p.func].imm[p.insn], table[p.fixup.sym]);
      && Holds(bytes, Read(m[p.func].tables.insnOffsets, p.insn) + b.opSize, bs)
      && b.decode(bs) == if p.fixup.kind == Addr then d.offset else d.size
  {
    hide Contract, Holds, InsnBytes, FuncBytes, FuncSettled, LayoutSettled, SelfConsistent, CodeBytes, Within;
    Parts(b, order, m, fo, data, embeds, table, bytes);
    EncodedOf(b, order, m, fo, data, embeds, table, bytes, p);
    var tail := Concat(data) + Concat(embeds);
    assert bytes == CodeBytes(b, m, order) + tail;
    FuncHeld(b, order, m, fo, tail, p.func);
    var l, i := m[p.func], p.insn;
    InsnHeld(b, l, fo, bytes, i);
    ImmInside(b, l, i, bytes, Read(l.tables.insnOffsets, i));
  }

  lemma EncodedOf(b: Backend, order: seq<FuncRef>, m: Layouts, fo: map<FuncRef, nat>, data: seq<Blob>, embeds: seq<Blob>, table: SymTab, bytes: seq<Byte>, p: Pending)
    requires SelfConsistent(b, order, m, fo, data, embeds, table, bytes) && Asks(m, p)
    ensures Encoded(b, m, table, p)
  {
    hide ObjectOk, SettledSoFar, CodeBytes, Table, Within;
  }

  lemma ImmInside(b: Backend, l: FuncLayout, i: InsnId, bytes: seq<Byte>, pos: nat)
    requires Contract(b) && Holds(bytes, pos, InsnBytes(b, l, i)) && i in l.imm && l.code.LabelOf(i).None?
    ensures Holds(bytes, pos + b.opSize, l.imm[i])
  {
    var op := b.emitOpcode(if i in l.ops then l.ops[i] else 0);
    assert |op| == b.opSize && b.emitImmediate(l.imm[i]) == l.imm[i];
    hide Contract;
    HoldsFirst(l.imm[i], []);
    assert l.imm[i] + [] == l.imm[i];
    HoldsRest(op, l.imm[i], 0, l.imm[i]);
    assert InsnBytes(b, l, i) == op + l.imm[i] by { assert op + [] == op; }
    HoldsInside(bytes, pos, InsnBytes(b, l, i), |op|, l.imm[i]);
  }

  /** An opcode followed by a label or an immediate announces as many bytes as
      follow it. */
  lemma OpcodesAnnounce(b: Backend, order: seq<FuncRef>, m: Layouts, fo: map<FuncRef, nat>, data: seq<Blob>, embeds: seq<Blob>, table: SymTab, bytes: seq<Byte>, f: FuncRef, i: InsnId)
    requires Contract(b) && SelfConsistent(b, order, m, fo, data, embeds, table, bytes)
    requires f in order && f in m && LaidOut(m[f], i) && (m[f].code.LabelOf(i).Some? <==> i !in m[f].imm)
    ensures i in m[f].ops && b.announces(m[f].ops[i], |InsnBytes(b, m[f], i)| - b.opSize)
  {
    hide SelfConsistent, Contract, InsnBytes;
    AllFit(b, order, m, fo, data, embeds, table, bytes, f);
    var l := m[f];
    var k :| k in l.code.order && i in l.code.Insns(k);
    var j: nat :| j < |l.code.order| && l.code.order[j] == k;
    assert OpsFit(b, l.code, l.ops, l.imm, l.tables, l.code.Insns(k));
    var x: nat :| x < |l.code.Insns(k)| && l.code.Insns(k)[x] == i;
    assert OpFits(b, l.code, l.ops, l.imm, l.tables, i);
    InsnBytesLen(b, l, i);
  }

  lemma AllFit(b: Backend, order: seq<FuncRef>, m: Layouts, fo: map<FuncRef, nat>, data: seq<Blob>, embeds: seq<Blob>, table: SymTab, bytes: seq<Byte>, f: FuncRef)
    requires SelfConsistent(b, order, m, fo, data, embeds, table, bytes) && f in order
    ensures f in m && FuncFits(b, m[f])
  {
    hide ObjectOk, LayoutSettled, LayoutEnd, CodeBytes, Table, Within, Encoded, FuncFits;
  }

  /** No gap: each function starts where the one before it ends, the first at 0,
      and the last ends where the data starts. */
  lemma {:induction false} FunctionsTile(b: Backend, m: Layouts, fo: map<FuncRef, nat>, order: seq<FuncRef>, at: nat, k: nat)
    requires Contract(b) && LayoutSettled(b, m, fo, order, at) && k < |order|
    ensures order[k] in m && m[order[k]].tables.offset == at + |CodeBytes(b, m, order[..k])|
    ensures |CodeBytes(b, m, order[..k + 1])| == |CodeBytes(b, m, order[..k])| + m[order[k]].tables.size
    decreases |order|
  {
    hide Contract, FuncBytes, FuncSettled;
    var l := m[order[0]];
    FuncBytesLen(b, l, fo);
    assert order[..k + 1][0] == order[0] && order[..k + 1][1..] == order[1..][..k];
    if k == 0 {
      assert order[..0] == [] && order[1..][..0] == [];
    } else {
      FunctionsTile(b, m, fo, order[1..], at + l.tables.size, k - 1);
      assert order[..k][1..] == order[1..][..k - 1] && order[..k][0] == order[0];
    }
  }
}
