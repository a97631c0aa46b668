/**
 Immediates and the interpreter's arithmetic on them
 (crates/ir/src/value.rs, crates/ir/src/interpret).  An immediate of type
 `I<width>` is kept as its unsigned representative below `2^width`; the
 source widens both operands to 256 bits with sign, computes, and truncates.
 */
module Words {
  function Pow2(n: nat): (r: nat)
    ensures r >= 1
    ensures n > 0 ==> r >= 2
  {
    if n == 0 then 1 else 2 * Pow2(n - 1)
  }

  datatype Imm = Imm(width: nat, bits: nat)

  predicate WellSized(x: Imm) {
    0 < x.width && x.bits < Pow2(x.width)
  }

  datatype BinOp = Add | Sub | Mul | And | Or | Xor | Shl | Shr | Sar
                 | Eq | Ne | Lt | Gt | Le | Ge | Slt | Sgt | Sle | Sge

  datatype UnOp = Not | Neg | IsZero

  datatype CastOp = Zext | Sext | Trunc

  predicate IsBitwise(op: BinOp) { op == And || op == Or || op == Xor }

  predicate IsShift(op: BinOp) { op == Shl || op == Shr || op == Sar }

  predicate IsCompare(op: BinOp) { !IsBitwise(op) && !IsShift(op) && op != Add && op != Sub && op != Mul }

  function Zero(width: nat): Imm { Imm(width, 0) }

  function One(width: nat): Imm { Imm(width, 1) }

  function AllOnes(width: nat): Imm { Imm(width, Pow2(width) - 1) }

  function Bool(b: bool): Imm { Imm(1, if b then 1 else 0) }

  // ----- reading a word as a signed number and widening it

  function Signed(x: Imm): int
    requires WellSized(x)
  {
    if x.bits >= Pow2(x.width - 1) then x.bits - Pow2(x.width) else x.bits
  }

  /** The 256-bit word the source computes with. */
  function Widened(x: Imm): nat
    requires WellSized(x)
  {
    Signed(x) % Pow2(256)
  }

  // ----- the operations

  function BitOf(op: BinOp, p: nat, q: nat): (r: nat)
    ensures r <= 1
  {
    match op
    case And => if p == 1 && q == 1 then 1 else 0
    case Or => if p == 1 || q == 1 then 1 else 0
    case _ => if p != q then 1 else 0
  }

  function Bitwise(op: BinOp, p: nat, q: nat, n: nat): (r: nat)
    ensures r < Pow2(n)
  {
    if n == 0 then 0 else 2 * Bitwise(op, p / 2, q / 2, n - 1) + BitOf(op, p % 2, q % 2)
  }

  function ShiftLeft(bits: Imm, value: Imm): (r: Imm)
    requires WellSized(bits) && WellSized(value)
    ensures WellSized(r) && r.width == value.width
  {
    var shift := Widened(bits);
    if shift >= 256 then Zero(value.width)
    else Imm(value.width, Widened(value) * Pow2(shift) % Pow2(256) % Pow2(value.width))
  }

  function ShiftRight(bits: Imm, value: Imm): (r: Imm)
    requires WellSized(bits) && WellSized(value)
    ensures WellSized(r) && r.width == value.width
  {
    var shift := Widened(bits);
    if shift >= 256 then Zero(value.width)
    else Imm(value.width, Widened(value) / Pow2(shift) % Pow2(value.width))
  }

  function Negated(x: Imm): (r: Imm)
    requires WellSized(x)
    ensures WellSized(r) && r.width == x.width
  {
    Imm(x.width, (0 - x.bits) % Pow2(x.width))
  }

  /** The source shifts without sign and negates the result of a word that is
      not positive. */
  function ShiftArithmetic(bits: Imm, value: Imm): (r: Imm)
    requires WellSized(bits) && WellSized(value)
    ensures WellSized(r) && r.width == value.width
  {
    var shifted := ShiftRight(bits, value);
    if Signed(value) > 0 then shifted else Negated(shifted)
  }

  predicate Compared(op: BinOp, x: Imm, y: Imm)
    requires WellSized(x) && WellSized(y)
  {
    match op
    case Eq => x == y
    case Ne => x != y
    case Lt => x.bits < y.bits
    case Gt => x.bits > y.bits
    case Le => x.bits <= y.bits
    case Ge => x.bits >= y.bits
    case Slt => Signed(x) < Signed(y)
    case Sgt => Signed(x) > Signed(y)
    case Sle => Signed(x) <= Signed(y)
    case _ => Signed(x) >= Signed(y)
  }

  function ResultWidth(op: BinOp, width: nat): nat {
    if IsCompare(op) then 1 else width
  }

  /** Operands in the order of the instruction: a shift has the amount first. */
  function Apply(op: BinOp, x: Imm, y: Imm): (r: Imm)
    requires WellSized(x) && WellSized(y) && x.width == y.width
    ensures WellSized(r) && r.width == ResultWidth(op, x.width)
  {
    var m := Pow2(x.width);
    match op
    case Add => Imm(x.width, (x.bits + y.bits) % m)
    case Sub => Imm(x.width, (x.bits - y.bits) % m)
    case Mul => Imm(x.width, (x.bits * y.bits) % m)
    case Shl => ShiftLeft(x, y)
    case Shr => ShiftRight(x, y)
    case Sar => ShiftArithmetic(x, y)
    case And | Or | Xor => Imm(x.width, Bitwise(op, x.bits, y.bits, x.width))
    case _ => Bool(Compared(op, x, y))
  }

  function ApplyUnary(op: UnOp, x: Imm): (r: Imm)
    requires WellSized(x)
    ensures WellSized(r) && r.width == if op == IsZero then 1 else x.width
  {
    match op
    case Not => Imm(x.width, Pow2(x.width) - 1 - x.bits)
    case Neg => Negated(x)
    case IsZero => Bool(x.bits == 0)
  }

  predicate CastAllowed(op: CastOp, from: nat, to: nat) {
    0 < to && if op == Trunc then from >= to else from <= to
  }

  function ApplyCast(op: CastOp, x: Imm, width: nat): (r: Imm)
    requires WellSized(x) && CastAllowed(op, x.width, width)
    ensures WellSized(r) && r.width == width
  {
    match op
    case Zext => PowGrows(x.width, width); Imm(width, x.bits)
    case Sext => Imm(width, Signed(x) % Pow2(width))
    case Trunc => Imm(width, x.bits % Pow2(width))
  }

  lemma {:induction false} PowGrows(m: nat, n: nat)
    requires m <= n
    ensures Pow2(m) <= Pow2(n)
  {
    if m < n { PowGrows(m, n - 1); }
  }

  lemma PowRises(m: nat, n: nat)
    ensures m < n ==> Pow2(m) < Pow2(n)
  {
    if m < n {
      PowGrows(m, n - 1);
      assert Pow2(n) == 2 * Pow2(n - 1);
    }
  }

  // ----- the identities the simplifier relies on

  lemma {:induction false} BitsWithZero(op: BinOp, p: nat, n: nat)
    requires p < Pow2(n) && IsBitwise(op)
    ensures Bitwise(op, p, 0, n) == Bitwise(op, 0, p, n) == if op == And then 0 else p
  {
    if n > 0 { BitsWithZero(op, p / 2, n - 1); }
  }

  lemma {:induction false} BitsWithSelf(op: BinOp, p: nat, n: nat)
    requires p < Pow2(n) && IsBitwise(op)
    ensures Bitwise(op, p, p, n) == if op == Xor then 0 else p
  {
    if n > 0 { BitsWithSelf(op, p / 2, n - 1); }
  }

  lemma {:induction false} BitsWithOnes(op: BinOp, p: nat, n: nat)
    requires p < Pow2(n) && (op == And || op == Or)
    ensures Bitwise(op, p, Pow2(n) - 1, n) == Bitwise(op, Pow2(n) - 1, p, n) == if op == And then p else Pow2(n) - 1
  {
    if n > 0 {
      BitsWithOnes(op, p / 2, n - 1);
      var ones := Pow2(n) - 1;
      assert ones / 2 == Pow2(n - 1) - 1 && ones % 2 == 1;
    }
  }

  lemma BitLaws(op: BinOp, p: nat, n: nat)
    requires p < Pow2(n) && IsBitwise(op)
    ensures Bitwise(op, p, 0, n) == Bitwise(op, 0, p, n) == if op == And then 0 else p
    ensures op != Xor ==> Bitwise(op, p, Pow2(n) - 1, n) == Bitwise(op, Pow2(n) - 1, p, n) == if op == And then p else Pow2(n) - 1
    ensures Bitwise(op, p, p, n) == if op == Xor then 0 else p
  {
    BitsWithZero(op, p, n);
    BitsWithSelf(op, p, n);
    if op != Xor { BitsWithOnes(op, p, n); }
  }

  lemma SmallMod(a: int, m: int)
    requires 0 <= a < m
    ensures a % m == a
  {
  }

  lemma WordLaws(x: Imm)
    requires WellSized(x)
    ensures Apply(Add, x, Zero(x.width)) == x == Apply(Add, Zero(x.width), x)
    ensures Apply(Sub, x, Zero(x.width)) == x && Apply(Sub, x, x) == Zero(x.width)
    ensures Apply(Mul, x, Zero(x.width)) == Zero(x.width) == Apply(Mul, Zero(x.width), x)
    ensures Apply(Mul, x, One(x.width)) == x == Apply(Mul, One(x.width), x)
    ensures Apply(And, x, Zero(x.width)) == Zero(x.width) == Apply(And, Zero(x.width), x)
    ensures Apply(And, x, AllOnes(x.width)) == x == Apply(And, AllOnes(x.width), x)
    ensures Apply(Or, x, Zero(x.width)) == x == Apply(Or, Zero(x.width), x)
    ensures Apply(Or, x, AllOnes(x.width)) == AllOnes(x.width) == Apply(Or, AllOnes(x.width), x)
    ensures Apply(Xor, x, Zero(x.width)) == x == Apply(Xor, Zero(x.width), x)
    ensures Apply(And, x, x) == x == Apply(Or, x, x) && Apply(Xor, x, x) == Zero(x.width)
  {
    ArithmeticLaws(x);
    BitwiseLaws(x);
    hide WellSized, Apply;
  }

  lemma ArithmeticLaws(x: Imm)
    requires WellSized(x)
    ensures Apply(Add, x, Zero(x.width)) == x == Apply(Add, Zero(x.width), x)
    ensures Apply(Sub, x, Zero(x.width)) == x && Apply(Sub, x, x) == Zero(x.width)
    ensures Apply(Mul, x, Zero(x.width)) == Zero(x.width) == Apply(Mul, Zero(x.width), x)
    ensures Apply(Mul, x, One(x.width)) == x == Apply(Mul, One(x.width), x)
  {
    hide Pow2, Bitwise, Widened, Signed;
    SmallMod(x.bits, Pow2(x.width));
    SmallMod(0, Pow2(x.width));
  }

  lemma BitwiseLaws(x: Imm)
    requires WellSized(x)
    ensures Apply(And, x, Zero(x.width)) == Zero(x.width) == Apply(And, Zero(x.width), x)
    ensures Apply(And, x, AllOnes(x.width)) == x == Apply(And, AllOnes(x.width), x)
    ensures Apply(Or, x, Zero(x.width)) == x == Apply(Or, Zero(x.width), x)
    ensures Apply(Or, x, AllOnes(x.width)) == AllOnes(x.width) == Apply(Or, AllOnes(x.width), x)
    ensures Apply(Xor, x, Zero(x.width)) == x == Apply(Xor, Zero(x.width), x)
    ensures Apply(And, x, x) == x == Apply(Or, x, x) && Apply(Xor, x, x) == Zero(x.width)
  {
    hide Pow2, Bitwise, Widened, Signed;
    BitLaws(And, x.bits, x.width);
    BitLaws(Or, x.bits, x.width);
    BitLaws(Xor, x.bits, x.width);
  }

  lemma {:induction false} PowSplits(m: nat, n: nat)
    requires m <= n
    ensures Pow2(n) == Pow2(m) * Pow2(n - m)
  {
    if m < n { PowSplits(m, n - 1); }
  }

  lemma ModTwice(a: int, k: nat, m: nat)
    requires k > 0 && m > 0
    ensures a % (m * k) % m == a % m
  {
    var q, r := a / (m * k), a % (m * k);
    assert a == m * (k * q) + r;
    assert r == m * (r / m) + r % m;
    assert a == m * (k * q + r / m) + r % m;
    ModUnique(a, m, k * q + r / m, r % m);
  }

  lemma ModUnique(a: int, m: nat, q: int, r: int)
    requires m > 0 && a == m * q + r && 0 <= r < m
    ensures a % m == r
  {
    var k := q - a / m;
    assert a == m * (a / m) + a % m;
    assert m * k == a % m - r by { assert m * k == m * q - m * (a / m); }
    assert m * -k == -(m * k);
    if k > 0 { AtLeast(m, k); }
    if k < 0 { AtLeast(m, -k); }
  }

  lemma AtLeast(m: int, k: int)
    requires m > 0 && k > 0
    ensures m * k >= m
  {
  }

  /** Widening and truncating gives the word back. */
  lemma WidenTruncate(x: Imm)
    requires WellSized(x) && x.width <= 256
    ensures Widened(x) % Pow2(x.width) == x.bits
    ensures Widened(x) == 0 <==> x.bits == 0
  {
    var m := Pow2(x.width);
    PowSplits(x.width, 256);
    ModTwice(Signed(x), Pow2(256 - x.width), m);
    ModUnique(Signed(x), m, if x.bits >= Pow2(x.width - 1) then -1 else 0, x.bits);
    SmallMod(0, Pow2(256));
    SmallMod(0, m);
  }

  /** The rules for a zero amount and a zero word, for the two unsigned shifts. */
  lemma ShiftLaws(bits: Imm, value: Imm)
    requires WellSized(bits) && WellSized(value) && bits.width == value.width <= 256
    ensures bits.bits == 0 ==> ShiftLeft(bits, value) == value && ShiftRight(bits, value) == value
    ensures value.bits == 0 ==> ShiftLeft(bits, value) == value == ShiftRight(bits, value)
    ensures value.bits == 0 ==> ShiftArithmetic(bits, value) == value
  {
    assert Pow2(0) == 1;
    hide Pow2, Signed, Widened;
    WidenTruncate(bits);
    WidenTruncate(value);
    var w := Widened(value);
    WidenedRange(value);
    SmallMod(w, Pow2(256));
    SmallMod(0, Pow2(value.width));
    assert w * 1 == w && w / 1 == w;
    if value.bits == 0 {
      NegatedExact(value);
      var k := Pow2(Widened(bits));
      assert w * k == 0 && 0 / k == 0;
    }
  }

  lemma WidenedRange(x: Imm)
    requires WellSized(x)
    ensures Widened(x) < Pow2(256)
    ensures x.bits == 0 ==> Signed(x) == 0
  {
  }

  /** Not negative, or the least word of its width. */
  predicate KeptByZeroShift(x: Imm) { 0 < x.width && x.bits <= Pow2(x.width - 1) }

  /** The rule `x sar 0 = x` of the simplifier, against the interpreter: it
      fails exactly for the negative words other than the least one. */
  lemma SarByZeroExact(value: Imm)
    requires WellSized(value) && value.width <= 256
    ensures Apply(Sar, Zero(value.width), value) == value <==> KeptByZeroShift(value)
    ensures KeptByZeroShift(value) <==> Signed(value) >= 0 || value.bits == Pow2(value.width - 1)
  {
    hide Pow2, Widened, ShiftLeft, ShiftRight, Signed, Negated;
    ShiftLaws(Zero(value.width), value);
    NegatedExact(value);
  }

  lemma NegatedExact(x: Imm)
    requires WellSized(x)
    ensures Negated(x) == x <==> x.bits == 0 || x.bits == Pow2(x.width - 1)
    ensures Signed(x) >= 0 <==> x.bits < Pow2(x.width - 1)
    ensures Signed(x) == 0 <==> x.bits == 0
  {
    var m, half := Pow2(x.width), Pow2(x.width - 1);
    assert m == 2 * half;
    NegatedIs(x);
    hide Pow2, Negated;
  }

  lemma NegatedIs(x: Imm)
    requires WellSized(x)
    ensures Negated(x) == if x.bits == 0 then x else Imm(x.width, Pow2(x.width) - x.bits)
  {
    var m := Pow2(x.width);
    if x.bits == 0 {
      SmallMod(0, m);
    } else {
      ModUnique(0 - x.bits, m, -1, m - x.bits);
    }
    hide Pow2;
  }

  /** Negating twice gives the word back. */
  lemma TwiceNegated(op: UnOp, x: Imm)
    requires WellSized(x) && op != IsZero
    ensures ApplyUnary(op, ApplyUnary(op, x)) == x
  {
    if op == Neg {
      NegatedIs(x);
      NegatedIs(Negated(x));
    }
    hide Pow2, Negated;
  }

  lemma CastLaws(op: CastOp, x: Imm)
    requires WellSized(x)
    ensures ApplyCast(op, x, x.width) == x
  {
    var m := Pow2(x.width);
    SmallMod(x.bits, m);
    ModUnique(Signed(x), m, if x.bits >= Pow2(x.width - 1) then -1 else 0, x.bits);
  }

  // ----- computing with 256 bits, as the source does

  lemma Congruent(a: int, b: int, m: int, q: int)
    requires m > 0 && a == b + m * q
    ensures a % m == b % m
  {
    var k := b / m;
    assert b == m * k + b % m;
    assert m * (k + q) == m * k + m * q;
    ModUnique(a, m, k + q, b % m);
  }

  /** A wide result, cut to the width of `x`. */
  function Cut(x: Imm, wide: int): Imm
    requires WellSized(x)
  {
    Imm(x.width, wide % Pow2(256) % Pow2(x.width))
  }

  lemma CutIs(x: Imm, wide: int)
    requires WellSized(x) && x.width <= 256
    ensures Cut(x, wide) == Imm(x.width, wide % Pow2(x.width))
  {
    PowSplits(x.width, 256);
    ModTwice(wide, Pow2(256 - x.width), Pow2(x.width));
  }

  /** The wide word is the word and a multiple of the modulus. */
  lemma WideIs(x: Imm) returns (q: int)
    requires WellSized(x) && x.width <= 256
    ensures Widened(x) == x.bits + Pow2(x.width) * q
  {
    hide Pow2, Widened;
    WidenTruncate(x);
    q := Divided(Widened(x), Pow2(x.width));
  }

  lemma Divided(a: int, m: int) returns (q: int)
    requires m > 0
    ensures a == a % m + m * q
  {
    q := a / m;
  }

  lemma Products(m: int, a: int, b: int, p: int, q: int)
    ensures (a + m * p) * (b + m * q) == a * b + m * (a * q + p * b + m * p * q)
  {
    assert (a + m * p) * (b + m * q) == a * b + a * (m * q) + (m * p) * b + (m * p) * (m * q);
    assert a * (m * q) == m * (a * q) && (m * p) * b == m * (p * b) && (m * p) * (m * q) == m * (m * p * q);
    assert m * (a * q + p * b + m * p * q) == m * (a * q) + m * (p * b) + m * (m * p * q);
  }

  /** Widening both operands with sign, computing modulo 2^256 and truncating is
      arithmetic modulo the width. */
  lemma ArithmeticIsWide(x: Imm, y: Imm)
    requires WellSized(x) && WellSized(y) && x.width == y.width <= 256
    ensures Apply(Add, x, y) == Cut(x, Widened(x) + Widened(y))
    ensures Apply(Sub, x, y) == Cut(x, Widened(x) - Widened(y))
    ensures Apply(Mul, x, y) == Cut(x, Widened(x) * Widened(y))
    ensures ApplyUnary(Neg, x) == Cut(x, 0 - Widened(x))
    ensures ApplyUnary(Not, x) == Cut(x, Pow2(256) - 1 - Widened(x))
  {
    hide Pow2, Widened, Cut, Bitwise, Compared, ShiftLeft, ShiftRight, ShiftArithmetic;
    var m := Pow2(x.width);
    var p := WideIs(x);
    var q := WideIs(y);
    PowSplits(x.width, 256);
    var k := Pow2(256 - x.width);
    var (a, b) := (Widened(x), Widened(y));
    CutIs(x, a + b);
    CutIs(x, a - b);
    CutIs(x, a * b);
    CutIs(x, 0 - a);
    CutIs(x, m * k - 1 - a);
    Products(m, x.bits, y.bits, p, q);
    WideSums(m, a, b, x.bits, y.bits, p, q);
    Congruent(a * b, x.bits * y.bits, m, x.bits * q + p * y.bits + m * p * q);
    assert m * k - 1 - a == m - 1 - x.bits + m * (k - 1 - p) by { Distribute(m, k, p); }
    Congruent(m * k - 1 - a, m - 1 - x.bits, m, k - 1 - p);
    SmallMod(m - 1 - x.bits, m);
  }

  lemma Distribute(m: int, k: int, p: int)
    ensures m * (k - 1 - p) == m * k - m - m * p
  {
  }

  lemma WideSums(m: int, a: int, b: int, x: int, y: int, p: int, q: int)
    requires m > 0 && a == x + m * p && b == y + m * q
    ensures (a + b) % m == (x + y) % m && (a - b) % m == (x - y) % m && (0 - a) % m == (0 - x) % m
  {
    assert m * (p + q) == m * p + m * q && m * (p - q) == m * p - m * q && m * (0 - p) == -(m * p);
    Congruent(a + b, x + y, m, p + q);
    Congruent(a - b, x - y, m, p - q);
    Congruent(0 - a, 0 - x, m, 0 - p);
  }

  /** A 256-bit word read with sign. */
  function SignedWide(u: nat): int {
    if u >= Pow2(255) then u - Pow2(256) else u
  }

  /** Comparing the widened words, without or with sign, compares the words. */
  lemma ComparisonIsWide(x: Imm, y: Imm)
    requires WellSized(x) && WellSized(y) && x.width == y.width <= 256
    ensures Apply(Lt, x, y) == (if Widened(x) < Widened(y) then One(1) else Zero(1))
    ensures Apply(Gt, x, y) == (if Widened(x) > Widened(y) then One(1) else Zero(1))
    ensures Apply(Le, x, y) == (if Widened(x) <= Widened(y) then One(1) else Zero(1))
    ensures Apply(Ge, x, y) == (if Widened(x) >= Widened(y) then One(1) else Zero(1))
    ensures Apply(Eq, x, y) == (if Widened(x) == Widened(y) then One(1) else Zero(1))
    ensures Apply(Ne, x, y) == (if Widened(x) != Widened(y) then One(1) else Zero(1))
  {
    hide Pow2, Widened, Signed, SignedWide, ShiftLeft, ShiftRight, ShiftArithmetic, Bitwise;
    WideOrder(x);
    WideOrder(y);
    SpreadOrder(x.bits, y.bits, Pow2(x.width - 1), Pow2(256) - Pow2(x.width));
  }

  lemma SignedComparisonIsWide(x: Imm, y: Imm, a: int, b: int)
    requires WellSized(x) && WellSized(y) && x.width == y.width <= 256
    requires a == SignedWide(Widened(x)) && b == SignedWide(Widened(y))
    ensures Apply(Slt, x, y) == (if a < b then One(1) else Zero(1)) && Apply(Sgt, x, y) == (if a > b then One(1) else Zero(1))
    ensures Apply(Sle, x, y) == (if a <= b then One(1) else Zero(1)) && Apply(Sge, x, y) == (if a >= b then One(1) else Zero(1))
  {
    hide Pow2, Widened, Signed, SignedWide, ShiftLeft, ShiftRight, ShiftArithmetic, Bitwise;
    WideOrder(x);
    WideOrder(y);
  }

  lemma SpreadOrder(p: int, q: int, half: int, d: int)
    requires d >= 0
    ensures var (a, b) := (if p < half then p else p + d, if q < half then q else q + d); (a < b <==> p < q) && (a == b <==> p == q)
  {
  }

  lemma HalfOf(n: nat)
    requires n > 0
    ensures Pow2(n) == 2 * Pow2(n - 1)
  {
  }

  /** What a word is as a wide one. */
  lemma WideOrder(x: Imm)
    requires WellSized(x) && x.width <= 256
    ensures Widened(x) == if x.bits < Pow2(x.width - 1) then x.bits else x.bits + (Pow2(256) - Pow2(x.width))
    ensures SignedWide(Widened(x)) == Signed(x)
    ensures x.bits < Pow2(x.width) <= Pow2(256)
  {
    hide Pow2;
    var (m, half) := (Pow2(x.width), Pow2(x.width - 1));
    PowGrows(x.width, 256);
    PowGrows(x.width - 1, 255);
    HalfOf(x.width);
    HalfOf(256);
    if x.bits < half {
      SmallMod(x.bits, Pow2(256));
    } else {
      ModUnique(Signed(x), Pow2(256), -1, x.bits + (Pow2(256) - m));
    }
  }

  /** Shifting left is multiplying modulo the width. */
  lemma ShiftLeftExact(bits: Imm, value: Imm)
    requires WellSized(bits) && WellSized(value) && bits.width == value.width <= 256
    ensures Apply(Shl, bits, value) == if Widened(bits) >= 256 then Zero(value.width) else Imm(value.width, value.bits * Pow2(Widened(bits)) % Pow2(value.width))
  {
    hide Pow2, Widened, ShiftRight, ShiftArithmetic, Bitwise, Compared;
    var (m, s) := (Pow2(value.width), Widened(bits));
    var q := WideIs(value);
    CutIs(value, Widened(value) * Pow2(s));
    var k := Pow2(s);
    assert (value.bits + m * q) * k == value.bits * k + m * (q * k);
    Congruent(Widened(value) * k, value.bits * k, m, q * k);
  }

  /** Shifting right by less than 256 shifts zeros into a word that is not
      negative, or not widened. */
  lemma ShiftRightUnsigned(bits: Imm, value: Imm, s: nat)
    requires WellSized(bits) && WellSized(value) && bits.width == value.width <= 256 && s == Widened(bits)
    ensures s >= 256 ==> Apply(Shr, bits, value) == Zero(value.width)
    ensures s < 256 && Widened(value) == value.bits ==> Apply(Shr, bits, value).bits == value.bits / Pow2(s)
    ensures Widened(value) == value.bits <==> Signed(value) >= 0 || value.width == 256
  {
    hide Pow2, Widened, ShiftLeft, ShiftArithmetic, Bitwise, Compared, Signed;
    WideOrder(value);
    SignOf(value);
    assert value.width < 256 ==> Pow2(value.width) < Pow2(256) by { PowRises(value.width, 256); }
    if s < 256 { QuotientSmall(value.bits, Pow2(s), Pow2(value.width)); }
  }

  /** It shifts the sign into a negative one while the shift stays within what
      was widened. */
  lemma ShiftRightSigned(bits: Imm, value: Imm, s: nat)
    requires WellSized(bits) && WellSized(value) && bits.width == value.width && s == Widened(bits) && s + value.width <= 256
    ensures Apply(Shr, bits, value) == Imm(value.width, Signed(value) / Pow2(s) % Pow2(value.width))
  {
    hide Pow2, Widened, ShiftLeft, ShiftArithmetic, Bitwise, Compared, Signed;
    var w := value.width;
    WideOrder(value);
    SignOf(value);
    PowSplits(s, 256);
    PowSplits(w, 256 - s);
    SignShifted(Widened(value), Signed(value), Pow2(w), Pow2(s), Pow2(256 - s - w), if value.bits < Pow2(w - 1) then 0 else 1);
  }

  lemma SignShifted(u: int, v: int, m: int, k: int, j: int, t: int)
    requires m > 0 && k > 0 && u == v + (k * (m * j)) * t
    ensures u / k % m == v / k % m
  {
    assert (k * (m * j)) * t == k * ((m * j) * t) && (m * j) * t == m * (j * t);
    QuotientSum(v, k, m * (j * t));
    Congruent(u / k, v / k, m, j * t);
  }

  /** An arithmetic shift is the other right shift for a word that is positive,
      and its negation for any other. */
  lemma ShiftArithmeticExact(bits: Imm, value: Imm)
    requires WellSized(bits) && WellSized(value) && bits.width == value.width <= 256
    ensures Apply(Sar, bits, value) == if Signed(value) > 0 then Apply(Shr, bits, value) else ApplyUnary(Neg, Apply(Shr, bits, value))
    ensures Signed(value) == 0 ==> Apply(Sar, bits, value) == value
  {
    hide Pow2, Widened, Signed, Negated, Bitwise, Compared, ShiftLeft, ShiftRight;
    if Signed(value) == 0 {
      NegatedExact(value);
      ShiftLaws(bits, value);
    }
  }

  lemma SignOf(x: Imm)
    requires WellSized(x)
    ensures Signed(x) == if x.bits < Pow2(x.width - 1) then x.bits else x.bits - Pow2(x.width)
    ensures Signed(x) >= 0 <==> x.bits < Pow2(x.width - 1)
  {
    hide Pow2;
  }

  lemma QuotientSmall(a: nat, k: nat, m: nat)
    requires k > 0 && a < m
    ensures 0 <= a / k < m && a / k % m == a / k
  {
    assert a == k * (a / k) + a % k;
    if a / k > a { AtLeast(a / k, k); }
    SmallMod(a / k, m);
  }

  lemma QuotientSum(a: int, k: int, q: int)
    requires k > 0
    ensures (a + k * q) / k == a / k + q
  {
    var c := a + k * q;
    assert a == k * (a / k) + a % k;
    assert c == k * (a / k + q) + a % k;
    assert c == k * (c / k) + c % k;
    var d := c / k - (a / k + q);
    assert k * d == a % k - c % k;
    assert k * -d == -(k * d);
    if d > 0 { AtLeast(k, d); }
    if d < 0 { AtLeast(k, -d); }
  }

  /** Widening a word keeps its value, without or with sign; narrowing it keeps
      what fits. */
  lemma CastsExact(x: Imm, width: nat)
    requires WellSized(x) && 0 < width <= 256 && x.width <= 256
    ensures x.width <= width ==> ApplyCast(Zext, x, width).bits == x.bits
    ensures x.width <= width ==> Signed(ApplyCast(Sext, x, width)) == Signed(x) && ApplyCast(Sext, x, width).bits == Widened(x) % Pow2(width)
    ensures x.width >= width ==> ApplyCast(Trunc, x, width).bits == Widened(x) % Pow2(width)
  {
    hide Pow2, Signed, Widened;
    SignOf(x);
    HalfOf(x.width);
    var m := Pow2(width);
    PowSplits(width, 256);
    if x.width <= width {
      PowGrows(x.width - 1, width - 1);
      HalfOf(width);
      WidenedMod(x, width);
      SignOf(ApplyCast(Sext, x, width));
      if Signed(x) >= 0 { SmallMod(Signed(x), m); } else { ModUnique(Signed(x), m, -1, Signed(x) + m); }
    } else {
      PowSplits(width, x.width);
      WideIsMod(x, width);
    }
    if x.width == width { WideIsMod(x, width); }
  }

  lemma WidenedMod(x: Imm, width: nat)
    requires WellSized(x) && x.width <= width <= 256
    ensures Widened(x) % Pow2(width) == Signed(x) % Pow2(width)
  {
    hide Pow2, Signed;
    PowSplits(width, 256);
    ModTwice(Signed(x), Pow2(256 - width), Pow2(width));
  }

  lemma WideIsMod(x: Imm, width: nat)
    requires WellSized(x) && width <= x.width <= 256
    ensures Widened(x) % Pow2(width) == x.bits % Pow2(width)
  {
    hide Pow2, Widened, WellSized;
    var q := WideIs(x);
    PowSplits(width, x.width);
    var (m, k) := (Pow2(width), Pow2(x.width - width));
    Regroup(m, k, q);
    Congruent(Widened(x), x.bits, m, k * q);
  }

  lemma Regroup(m: int, k: int, q: int)
    ensures (m * k) * q == m * (k * q)
  {
  }

  lemma HalfMod(a: nat, b: nat, m: nat)
    requires m > 0 && b < 2
    ensures (2 * a + b) % (2 * m) == 2 * (a % m) + b
    ensures (2 * (a % m) + b) / 2 == a % m && (2 * (a % m) + b) % 2 == b
  {
    assert a == m * (a / m) + a % m;
    assert 2 * a + b == (2 * m) * (a / m) + (2 * (a % m) + b);
    ModUnique(2 * a + b, 2 * m, a / m, 2 * (a % m) + b);
  }

  lemma {:induction false} BitwiseCut(op: BinOp, p: nat, q: nat, n: nat, k: nat)
    requires k <= n
    ensures Bitwise(op, p, q, n) % Pow2(k) == Bitwise(op, p % Pow2(k), q % Pow2(k), k)
  {
    hide Bitwise, BitOf, Pow2;
    if k > 0 {
      var m := Pow2(k - 1);
      BitwiseCut(op, p / 2, q / 2, n - 1, k - 1);
      HalfOf(k);
      HalvesMod(p, m);
      HalvesMod(q, m);
      BitwiseSplit(op, p, q, n);
      BitwiseSplit(op, p % (2 * m), q % (2 * m), k);
      HalfMod(Bitwise(op, p / 2, q / 2, n - 1), BitOf(op, p % 2, q % 2), m);
    } else {
      BitwiseNone(op, p, q, n);
    }
  }

  lemma BitwiseSplit(op: BinOp, p: nat, q: nat, n: nat)
    requires n > 0
    ensures Bitwise(op, p, q, n) == 2 * Bitwise(op, p / 2, q / 2, n - 1) + BitOf(op, p % 2, q % 2)
  {
  }

  lemma BitwiseNone(op: BinOp, p: nat, q: nat, n: nat)
    ensures Bitwise(op, p, q, n) % Pow2(0) == Bitwise(op, p % Pow2(0), q % Pow2(0), 0)
  {
  }

  lemma HalvesMod(p: nat, m: nat)
    requires m > 0
    ensures p % (2 * m) / 2 == p / 2 % m && p % (2 * m) % 2 == p % 2
  {
    HalfMod(p / 2, p % 2, m);
    assert p == 2 * (p / 2) + p % 2;
  }

  /** The bitwise operations may be done on the widened words as well. */
  lemma BitwiseIsWide(op: BinOp, x: Imm, y: Imm)
    requires WellSized(x) && WellSized(y) && x.width == y.width <= 256 && IsBitwise(op)
    ensures Apply(op, x, y) == Cut(x, Bitwise(op, Widened(x), Widened(y), 256))
  {
    hide Pow2, Widened, Bitwise, Cut;
    WidenTruncate(x);
    WidenTruncate(y);
    CutIs(x, Bitwise(op, Widened(x), Widened(y), 256));
    BitwiseCut(op, Widened(x), Widened(y), 256, x.width);
  }
}
