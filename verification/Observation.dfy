/** Evaluation of observation expressions in checked 64-bit arithmetic, and the same
    expressions over the unbounded integers. */
module Observation {
  import opened Common

  const MAX: int := 0x7fff_ffff_ffff_ffff
  const MIN: int := -0x8000_0000_0000_0000
  const MODULUS: int := 0x1_0000_0000_0000_0000

  type Long = n: int | MIN <= n <= MAX
  type Eight = b: seq<Byte> | |b| == 8 witness [0, 0, 0, 0, 0, 0, 0, 0]

  datatype BinaryOp = Add | Sub | Mul | Div | Mod | Lt | Gt | Le | Ge | Eq | Ne
                    | And | Or | BitAnd | BitOr | Xor | Shl | Shr
  datatype UnaryOp = Neg | Not | BitNot

  datatype Expr =
    | Number(literal: Long)
    | TypeName
    | Load(name: string)
    | Unary(uop: UnaryOp, operand: Expr)
    | Binary(op: BinaryOp, left: Expr, right: Expr)
    | Conditional(cond: Expr, yes: Expr, no: Expr)
    | Mutation(target: Expr)

  /** The eight bytes at a variable's address and the size its type is read with. */
  datatype Cell = Cell(bytes: Eight, size: nat)

  type Memory = string -> Option<Cell>

  /** A value, an evaluation that did not succeed, or an exception. */
  datatype Outcome = Value(v: Long) | Failed | Thrown

  // ---- Machine words ---------------------------------------------------------------

  function Pow2(n: nat): (r: nat)
    ensures r >= 1
  {
    if n == 0 then 1 else 2 * Pow2(n - 1)
  }

  /** The two's complement number of `n` bits with the given low bits. */
  function Signed(n: nat, u: int): int
    requires n > 0
  {
    var low := u % Pow2(n);
    if low >= Pow2(n - 1) then low - Pow2(n) else low
  }

  lemma Pow64()
    ensures Pow2(64) == MODULUS && Pow2(63) == MAX + 1
  {
    assert Pow2(8) == 0x100;
    assert Pow2(16) == 0x1_0000;
    assert Pow2(24) == 0x100_0000;
    assert Pow2(32) == 0x1_0000_0000;
    assert Pow2(40) == 0x100_0000_0000;
    assert Pow2(48) == 0x1_0000_0000_0000;
    assert Pow2(56) == 0x100_0000_0000_0000;
  }

  /** What is left of an integer in a 64-bit register. */
  function Wrap(n: int): Long {
    var low := n % MODULUS;
    if low > MAX then low - MODULUS else low
  }

  lemma WrapIsSigned(n: int)
    ensures Wrap(n) == Signed(64, n)
  {
    Pow64();
  }

  type Bit = b: int | 0 <= b <= 1

  /** A bitwise operator on the low `n` bits of two registers. */
  function Bitwise(f: (Bit, Bit) -> Bit, n: nat, u: int, v: int): (r: nat) {
    if n == 0 then 0 else f(u % 2, v % 2) + 2 * Bitwise(f, n - 1, u / 2, v / 2)
  }

  function Abs(n: int): int {
    if n < 0 then -n else n
  }

  function TruncDiv(l: int, r: int): int
    requires r != 0
  {
    var q := Abs(l) / Abs(r);
    if l < 0 <==> r < 0 then q else -q
  }

  function TruncMod(l: int, r: int): int
    requires r != 0
  {
    l - TruncDiv(l, r) * r
  }

  /** Arithmetic shift, one bit at a time. */
  function ShiftRight(l: int, r: nat): int
    decreases r
  {
    if r == 0 then l else ShiftRight(l / 2, r - 1)
  }

  function ShiftLeft(l: Long, r: nat): Long
    decreases r
  {
    if r == 0 then l else ShiftLeft(Wrap(2 * l), r - 1)
  }

  const AndBits: (Bit, Bit) -> Bit := (a: Bit, b: Bit) => if a == 1 && b == 1 then 1 else 0
  const OrBits: (Bit, Bit) -> Bit := (a: Bit, b: Bit) => if a == 1 || b == 1 then 1 else 0
  const XorBits: (Bit, Bit) -> Bit := (a: Bit, b: Bit) => if a != b then 1 else 0

  function Truth(b: bool): Long {
    if b then 1 else 0
  }

  // ---- Checked evaluation ----------------------------------------------------------

  predicate Overflows(n: int) {
    !(MIN <= n <= MAX)
  }

  /** The guard in front of an operator. */
  predicate Invalid(op: BinaryOp, l: Long, r: Long) {
    match op
    case Add => Overflows(l + r)
    case Sub => Overflows(l - r)
    case Mul => Overflows(l * r)
    case Div => r == 0 || (l == MIN && r == -1)
    case Mod => r == 0 || (l == MIN && r == -1)
    case Shl => r < 0 || r >= 64 || l < 0 || l > ShiftRight(MAX, r)
    case Shr => r < 0 || r >= 64
    case _ => false
  }

  /** The operator itself, as the register computes it. */
  function Machine(op: BinaryOp, l: Long, r: Long): Long
    requires !op.And? && !op.Or? && !Invalid(op, l, r)
  {
    match op
    case Add => Wrap(l + r)
    case Sub => Wrap(l - r)
    case Mul => Wrap(l * r)
    case Div => Wrap(TruncDiv(l, r))
    case Mod => Wrap(TruncMod(l, r))
    case Lt => Truth(l < r)
    case Gt => Truth(l > r)
    case Le => Truth(l <= r)
    case Ge => Truth(l >= r)
    case Eq => Truth(l == r)
    case Ne => Truth(l != r)
    case BitAnd => Wrap(Bitwise(AndBits, 64, l, r))
    case BitOr => Wrap(Bitwise(OrBits, 64, l, r))
    case Xor => Wrap(Bitwise(XorBits, 64, l, r))
    case Shl => ShiftLeft(l, r)
    case Shr => Wrap(ShiftRight(l, r))
  }

  function MachineUnary(op: UnaryOp, v: Long): Long
    requires !(op.Neg? && v == MIN)
  {
    match op
    case Neg => -v
    case Not => Truth(v == 0)
    case BitNot => Wrap(Bitwise(XorBits, 64, v, -1))
  }

  /** A whole word is read and then cut down to the size of the type. */
  function LoadCell(c: Cell): Long {
    var word := Wrap(LittleEndian(c.bytes));
    if c.size == 1 then Wrap(Signed(8, word))
    else if c.size == 2 then Wrap(Signed(16, word))
    else if c.size == 4 then Wrap(Signed(32, word))
    else word
  }

  function Eval(e: Expr, m: Memory): Outcome {
    match e
    case Number(v) => Value(v)
    case TypeName => Failed
    case Load(x) => if m(x).None? then Failed else Value(LoadCell(m(x).value))
    case Mutation(_) => Thrown
    case Unary(op, a) =>
      var v := Eval(a, m);
      if !v.Value? then v else if op.Neg? && v.v == MIN then Thrown else Value(MachineUnary(op, v.v))
    case Binary(op, a, b) =>
      var l := Eval(a, m);
      if !l.Value? then l
      else if op.And? && l.v == 0 then Value(0)
      else if op.Or? && l.v != 0 then Value(1)
      else
        var r := Eval(b, m);
        if !r.Value? then r
        else if op.And? || op.Or? then Value(Truth(r.v != 0))
        else if Invalid(op, l.v, r.v) then Thrown
        else Value(Machine(op, l.v, r.v))
    case Conditional(c, a, b) =>
      var v := Eval(c, m);
      if !v.Value? then v else if v.v != 0 then Eval(a, m) else Eval(b, m)
  }

  // ---- Over the unbounded integers -------------------------------------------------

  function Magnitude(x: int): nat {
    if x >= 0 then x else -x - 1
  }

  /** A bitwise operator on two's complement numbers of unlimited width. */
  function IdealBitwise(f: (Bit, Bit) -> Bit, x: int, y: int): int
    decreases Magnitude(x) + Magnitude(y)
  {
    if -1 <= x <= 0 && -1 <= y <= 0 then if f(-x, -y) == 1 then -1 else 0
    else f(x % 2, y % 2) + 2 * IdealBitwise(f, x / 2, y / 2)
  }

  function IdealBinary(op: BinaryOp, l: int, r: int): Option<int> {
    match op
    case Add => Some(l + r)
    case Sub => Some(l - r)
    case Mul => Some(l * r)
    case Div => if r == 0 then None else Some(TruncDiv(l, r))
    case Mod => if r == 0 then None else Some(TruncMod(l, r))
    case Lt => Some(Truth(l < r))
    case Gt => Some(Truth(l > r))
    case Le => Some(Truth(l <= r))
    case Ge => Some(Truth(l >= r))
    case Eq => Some(Truth(l == r))
    case Ne => Some(Truth(l != r))
    case And => Some(Truth(l != 0 && r != 0))
    case Or => Some(Truth(l != 0 || r != 0))
    case BitAnd => Some(IdealBitwise(AndBits, l, r))
    case BitOr => Some(IdealBitwise(OrBits, l, r))
    case Xor => Some(IdealBitwise(XorBits, l, r))
    case Shl => if r < 0 then None else Some(l * Pow2(r))
    case Shr => if r < 0 then None else Some(l / Pow2(r))
  }

  function IdealUnary(op: UnaryOp, v: int): int {
    match op
    case Neg => -v
    case Not => Truth(v == 0)
    case BitNot => -v - 1
  }

  /** The signed number in the variable's own bytes. */
  function IdealLoad(c: Cell): int {
    var n := if c.size == 1 || c.size == 2 || c.size == 4 then c.size else 8;
    Signed(8 * n, LittleEndian(c.bytes[..n]))
  }

  /** The meaning of an expression; `None` where it has none. */
  function Ideal(e: Expr, m: Memory): Option<int> {
    match e
    case Number(v) => Some(v)
    case TypeName => None
    case Load(x) => if m(x).None? then None else Some(IdealLoad(m(x).value))
    case Mutation(_) => None
    case Unary(op, a) =>
      var v := Ideal(a, m);
      if v.None? then None else Some(IdealUnary(op, v.value))
    case Binary(op, a, b) =>
      var l := Ideal(a, m);
      if l.None? then None
      else if (op.And? && l.value == 0) || (op.Or? && l.value != 0) then Some(Truth(l.value != 0))
      else
        var r := Ideal(b, m);
        if r.None? then None else IdealBinary(op, l.value, r.value)
    case Conditional(c, a, b) =>
      var v := Ideal(c, m);
      if v.None? then None else if v.value != 0 then Ideal(a, m) else Ideal(b, m)
  }

  // ---- Bitwise operators -----------------------------------------------------------

  lemma MultipleIsFar(k: int, p: int)
    requires p > 0
    ensures k >= 1 ==> k * p >= p
    ensures k <= -1 ==> k * p <= -p
  {
  }

  lemma ModUnique(x: int, p: int, q: int, low: int)
    requires p > 0 && 0 <= low < p && x == q * p + low
    ensures x % p == low && x / p == q
  {
    var k := x / p - q;
    assert k * p == low - x % p;
    MultipleIsFar(k, p);
  }

  lemma LowBitsStep(b: Bit, r: int, p: int)
    requires p > 0
    ensures (b + 2 * r) % (2 * p) == b + 2 * (r % p)
  {
    var q, low := r / p, r % p;
    assert r == q * p + low;
    assert b + 2 * r == q * (2 * p) + (b + 2 * low);
    ModUnique(b + 2 * r, 2 * p, q, b + 2 * low);
  }

  /** The unlimited result, bit by bit. */
  lemma IdealBitwiseStep(f: (Bit, Bit) -> Bit, x: int, y: int)
    ensures IdealBitwise(f, x, y) == f(x % 2, y % 2) + 2 * IdealBitwise(f, x / 2, y / 2)
  {
  }

  /** The register holds the low bits of the unlimited result. */
  lemma {:induction false} BitwiseIsLowBits(f: (Bit, Bit) -> Bit, n: nat, x: int, y: int)
    ensures Bitwise(f, n, x, y) == IdealBitwise(f, x, y) % Pow2(n)
    decreases n
  {
    if n > 0 {
      BitwiseIsLowBits(f, n - 1, x / 2, y / 2);
      IdealBitwiseStep(f, x, y);
      LowBitsStep(f(x % 2, y % 2), IdealBitwise(f, x / 2, y / 2), Pow2(n - 1));
    }
  }

  /** Operands of `n` bits and a sign give a result of `n` bits and a sign. */
  lemma {:induction false} BitwiseInRange(f: (Bit, Bit) -> Bit, n: nat, x: int, y: int)
    requires Magnitude(x) < Pow2(n) && Magnitude(y) < Pow2(n)
    ensures Magnitude(IdealBitwise(f, x, y)) < Pow2(n)
    decreases n
  {
    if n > 0 {
      BitwiseInRange(f, n - 1, x / 2, y / 2);
      IdealBitwiseStep(f, x, y);
    }
  }

  lemma WrapFits(n: int, q: int)
    requires !Overflows(n)
    ensures Wrap(n) == n && Wrap(n + q * MODULUS) == n
  {
    var low := if n >= 0 then n else n + MODULUS;
    ModUnique(n, MODULUS, if n >= 0 then 0 else -1, low);
    ModUnique(n + q * MODULUS, MODULUS, if n >= 0 then q else q - 1, low);
  }

  lemma BitwiseExact(f: (Bit, Bit) -> Bit, l: Long, r: Long)
    ensures Wrap(Bitwise(f, 64, l, r)) == IdealBitwise(f, l, r)
  {
    Pow64();
    BitwiseInRange(f, 63, l, r);
    BitwiseIsLowBits(f, 64, l, r);
    var ideal := IdealBitwise(f, l, r);
    WrapFits(ideal, -(ideal / MODULUS));
  }

  lemma {:induction false} ComplementIsXor(v: int)
    ensures IdealBitwise(XorBits, v, -1) == -v - 1
    decreases Magnitude(v)
  {
    if !(-1 <= v <= 0) {
      ComplementIsXor(v / 2);
    }
  }

  // ---- Shifts, division and loads --------------------------------------------------

  lemma HalfThenDivide(l: int, p: int)
    requires p > 0
    ensures l / 2 / p == l / (2 * p)
  {
    var q, low := l / (2 * p), l % (2 * p);
    assert l == q * p * 2 + low;
    ModUnique(l / 2, p, q, low / 2);
  }

  lemma {:induction false} ShiftRightDivides(l: int, r: nat)
    ensures ShiftRight(l, r) == l / Pow2(r)
    decreases r
  {
    if r > 0 {
      ShiftRightDivides(l / 2, r - 1);
      HalfThenDivide(l, Pow2(r - 1));
    }
  }

  /** Bit `k` of a number in two's complement. */
  predicate HasBit(x: int, k: nat) {
    x / Pow2(k) % 2 == 1
  }

  lemma {:induction false} BitOfBitwise(f: (Bit, Bit) -> Bit, x: int, y: int, k: nat)
    ensures IdealBitwise(f, x, y) / Pow2(k) % 2 == f(x / Pow2(k) % 2, y / Pow2(k) % 2)
    decreases k
  {
    IdealBitwiseStep(f, x, y);
    if k > 0 {
      var rest := IdealBitwise(f, x / 2, y / 2);
      BitOfBitwise(f, x / 2, y / 2, k - 1);
      HalfThenDivide(x, Pow2(k - 1));
      HalfThenDivide(y, Pow2(k - 1));
      HalfThenDivide(IdealBitwise(f, x, y), Pow2(k - 1));
      assert IdealBitwise(f, x, y) / 2 == rest;
    }
  }

  /** The bitwise operators, bit by bit. */
  lemma BitwiseMeaning(l: int, r: int, k: nat)
    ensures HasBit(IdealBinary(BitAnd, l, r).value, k) <==> HasBit(l, k) && HasBit(r, k)
    ensures HasBit(IdealBinary(BitOr, l, r).value, k) <==> HasBit(l, k) || HasBit(r, k)
    ensures HasBit(IdealBinary(Xor, l, r).value, k) <==> HasBit(l, k) != HasBit(r, k)
  {
    BitOfBitwise(AndBits, l, r, k);
    BitOfBitwise(OrBits, l, r, k);
    BitOfBitwise(XorBits, l, r, k);
  }

  lemma QuotientBounds(l: int, p: int, max: int)
    requires p > 0
    ensures l <= max / p <==> l * p <= max
  {
    var q, low := max / p, max % p;
    assert max == q * p + low;
    MultipleIsFar(l - q, p);
    assert l * p == q * p + (l - q) * p;
    if l <= q {
      assert (l - q) * p <= 0;
    }
  }

  lemma ScaleAtLeast(l: int, p: int)
    requires l >= 0 && p >= 1
    ensures l * p >= l
  {
  }

  /** A left shift inside the range is a multiplication. */
  lemma {:induction false} ShiftLeftMultiplies(l: Long, r: nat)
    requires l >= 0 && l * Pow2(r) <= MAX
    ensures ShiftLeft(l, r) == l * Pow2(r)
    decreases r
  {
    if r > 0 {
      assert l * Pow2(r) == 2 * l * Pow2(r - 1);
      ScaleAtLeast(2 * l, Pow2(r - 1));
      WrapFits(2 * l, 0);
      ShiftLeftMultiplies(2 * l, r - 1);
    }
  }

  lemma QuotientIsSmaller(l: int, r: int)
    requires l >= 0 && r > 0
    ensures var q := l / r; 0 <= q <= l && 0 <= l - q * r < r && (q == l ==> l == 0 || r == 1)
  {
    var q := l / r;
    assert l == q * r + l % r;
    MultipleIsFar(q, r);
    ScaleAtLeast(q, r);
    if r >= 2 {
      assert q * r == 2 * q + q * (r - 2);
    }
  }

  /** Division truncates toward zero and the remainder has the sign of the dividend. */
  lemma TruncDivMeaning(l: int, r: int)
    requires r != 0
    ensures var q, m := TruncDiv(l, r), TruncMod(l, r);
            && l == q * r + m && Abs(m) < Abs(r)
            && (l >= 0 ==> m >= 0) && (l <= 0 ==> m <= 0)
            && Abs(q) <= Abs(l) && (q == -l ==> l == 0 || r == -1)
  {
    var a, b := Abs(l), Abs(r);
    QuotientIsSmaller(a, b);
    SignRule(a / b, b);
  }

  lemma SignRule(q: int, b: int)
    ensures (-q) * (-b) == q * b && (-q) * b == -(q * b) && q * (-b) == -(q * b)
  {
  }

  // ---- Checked arithmetic is exact --------------------------------------------------

  predicate InRange(n: Option<int>) {
    n.Some? && !Overflows(n.value)
  }

  /** Beyond the range of the result, the guards refuse the shifts a register cannot do and
      the remainder of the least number by -1. */
  predicate Guarded(op: BinaryOp, l: int, r: int) {
    && (op.Shl? ==> r < 64 && l >= 0)
    && (op.Shr? ==> r < 64)
    && (op.Mod? ==> !(l == MIN && r == -1))
  }

  lemma DivisionIsExact(op: BinaryOp, l: Long, r: Long)
    requires op.Div? || op.Mod?
    ensures !Invalid(op, l, r) <==> InRange(IdealBinary(op, l, r)) && Guarded(op, l, r)
    ensures !Invalid(op, l, r) ==> Machine(op, l, r) == IdealBinary(op, l, r).value
  {
    if r != 0 {
      TruncDivMeaning(l, r);
      var n := IdealBinary(op, l, r).value;
      if !Overflows(n) {
        WrapFits(n, 0);
      }
    }
  }

  lemma ShiftIsExact(op: BinaryOp, l: Long, r: Long)
    requires op.Shl? || op.Shr?
    ensures !Invalid(op, l, r) <==> InRange(IdealBinary(op, l, r)) && Guarded(op, l, r)
    ensures !Invalid(op, l, r) ==> Machine(op, l, r) == IdealBinary(op, l, r).value
  {
    if 0 <= r < 64 {
      if op.Shl? {
        ShiftRightDivides(MAX, r);
        QuotientBounds(l, Pow2(r), MAX);
        if l >= 0 {
          ScaleAtLeast(l, Pow2(r));
          if l * Pow2(r) <= MAX {
            ShiftLeftMultiplies(l, r);
          }
        }
      } else {
        ShiftRightDivides(l, r);
        QuotientStaysInRange(l, Pow2(r));
        WrapFits(l / Pow2(r), 0);
      }
    }
  }

  lemma QuotientStaysInRange(l: Long, p: int)
    requires p >= 1
    ensures !Overflows(l / p)
  {
    var q, low := l / p, l % p;
    assert l == q * p + low;
    if q >= 0 {
      ScaleAtLeast(q, p);
    } else {
      ScaleAtLeast(-q - 1, p);
      assert (-q - 1) * p == -(q * p) - p;
    }
  }

  lemma SumIsExact(n: int)
    ensures !Overflows(n) ==> Wrap(n) == n
  {
    if !Overflows(n) {
      WrapFits(n, 0);
    }
  }

  /** An operator is let through exactly when its unbounded result fits, up to the few extra
      guards, and then the register holds that result. */
  lemma OperatorIsExact(op: BinaryOp, l: Long, r: Long)
    requires !op.And? && !op.Or?
    ensures !Invalid(op, l, r) <==> InRange(IdealBinary(op, l, r)) && Guarded(op, l, r)
    ensures !Invalid(op, l, r) ==> Machine(op, l, r) == IdealBinary(op, l, r).value
  {
    match op {
      case Div => DivisionIsExact(op, l, r);
      case Mod => DivisionIsExact(op, l, r);
      case Shl => ShiftIsExact(op, l, r);
      case Shr => ShiftIsExact(op, l, r);
      case BitAnd => BitwiseExact(AndBits, l, r);
      case BitOr => BitwiseExact(OrBits, l, r);
      case Xor => BitwiseExact(XorBits, l, r);
      case Add => SumIsExact(l + r);
      case Sub => SumIsExact(l - r);
      case Mul => SumIsExact(l * r);
      case _ =>
    }
  }

  lemma UnaryIsExact(op: UnaryOp, v: Long)
    ensures !(op.Neg? && v == MIN) <==> !Overflows(IdealUnary(op, v))
    ensures !(op.Neg? && v == MIN) ==> MachineUnary(op, v) == IdealUnary(op, v)
  {
    if op.BitNot? {
      BitwiseExact(XorBits, v, -1);
      ComplementIsXor(v);
    }
  }

  // ---- Loads -----------------------------------------------------------------------

  lemma Pow2Byte(n: nat)
    ensures Pow2(n + 8) == 256 * Pow2(n)
  {
    assert Pow2(n + 2) == 4 * Pow2(n);
    assert Pow2(n + 4) == 4 * Pow2(n + 2);
    assert Pow2(n + 6) == 4 * Pow2(n + 4);
  }

  /** The first bytes of a word are its low bits. */
  lemma {:induction false} LowBytes(bytes: seq<Byte>, n: nat) returns (rest: nat)
    requires n <= |bytes|
    ensures LittleEndian(bytes) == rest * Pow2(8 * n) + LittleEndian(bytes[..n])
    ensures LittleEndian(bytes[..n]) < Pow2(8 * n)
    decreases n
  {
    if n == 0 {
      rest := LittleEndian(bytes);
    } else {
      rest := LowBytes(bytes[1..], n - 1);
      assert bytes[1..][..n - 1] == bytes[..n][1..];
      Pow2Byte(8 * (n - 1));
      JoinByte(bytes[0], rest, Pow2(8 * (n - 1)), LittleEndian(bytes[..n][1..]));
    }
  }

  lemma JoinByte(b: Byte, rest: nat, p: nat, low: nat)
    requires low < p
    ensures b + 256 * (rest * p + low) == rest * (256 * p) + (b + 256 * low)
    ensures b + 256 * low < 256 * p
  {
    assert rest * (256 * p) == 256 * (rest * p);
  }

  /** Wrapping a word to 64 bits keeps its low bits. */
  lemma WrapKeepsLow(word: int, p: int, k: int, rest: int, low: int)
    requires p > 0 && word == rest * p + low && 0 <= low < p && k * p == MODULUS
    ensures Wrap(word) % p == low
  {
    var q := word / MODULUS + if word % MODULUS > MAX then 1 else 0;
    assert Wrap(word) == word - q * MODULUS;
    assert q * MODULUS == q * (k * p) == (q * k) * p;
    assert Wrap(word) == (rest - q * k) * p + low;
    ModUnique(Wrap(word), p, rest - q * k, low);
  }

  lemma SmallPowers()
    ensures Pow2(8) == 0x100 && Pow2(16) == 0x1_0000 && Pow2(32) == 0x1_0000_0000
    ensures Pow2(7) == 0x80 && Pow2(15) == 0x8000 && Pow2(31) == 0x8000_0000
  {
    assert Pow2(8) == 0x100;
    assert Pow2(16) == 0x1_0000;
    assert Pow2(24) == 0x100_0000;
  }

  lemma NarrowLoad(c: Cell, k: int)
    requires c.size == 1 || c.size == 2 || c.size == 4
    requires k * Pow2(8 * c.size) == MODULUS
    ensures Signed(8 * c.size, Wrap(LittleEndian(c.bytes))) == Signed(8 * c.size, LittleEndian(c.bytes[..c.size]))
    ensures !Overflows(Signed(8 * c.size, Wrap(LittleEndian(c.bytes))))
  {
    SmallPowers();
    var p := Pow2(8 * c.size);
    var rest := LowBytes(c.bytes, c.size);
    var low := LittleEndian(c.bytes[..c.size]);
    WrapKeepsLow(LittleEndian(c.bytes), p, k, rest, low);
    ModUnique(low, p, 0, low);
  }

  /** Cutting a word down to a type's size gives the number in the type's own bytes. */
  lemma LoadIsExact(c: Cell)
    ensures LoadCell(c) == IdealLoad(c)
  {
    SmallPowers();
    if c.size == 1 || c.size == 2 || c.size == 4 {
      var scale :=
        if c.size == 1 then 0x100_0000_0000_0000 else if c.size == 2 then 0x1_0000_0000_0000 else 0x1_0000_0000;
      NarrowLoad(c, scale);
      SumIsExact(Signed(8 * c.size, Wrap(LittleEndian(c.bytes))));
    } else {
      assert c.bytes[..8] == c.bytes;
      WrapIsSigned(LittleEndian(c.bytes));
    }
  }

  // ---- Whole expressions -----------------------------------------------------------

  /** Every load succeeds, nothing is modified, and every result that is computed fits. */
  predicate Fits(e: Expr, m: Memory) {
    match e
    case Number(_) => true
    case TypeName => false
    case Load(x) => m(x).Some?
    case Mutation(_) => false
    case Unary(op, a) => Fits(a, m) && InRange(Ideal(e, m))
    case Binary(op, a, b) =>
      && Fits(a, m) && Ideal(a, m).Some?
      && var l := Ideal(a, m).value;
         || (op.And? && l == 0)
         || (op.Or? && l != 0)
         || (Fits(b, m) && InRange(Ideal(b, m)) && InRange(Ideal(e, m)) && Guarded(op, l, Ideal(b, m).value))
    case Conditional(c, a, b) =>
      Fits(c, m) && Ideal(c, m).Some? && if Ideal(c, m).value != 0 then Fits(a, m) else Fits(b, m)
  }

  /** An expression has a value exactly when everything it computes fits, and the value is
      its meaning over the unbounded integers. */
  lemma {:induction false} EvaluationIsExact(e: Expr, m: Memory)
    ensures Eval(e, m).Value? <==> Fits(e, m)
    ensures Eval(e, m).Value? ==> Ideal(e, m) == Some(Eval(e, m).v)
  {
    match e {
      case Load(x) =>
        if m(x).Some? {
          LoadIsExact(m(x).value);
        }
      case Unary(op, a) =>
        EvaluationIsExact(a, m);
        if Eval(a, m).Value? {
          UnaryIsExact(op, Eval(a, m).v);
        }
      case Binary(op, a, b) =>
        EvaluationIsExact(a, m);
        EvaluationIsExact(b, m);
        if Eval(a, m).Value? && Eval(b, m).Value? && !op.And? && !op.Or? {
          OperatorIsExact(op, Eval(a, m).v, Eval(b, m).v);
        }
      case Conditional(c, a, b) =>
        EvaluationIsExact(c, m);
        EvaluationIsExact(a, m);
        EvaluationIsExact(b, m);
      case _ =>
    }
  }

  predicate ReadOnly(e: Expr) {
    match e
    case Unary(_, a) => ReadOnly(a)
    case Binary(_, a, b) => ReadOnly(a) && ReadOnly(b)
    case Conditional(c, a, b) => ReadOnly(c) && ReadOnly(a) && ReadOnly(b)
    case Mutation(_) => false
    case _ => true
  }

  /** What an observation returns; `None` is an exception. */
  function EvaluateObservation(e: Expr, m: Memory): Option<Long> {
    if !ReadOnly(e) then None
    else
      var r := Eval(e, m);
      if r.Value? then Some(r.v) else None
  }

  /** An observation that returns, returns the exact value; it returns exactly for read-only
      expressions all of whose results fit. */
  lemma ObservationIsExact(e: Expr, m: Memory)
    ensures var r := EvaluateObservation(e, m);
            (r.Some? <==> ReadOnly(e) && Fits(e, m)) && (r.Some? ==> Ideal(e, m) == Some(r.value))
  {
    EvaluationIsExact(e, m);
  }
}
