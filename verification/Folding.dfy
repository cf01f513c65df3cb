/** The constant folder of the C++ example on integer literals (src/examples/CPP/walker.ts:59-226): it folds
    to exactly the values that clause 5 of ISO/IEC 14882:2014 defines and a JavaScript number holds. */
module Folding {
  import opened Options
  import opened Words
  import Refinement

  // ----- scalars -----

  datatype IntKind = Bool | Int | Unsigned | Long | UnsignedLong | LongLong | UnsignedLongLong

  datatype Scalar = Scalar(kind: IntKind, value: int)

  const MAX_SAFE_INTEGER: int := 0x1F_FFFF_FFFF_FFFF

  function Width(k: IntKind): (bits: nat)
    ensures bits > 0
  {
    if k.Bool? || k.Int? || k.Unsigned? then 32 else 64
  }

  // Half of how many values there are.
  function Half(k: IntKind): (h: int)
    ensures h > 0
  {
    Pow2(Width(k) - 1)
  }

  predicate IsUnsigned(k: IntKind) {
    k.Unsigned? || k.UnsignedLong? || k.UnsignedLongLong?
  }

  predicate Safe(v: int) {
    -MAX_SAFE_INTEGER <= v <= MAX_SAFE_INTEGER
  }

  // ----- the folder -----

  function AsUintN(bits: nat, v: int): int {
    v % Pow2(bits)
  }

  function AsIntN(bits: nat, v: int): int
    requires bits > 0
  {
    var u := AsUintN(bits, v);
    if u < Pow2(bits - 1) then u else u - Pow2(bits)
  }

  function ConvertExact(v: int, k: IntKind): int {
    if IsUnsigned(k) then AsUintN(Width(k), v) else AsIntN(Width(k), v)
  }

  function FromBig(v: int, k: IntKind): Option<Scalar> {
    if v > MAX_SAFE_INTEGER || v < -MAX_SAFE_INTEGER then None else Some(Scalar(k, v))
  }

  // Unsigned results wrap; a signed one that does not fit is no value.
  function AsExact(v: int, k: IntKind): Option<Scalar> {
    if IsUnsigned(k) then FromBig(AsUintN(Width(k), v), k)
    else if AsIntN(Width(k), v) == v then FromBig(v, k)
    else None
  }

  function FromBits(v: int, k: IntKind): Option<Scalar> {
    FromBig(ConvertExact(v, k), k)
  }

  function CommonKind(a: IntKind, b: IntKind): IntKind {
    if Width(a) != Width(b) then (if Width(a) > Width(b) then a else b)
    else if IsUnsigned(a) then a
    else b
  }

  // The bitwise operators of unbounded two's complement integers.
  function BigBits(op: BitOp, x: int, y: int): int
    decreases Magnitude(x) + Magnitude(y)
  {
    var bit: int := OneBit(op, x % 2, y % 2);
    if -1 <= x <= 0 && -1 <= y <= 0 then -bit else 2 * BigBits(op, x / 2, y / 2) + bit
  }

  datatype Op =
    | Plus | Minus | Times | Divide | Modulo | ShiftLeft | ShiftRight | OnBits(op: BitOp)
    | Equal | NotEqual | Less | LessEqual | Greater | GreaterEqual | AndAlso | OrElse | Comma

  function AsBool(b: bool): Option<Scalar> {
    Some(Scalar(Bool, if b then 1 else 0))
  }

  // The operator on operands read in type `kind`, the type of the operation.
  function CalcIn(op: Op, kind: IntKind, x: int, y: int): Option<Scalar> {
    var bits := Width(kind);
    match op
    case Equal => AsBool(x == y)
    case NotEqual => AsBool(x != y)
    case Less => AsBool(x < y)
    case LessEqual => AsBool(x <= y)
    case Greater => AsBool(x > y)
    case GreaterEqual => AsBool(x >= y)
    case Plus => AsExact(x + y, kind)
    case Minus => AsExact(x - y, kind)
    case Times => AsExact(x * y, kind)
    case Divide => if y == 0 || (x == -Half(kind) && y == -1) then None else AsExact(Quotient(x, y), kind)
    case Modulo => if y == 0 || (x == -Half(kind) && y == -1) then None else AsExact(Remainder(x, y), kind)
    case ShiftLeft => if y < 0 || y >= bits || (!IsUnsigned(kind) && x < 0) then None else AsExact(x * Pow2(y), kind)
    case ShiftRight => if y < 0 || y >= bits then None else AsExact(x / Pow2(y), kind)
    case OnBits(o) => FromBits(BigBits(o, x, y), kind)
    case _ => None
  }

  /** Folds one binary operator over two literals; `None` where it is left as it is. */
  function CalcBinary(op: Op, a: Scalar, b: Scalar): Option<Scalar> {
    match op
    case AndAlso => AsBool(a.value != 0 && b.value != 0)
    case OrElse => AsBool(a.value != 0 || b.value != 0)
    case Comma => None
    case _ =>
      var kind := CommonKind(a.kind, b.kind);
      CalcIn(op, kind, ConvertExact(a.value, kind), ConvertExact(b.value, kind))
  }

  datatype UnaryOp = LogicalNot | Keep | Negate | Complement

  function CalcUnary(op: UnaryOp, a: Scalar): Option<Scalar> {
    match op
    case LogicalNot => AsBool(a.value == 0)
    case Keep => Some(a)
    case Negate => AsExact(-ConvertExact(a.value, a.kind), a.kind)
    case Complement => AsExact(-ConvertExact(a.value, a.kind) - 1, a.kind)
  }

  // ----- what the standard says, with `int` of 32 bits and the other types of 64 -----

  predicate InKind(k: IntKind, v: int) {
    if IsUnsigned(k) then 0 <= v < Pow2(Width(k)) else -Half(k) <= v < Half(k)
  }

  predicate Congruent(v: int, w: int, m: nat)
    requires m > 0
  {
    (v - w) % m == 0
  }

  function Promoted(k: IntKind): IntKind {
    if k.Bool? then Int else k
  }

  function Rank(k: IntKind): nat {
    match k
    case Bool => 0
    case Int => 1
    case Unsigned => 1
    case Long => 2
    case UnsignedLong => 2
    case LongLong => 3
    case UnsignedLongLong => 3
  }

  function UnsignedOf(k: IntKind): IntKind {
    match k
    case Long => UnsignedLong
    case UnsignedLong => UnsignedLong
    case LongLong => UnsignedLongLong
    case UnsignedLongLong => UnsignedLongLong
    case _ => Unsigned
  }

  /** The usual arithmetic conversions (clause 5, paragraph 10). */
  function UsualKind(a: IntKind, b: IntKind): IntKind {
    var p, q := Promoted(a), Promoted(b);
    if IsUnsigned(p) == IsUnsigned(q) then (if Rank(p) > Rank(q) then p else q)
    else if IsUnsigned(p) then MixedKind(p, q)
    else MixedKind(q, p)
  }

  function MixedKind(u: IntKind, s: IntKind): IntKind {
    if Rank(u) >= Rank(s) then u else if Width(s) > Width(u) then s else UnsignedOf(s)
  }

  // `w` is what `v` becomes in type `k`.
  ghost predicate Converts(k: IntKind, v: int, w: int) {
    InKind(k, w) && Congruent(v, w, Pow2(Width(k)))
  }

  // `z` is the result in type `k` of an operation whose mathematical result is `e`.
  ghost predicate Fits(k: IntKind, e: int, z: int) {
    InKind(k, z) && if IsUnsigned(k) then Congruent(e, z, Pow2(Width(k))) else z == e
  }

  function BitAt(v: int, i: nat): nat
    decreases i
  {
    if i == 0 then v % 2 else BitAt(v / 2, i - 1)
  }

  // The low `n` bits of `z` are those of the operation on `x` and `y`.
  ghost predicate BitByBit(op: BitOp, n: nat, x: int, y: int, z: int) {
    forall i: nat | i < n :: BitAt(z, i) == OneBit(op, BitAt(x, i), BitAt(y, i))
  }

  // `q` is `x / y` rounded toward zero, and `r` what is left, with the sign of `x`.
  ghost predicate Truncates(x: int, y: int, q: int, r: int) {
    x == q * y + r && Magnitude(r) < Magnitude(y) && (r == 0 || (r < 0 <==> x < 0))
  }

  function Truth(b: bool): int {
    if b then 1 else 0
  }

  /** `z` is the value of the operator on operands that are of type `k` already (of a shift, only the left one). */
  ghost predicate Computes(op: Op, k: IntKind, x: int, y: int, z: int) {
    match op
    case Plus => Fits(k, x + y, z)
    case Minus => Fits(k, x - y, z)
    case Times => Fits(k, x * y, z)
    case Divide => InKind(k, z) && exists r :: Truncates(x, y, z, r)
    case Modulo => exists q :: InKind(k, q) && Truncates(x, y, q, z)
    case ShiftLeft => 0 <= y < Width(k) && (IsUnsigned(k) || x >= 0) && Fits(k, x * Pow2(y), z)
    case ShiftRight => 0 <= y < Width(k) && Pow2(y) * z <= x < Pow2(y) * (z + 1)
    case OnBits(o) => InKind(k, z) && BitByBit(o, Width(k), x, y, z)
    case Equal => z == Truth(x == y)
    case NotEqual => z == Truth(x != y)
    case Less => z == Truth(x < y)
    case LessEqual => z == Truth(x <= y)
    case Greater => z == Truth(x > y)
    case GreaterEqual => z == Truth(x >= y)
    case AndAlso => z == Truth(x != 0 && y != 0)
    case OrElse => z == Truth(x != 0 || y != 0)
    case Comma => z == y
  }

  predicate Shifts(op: Op) {
    op.ShiftLeft? || op.ShiftRight?
  }

  predicate Logical(op: Op) {
    op.AndAlso? || op.OrElse?
  }

  predicate Compares(op: Op) {
    op.Equal? || op.NotEqual? || op.Less? || op.LessEqual? || op.Greater? || op.GreaterEqual?
  }

  /** `z` is the value C++ gives the operator: both operands converted to their common type, but for the logical
      operators, which need none, and for the shifts, whose type is that of the promoted left operand. */
  ghost predicate Means(op: Op, a: Scalar, b: Scalar, z: int) {
    if Logical(op) || op.Comma? then Computes(op, a.kind, a.value, b.value, z)
    else if Shifts(op) then Computes(op, Promoted(a.kind), a.value, b.value, z)
    else
      var k := UsualKind(a.kind, b.kind);
      exists x, y :: Converts(k, a.value, x) && Converts(k, b.value, y) && Computes(op, k, x, y, z)
  }

  // The type the result of an operator has.
  function ResultKind(op: Op, a: IntKind, b: IntKind): IntKind {
    if Logical(op) || Compares(op) then Bool else if Shifts(op) then Promoted(a) else UsualKind(a, b)
  }

  // Types with the same values.
  predicate Alike(j: IntKind, k: IntKind) {
    Width(j) == Width(k) && (IsUnsigned(j) <==> IsUnsigned(k))
  }

  // The low `n` bits of `z` are the opposite of those of `v`.
  ghost predicate TurnedOver(n: nat, v: int, z: int) {
    forall i: nat | i < n :: BitAt(z, i) != BitAt(v, i)
  }

  ghost predicate UnaryMeans(op: UnaryOp, a: Scalar, z: int) {
    var k := Promoted(a.kind);
    match op
    case LogicalNot => z == Truth(a.value == 0)
    case Keep => z == a.value
    case Negate => Fits(k, -a.value, z)
    case Complement => InKind(k, z) && TurnedOver(Width(k), a.value, z)
  }

  // ----- conversions -----

  lemma CongruentMod(v: int, w: int, m: nat)
    requires m > 0
    ensures Congruent(v, w, m) <==> v % m == w % m
  {
    if v % m == w % m {
      ModShift(0, m, v / m - w / m);
      assert v - w == 0 + (v / m - w / m) * m;
    }
    if Congruent(v, w, m) {
      ModShift(w, m, (v - w) / m);
      assert v == w + (v - w) / m * m;
    }
  }

  lemma Halves(k: IntKind)
    ensures Pow2(Width(k)) == 2 * Half(k)
  {
  }

  lemma ConvertInKind(k: IntKind, v: int)
    ensures InKind(k, ConvertExact(v, k)) && ConvertExact(v, k) % Pow2(Width(k)) == v % Pow2(Width(k))
  {
    hide Pow2, Half;
    Halves(k);
    HalfOf(k);
    var m := Pow2(Width(k));
    var u := v % m;
    assert 0 <= u < m;
    SmallMod(u, m);
    if u >= Half(k) { ModPlus(u - m, m); }
  }

  lemma HalfOf(k: IntKind)
    ensures Pow2(Width(k) - 1) == Half(k)
  {
  }

  lemma SmallMod(v: int, m: nat)
    requires 0 <= v < m
    ensures v % m == v
  {
    DivModUnique(v, m, 0, v);
  }

  lemma ConvertKeeps(k: IntKind, v: int)
    requires InKind(k, v)
    ensures ConvertExact(v, k) == v
  {
    hide Pow2, Half;
    Halves(k);
    HalfOf(k);
    var m := Pow2(Width(k));
    if v < 0 {
      ModPlus(v, m);
      SmallMod(v + m, m);
    } else {
      SmallMod(v, m);
    }
  }

  /** A conversion is the one value of the type that is congruent. */
  lemma ConvertIs(k: IntKind, v: int, w: int)
    ensures Converts(k, v, w) <==> w == ConvertExact(v, k)
  {
    hide Pow2, InKind, ConvertExact, Congruent;
    var m := Pow2(Width(k));
    CongruentMod(v, w, m);
    ConvertInKind(k, v);
    CongruentMod(v, ConvertExact(v, k), m);
    if Converts(k, v, w) {
      ConvertKeeps(k, w);
      SameResidue(k, v, w);
    }
  }

  lemma SameResidue(k: IntKind, v: int, w: int)
    requires v % Pow2(Width(k)) == w % Pow2(Width(k))
    ensures ConvertExact(v, k) == ConvertExact(w, k)
  {
    hide Pow2;
  }

  // `z` is what was folded to.
  predicate Folds(r: Option<Scalar>, z: int) {
    r.Some? && r.value.value == z
  }

  lemma ExactIs(k: IntKind, e: int, z: int)
    ensures Folds(AsExact(e, k), z) <==> Fits(k, e, z) && Safe(z)
  {
    hide Pow2, InKind, Congruent;
    ConvertIs(k, e, z);
    ConvertInKind(k, e);
    if !IsUnsigned(k) && InKind(k, e) { ConvertKeeps(k, e); }
  }

  // ----- bits -----

  lemma ModHalf(v: int, n: nat)
    requires n > 0
    ensures v % Pow2(n) == 2 * ((v / 2) % Pow2(n - 1)) + v % 2
  {
    var h, p := v / 2, Pow2(n - 1);
    assert v == h / p * (2 * p) + (2 * (h % p) + v % 2);
    DivModUnique(v, 2 * p, h / p, 2 * (h % p) + v % 2);
  }

  ghost predicate SameLow(v: int, w: int, n: nat) {
    forall i: nat | i < n :: BitAt(v, i) == BitAt(w, i)
  }

  lemma SameLowStep(v: int, w: int, n: nat)
    requires n > 0
    ensures SameLow(v, w, n) <==> v % 2 == w % 2 && SameLow(v / 2, w / 2, n - 1)
  {
    if SameLow(v, w, n) {
      assert BitAt(v, 0) == BitAt(w, 0);
      forall i: nat | i < n - 1 ensures BitAt(v / 2, i) == BitAt(w / 2, i) { assert BitAt(v, i + 1) == BitAt(w, i + 1); }
    }
    if v % 2 == w % 2 && SameLow(v / 2, w / 2, n - 1) {
      forall i: nat | i < n ensures BitAt(v, i) == BitAt(w, i) {
        if i > 0 { assert BitAt(v / 2, i - 1) == BitAt(w / 2, i - 1); }
      }
    }
  }

  /** Numbers are congruent modulo a power of two just when their low bits are the same. */
  lemma {:induction false} LowBits(v: int, w: int, n: nat)
    ensures SameLow(v, w, n) <==> v % Pow2(n) == w % Pow2(n)
    decreases n
  {
    hide SameLow, BitAt;
    if n == 0 {
      NoBits(v, w);
    } else {
      ModHalf(v, n);
      ModHalf(w, n);
      SameLowStep(v, w, n);
      LowBits(v / 2, w / 2, n - 1);
      TwiceAndOne((v / 2) % Pow2(n - 1), v % 2, (w / 2) % Pow2(n - 1), w % 2);
    }
  }

  lemma NoBits(v: int, w: int)
    ensures SameLow(v, w, 0) && v % Pow2(0) == w % Pow2(0)
  {
  }

  lemma TwiceAndOne(a: int, x: int, b: int, y: int)
    requires 0 <= x < 2 && 0 <= y < 2
    ensures 2 * a + x == 2 * b + y <==> a == b && x == y
  {
  }

  lemma {:induction false} BigBitAt(op: BitOp, x: int, y: int, i: nat)
    ensures BitAt(BigBits(op, x, y), i) == OneBit(op, BitAt(x, i), BitAt(y, i))
    decreases i
  {
    hide BigBits, OneBit;
    BigBitsHalf(op, x, y);
    if i > 0 { BigBitAt(op, x / 2, y / 2, i - 1); }
  }

  lemma BigBitsHalf(op: BitOp, x: int, y: int)
    ensures BigBits(op, x, y) / 2 == BigBits(op, x / 2, y / 2) && BigBits(op, x, y) % 2 == OneBit(op, x % 2, y % 2)
  {
    hide OneBit;
    assert OneBit(op, x % 2, y % 2) < 2 by { OneBitSmall(op, x % 2, y % 2); }
    if -1 <= x <= 0 && -1 <= y <= 0 { assert x / 2 == x && y / 2 == y; }
  }

  lemma OneBitSmall(op: BitOp, x: nat, y: nat)
    ensures OneBit(op, x, y) < 2
  {
  }

  lemma BigBitsAt(op: BitOp, x: int, y: int, z: int, n: nat)
    ensures SameLow(z, BigBits(op, x, y), n) <==> BitByBit(op, n, x, y, z)
  {
    hide BitAt, BigBits, OneBit;
    var all := BigBits(op, x, y);
    if SameLow(z, all, n) {
      forall i: nat | i < n ensures BitAt(z, i) == OneBit(op, BitAt(x, i), BitAt(y, i)) {
        assert BitAt(z, i) == BitAt(all, i);
        BigBitAt(op, x, y, i);
      }
    }
    if BitByBit(op, n, x, y, z) {
      forall i: nat | i < n ensures BitAt(z, i) == BitAt(all, i) {
        assert BitAt(z, i) == OneBit(op, BitAt(x, i), BitAt(y, i));
        BigBitAt(op, x, y, i);
      }
    }
  }

  lemma BitsIs(k: IntKind, op: BitOp, x: int, y: int, z: int)
    ensures Computes(OnBits(op), k, x, y, z) <==> z == ConvertExact(BigBits(op, x, y), k)
  {
    hide Pow2, BitAt, BigBits, InKind, ConvertExact, Congruent, OneBit, SameLow, BitByBit;
    var all := BigBits(op, x, y);
    BigBitsAt(op, x, y, z, Width(k));
    LowBits(z, all, Width(k));
    CongruentMod(all, z, Pow2(Width(k)));
    ConvertIs(k, all, z);
  }

  // ----- division and shifts -----

  lemma TruncatedIs(x: int, y: int, q: int, r: int)
    requires y != 0
    ensures Truncates(x, y, q, r) <==> q == Quotient(x, y) && r == Remainder(x, y)
  {
    hide Quotient, Remainder, Truncates;
    TruncationThere(x, y);
    if Truncates(x, y, q, r) { TruncationUnique(x, y, q, r, Quotient(x, y), Remainder(x, y)); }
  }

  lemma TruncationThere(x: int, y: int)
    requires y != 0
    ensures Truncates(x, y, Quotient(x, y), Remainder(x, y))
  {
    hide Quotient;
    var r := DividedBack(x, y);
    assert Remainder(x, y) == x - y * Quotient(x, y);
    assert Quotient(x, y) * y == y * Quotient(x, y);
  }

  lemma DividedBack(x: int, y: int) returns (r: nat)
    requires y != 0
    ensures r < Magnitude(y) && x - y * Quotient(x, y) == if x < 0 then 0 - r else r
  {
    var a, b := Magnitude(x), Magnitude(y);
    r := Leftover(a, b);
    Refinement.SignedProduct(x, y, a / b);
  }

  lemma Leftover(a: nat, b: nat) returns (r: nat)
    requires b > 0
    ensures r < b && a == b * (a / b) + r
  {
    r := a % b;
  }

  lemma TruncationUnique(x: int, y: int, q: int, r: int, q': int, r': int)
    requires y != 0 && Truncates(x, y, q, r) && Truncates(x, y, q', r')
    ensures q == q' && r == r'
  {
    hide Truncates;
    var a, b := Magnitude(x), Magnitude(y);
    Magnitudes(x, y, q, r);
    Magnitudes(x, y, q', r');
    DivModUnique(a, b, Magnitude(q), Magnitude(r));
    DivModUnique(a, b, Magnitude(q'), Magnitude(r'));
  }

  lemma Magnitudes(x: int, y: int, q: int, r: int)
    requires y != 0 && Truncates(x, y, q, r)
    ensures Magnitude(x) == Magnitude(q) * Magnitude(y) + Magnitude(r) && Magnitude(r) < Magnitude(y)
    ensures q == 0 || ((x < 0) != (y < 0) <==> q < 0)
    ensures r == 0 || (r < 0 <==> x < 0)
  {
    var d: int, b := if y < 0 then -q else q, Magnitude(y);
    var p: int := d * b;
    MultiplesApart(d, b);
    assert q * y == p;
    assert Magnitude(q) * b == if d < 0 then -p else p;
  }

  lemma DivisionFits(k: IntKind, x: int, y: int)
    requires InKind(k, x) && InKind(k, y) && y != 0
    ensures InKind(k, Quotient(x, y)) <==> !(x == -Half(k) && y == -1)
    ensures InKind(k, Remainder(x, y))
  {
    hide Pow2, Half, Quotient, Remainder, Truncates;
    var q, r := Quotient(x, y), Remainder(x, y);
    Halves(k);
    TruncationThere(x, y);
    Magnitudes(x, y, q, r);
    QuotientOf(Magnitude(x), Magnitude(y), Magnitude(q), Magnitude(r));
  }

  lemma QuotientOf(a: nat, b: nat, q: nat, r: nat)
    requires b > 0 && a == q * b + r && r < b
    ensures q <= a && r <= a && (b > 1 && a > 0 ==> q < a) && (b == 1 ==> q == a)
  {
    AtLeast(q, b);
  }

  lemma QuotientSmall(a: nat, b: nat)
    requires b > 0
    ensures 0 <= a / b <= a
    ensures b > 1 && a > 0 ==> a / b < a
    ensures a / 1 == a
  {
    var q := a / b;
    assert a == q * b + a % b;
    AtLeast(q, b);
  }

  lemma AtLeast(q: int, b: nat)
    requires b > 0 && q >= 0
    ensures q * b >= q && (b > 1 ==> q * b >= 2 * q)
  {
  }

  lemma FloorIs(x: int, m: nat, z: int)
    requires m > 0
    ensures m * z <= x < m * (z + 1) <==> z == x / m
  {
    assert x == x / m * m + x % m && 0 <= x % m < m;
    assert m * (z + 1) == m * z + m;
    if m * z <= x < m * z + m { DivModUnique(x, m, z, x - z * m); }
  }

  lemma ShiftedRight(k: IntKind, x: int, m: nat)
    requires InKind(k, x) && m > 0
    ensures InKind(k, x / m)
  {
    hide Pow2, Half;
    if x >= 0 { QuotientSmall(x, m); } else { NegativeShifted(x, m); }
  }

  lemma NegativeShifted(x: int, m: nat)
    requires x < 0 && m > 0
    ensures x <= x / m < 0
  {
    var q := x / m;
    assert x == q * m + x % m;
    if q >= 0 { AtLeast(q, m); }
    if q < x { BelowNegative(q + 1, x, m); }
  }

  lemma BelowNegative(a: int, b: int, m: nat)
    requires a <= b < 0 && m > 0
    ensures a * m <= b
  {
  }

  // ----- what is folded -----

  lemma SumsAre(op: Op, k: IntKind, x: int, y: int, z: int)
    requires op.Plus? || op.Minus? || op.Times? || Compares(op)
    ensures Folds(CalcIn(op, k, x, y), z) <==> Computes(op, k, x, y, z) && Safe(z)
  {
    hide AsExact, Fits, InKind;
    match op
    case Plus => ExactIs(k, x + y, z);
    case Minus => ExactIs(k, x - y, z);
    case Times => ExactIs(k, x * y, z);
    case _ =>
  }

  lemma DivisionsAre(op: Op, k: IntKind, x: int, y: int, z: int)
    requires (op.Divide? || op.Modulo?) && InKind(k, x) && InKind(k, y)
    ensures Folds(CalcIn(op, k, x, y), z) <==> Computes(op, k, x, y, z) && Safe(z)
  {
    hide AsExact, Fits, InKind, Truncates, Quotient, Remainder, Half;
    if y == 0 {
      NothingByZero(x);
    } else {
      var q, r := Quotient(x, y), Remainder(x, y);
      DivisionFits(k, x, y);
      TruncationThere(x, y);
      forall q', r' | Truncates(x, y, q', r') ensures q' == q && r' == r { TruncationUnique(x, y, q', r', q, r); }
      if InKind(k, q) { ExactIs(k, q, z); InRangeFits(k, q, z); }
      ExactIs(k, r, z);
      InRangeFits(k, r, z);
    }
  }

  lemma NothingByZero(x: int)
    ensures forall q, r :: !Truncates(x, 0, q, r)
  {
  }

  // What is in range is its own result.
  lemma InRangeFits(k: IntKind, e: int, z: int)
    requires InKind(k, e)
    ensures Fits(k, e, z) <==> z == e
  {
    hide InKind, ConvertExact, Congruent;
    ConvertIs(k, e, z);
    ConvertKeeps(k, e);
  }

  lemma ShiftsAre(op: Op, k: IntKind, x: int, y: int, z: int)
    requires Shifts(op) && InKind(k, x)
    ensures Folds(CalcIn(op, k, x, y), z) <==> Computes(op, k, x, y, z) && Safe(z)
  {
    hide AsExact, Fits, InKind, Pow2;
    if 0 <= y < Width(k) {
      ExactIs(k, x * Pow2(y), z);
      ShiftedRight(k, x, Pow2(y));
      FloorIs(x, Pow2(y), z);
      ExactIs(k, x / Pow2(y), z);
      InRangeFits(k, x / Pow2(y), z);
    }
  }

  lemma BitsAre(op: Op, k: IntKind, x: int, y: int, z: int)
    requires op.OnBits?
    ensures Folds(CalcIn(op, k, x, y), z) <==> Computes(op, k, x, y, z) && Safe(z)
  {
    hide BigBits, ConvertExact, InKind, BitByBit;
    BitsIs(k, op.op, x, y, z);
  }

  /** In one type, what is folded to is what the operator computes. */
  lemma CalcInIs(op: Op, k: IntKind, x: int, y: int, z: int)
    requires InKind(k, x) && (Shifts(op) || InKind(k, y)) && !Logical(op) && !op.Comma?
    ensures Folds(CalcIn(op, k, x, y), z) <==> Computes(op, k, x, y, z) && Safe(z)
  {
    hide CalcIn, Computes, InKind, Folds;
    if op.Divide? || op.Modulo? { DivisionsAre(op, k, x, y, z); }
    else if Shifts(op) { ShiftsAre(op, k, x, y, z); }
    else if op.OnBits? { BitsAre(op, k, x, y, z); }
    else { SumsAre(op, k, x, y, z); }
  }

  lemma CommonIsUsual(a: IntKind, b: IntKind)
    ensures Alike(CommonKind(a, b), UsualKind(a, b))
  {
    hide CommonKind, UsualKind, Misnamed, Alike;
    if IsUnsigned(a) == IsUnsigned(b) { NamedSameSign(a, b); } else { NamedMixed(a, b); }
  }

  lemma AlikeComputes(op: Op, j: IntKind, k: IntKind, x: int, y: int, z: int)
    requires Alike(j, k)
    ensures Computes(op, j, x, y, z) <==> Computes(op, k, x, y, z)
    ensures InKind(j, z) <==> InKind(k, z)
    ensures ConvertExact(x, j) == ConvertExact(x, k)
  {
    hide Pow2, Truncates, BitByBit;
  }

  /** A binary operator folds to `z` just when `z` is its value in C++ and a JavaScript number holds it exactly:
      never where it has none, and always where it has one. The shifts are computed in the common type of both
      operands, so this is for a left operand of that type. */
  lemma FoldsExactly(op: Op, a: Scalar, b: Scalar, z: int)
    requires InKind(a.kind, a.value) && InKind(b.kind, b.value)
    requires Shifts(op) ==> Alike(CommonKind(a.kind, b.kind), Promoted(a.kind))
    ensures Folds(CalcBinary(op, a, b), z) <==> !op.Comma? && Means(op, a, b, z) && Safe(z)
  {
    hide CalcIn, Computes, InKind, ConvertExact, CommonKind, UsualKind, Converts, Alike, Promoted, Safe;
    if Logical(op) {
      LogicalIs(op, a, b, z);
    } else if Shifts(op) {
      ShiftFolds(op, a, b, z);
    } else if !op.Comma? {
      var j, k := CommonKind(a.kind, b.kind), UsualKind(a.kind, b.kind);
      CommonIsUsual(a.kind, b.kind);
      forall x ensures Converts(k, a.value, x) <==> x == ConvertExact(a.value, k) { ConvertIs(k, a.value, x); }
      forall y ensures Converts(k, b.value, y) <==> y == ConvertExact(b.value, k) { ConvertIs(k, b.value, y); }
      var x, y := ConvertExact(a.value, j), ConvertExact(b.value, j);
      AlikeComputes(op, j, k, a.value, y, z);
      AlikeComputes(op, j, k, b.value, y, z);
      AlikeComputes(op, j, k, x, y, z);
      ConvertInKind(j, a.value);
      ConvertInKind(j, b.value);
      CalcInIs(op, j, x, y, z);
    }
  }

  lemma LogicalIs(op: Op, a: Scalar, b: Scalar, z: int)
    requires Logical(op)
    ensures Folds(CalcBinary(op, a, b), z) <==> Means(op, a, b, z) && Safe(z)
  {
  }

  lemma ShiftFolds(op: Op, a: Scalar, b: Scalar, z: int)
    requires Shifts(op) && InKind(a.kind, a.value) && InKind(b.kind, b.value) && Alike(CommonKind(a.kind, b.kind), Promoted(a.kind))
    ensures Folds(CalcBinary(op, a, b), z) <==> Means(op, a, b, z) && Safe(z)
  {
    hide CalcIn, Computes, InKind, ConvertExact, Safe;
    var j, k := CommonKind(a.kind, b.kind), Promoted(a.kind);
    var y := ConvertExact(b.value, j);
    AlikeComputes(op, j, a.kind, a.value, y, a.value);
    ConvertKeeps(a.kind, a.value);
    CalcInIs(op, j, a.value, y, z);
    AlikeComputes(op, j, k, a.value, y, z);
    CountKept(op, j, b, a.value, z);
    AlikeComputes(op, j, k, a.value, b.value, z);
  }

  // Converting the count changes nothing: one that does not fit the type is no count either way.
  lemma CountKept(op: Op, k: IntKind, b: Scalar, x: int, z: int)
    requires Shifts(op) && InKind(b.kind, b.value) && Width(k) >= Width(b.kind) && (IsUnsigned(b.kind) ==> IsUnsigned(k) || Width(k) > Width(b.kind))
    ensures Computes(op, k, x, ConvertExact(b.value, k), z) <==> Computes(op, k, x, b.value, z)
  {
    hide Fits;
    if InKind(k, b.value) {
      ConvertKeeps(k, b.value);
    } else {
      NegativeCount(k, b);
    }
  }

  lemma Powers()
    ensures Pow2(1) == 2 && Pow2(40) == 0x100_0000_0000
    ensures forall k :: Half(k) == (if Width(k) == 32 then 0x8000_0000 else 0x8000_0000_0000_0000)
    ensures Pow2(32) == 0x1_0000_0000 && Pow2(64) == 0x1_0000_0000_0000_0000
  {
    assert Pow2(8) == 256;
    SizeIsPow2(K32);
    SizeIsPow2(K64);
    forall k ensures Pow2(Width(k)) == 2 * Half(k) { Halves(k); }
    Pow2Sum(32, 8);
  }

  lemma NegativeCount(k: IntKind, b: Scalar)
    requires InKind(b.kind, b.value) && Width(k) >= Width(b.kind) && (IsUnsigned(b.kind) ==> IsUnsigned(k) || Width(k) > Width(b.kind))
    requires !InKind(k, b.value)
    ensures b.value < 0 && ConvertExact(b.value, k) >= Width(k)
  {
    hide Pow2, Half;
    Powers();
    var m := Pow2(Width(k));
    ModPlus(b.value, m);
    SmallMod(b.value + m, m);
  }

  /** What is folded has the value and the type C++ gives it, but for shifts whose right operand makes the common
      type another one than that of the left. */
  lemma TypedExactly(op: Op, a: Scalar, b: Scalar)
    requires InKind(a.kind, a.value) && InKind(b.kind, b.value) && CalcBinary(op, a, b).Some?
    ensures var r := CalcBinary(op, a, b).value;
            Alike(r.kind, ResultKind(op, a.kind, b.kind)) && Means(op, a, b, r.value)
            <==> (Shifts(op) ==> Alike(CommonKind(a.kind, b.kind), Promoted(a.kind)))
  {
    hide Means, InKind;
    KindOfFold(op, a, b);
    if Shifts(op) ==> Alike(CommonKind(a.kind, b.kind), Promoted(a.kind)) {
      FoldsExactly(op, a, b, CalcBinary(op, a, b).value.value);
    }
    CommonIsUsual(a.kind, b.kind);
  }

  lemma KindOfFold(op: Op, a: Scalar, b: Scalar)
    requires CalcBinary(op, a, b).Some?
    ensures CalcBinary(op, a, b).value.kind == if Logical(op) || Compares(op) then Bool else CommonKind(a.kind, b.kind)
  {
    hide Half, Quotient, Remainder, ConvertExact, AsUintN, AsIntN, Pow2, BigBits, CommonKind;
  }

  // `-1 >> 1u` folds to 2147483647u, and `1 << 40L`, which has no value, to 1099511627776L.
  lemma MixedShifts()
    ensures CalcBinary(ShiftRight, Scalar(Int, -1), Scalar(Unsigned, 1)) == Some(Scalar(Unsigned, 0x7FFF_FFFF))
    ensures Means(ShiftRight, Scalar(Int, -1), Scalar(Unsigned, 1), -1)
    ensures CalcBinary(ShiftLeft, Scalar(Int, 1), Scalar(Long, 40)) == Some(Scalar(Long, 0x100_0000_0000))
    ensures forall z :: !Means(ShiftLeft, Scalar(Int, 1), Scalar(Long, 40), z)
  {
    hide Pow2, Half, ConvertExact;
    Powers();
    assert Converted(Unsigned, -1, 0xFFFF_FFFF) && Converted(Unsigned, 1, 1) && Converted(Long, 1, 1) && Converted(Long, 40, 40);
    ConvertedIs(Unsigned, -1, 0xFFFF_FFFF);
    ConvertedIs(Unsigned, 1, 1);
    ConvertedIs(Unsigned, 0x7FFF_FFFF, 0x7FFF_FFFF);
    ConvertedIs(Long, 1, 1);
    ConvertedIs(Long, 40, 40);
    ExactIs(Long, 0x100_0000_0000, 0x100_0000_0000);
    KindOfFold(ShiftLeft, Scalar(Int, 1), Scalar(Long, 40));
  }

  // One turn of the modulus at most.
  predicate Converted(k: IntKind, v: int, w: int) {
    w == v || (IsUnsigned(k) && w == v + Pow2(Width(k)))
  }

  lemma ConvertedIs(k: IntKind, v: int, w: int)
    requires Converted(k, v, w) && InKind(k, w)
    ensures ConvertExact(v, k) == w
  {
    hide Pow2, InKind, ConvertExact;
    ConvertKeeps(k, w);
    if w != v {
      ModPlus(v, Pow2(Width(k)));
      SameResidue(k, v, w);
    }
  }

  /** A unary operator folds to `z` just when `z` is its value and can be written; `+` folds to the literal itself. */
  lemma UnaryExactly(op: UnaryOp, a: Scalar, z: int)
    requires InKind(a.kind, a.value)
    ensures Folds(CalcUnary(op, a), z) <==> UnaryMeans(op, a, z) && (op.Keep? || Safe(z))
  {
    hide InKind, ConvertExact, Fits, AsExact, Safe, TurnedOver;
    ConvertKeeps(a.kind, a.value);
    var k := Promoted(a.kind);
    AlikeInKind(a.kind, k, a.value);
    match op
    case Negate =>
      ExactIs(a.kind, -a.value, z);
      AlikeFits(a.kind, k, -a.value, z);
    case Complement =>
      ExactIs(a.kind, -a.value - 1, z);
      AlikeFits(a.kind, k, -a.value - 1, z);
      ComplementIs(k, a.value, z);
    case LogicalNot => NotIs(a, z);
    case Keep =>
  }

  lemma NotIs(a: Scalar, z: int)
    ensures Folds(CalcUnary(LogicalNot, a), z) <==> z == Truth(a.value == 0) && Safe(z)
  {
  }

  lemma AlikeInKind(j: IntKind, k: IntKind, v: int)
    requires Alike(j, k)
    ensures InKind(j, v) <==> InKind(k, v)
  {
    hide Pow2;
  }

  lemma AlikeFits(j: IntKind, k: IntKind, e: int, z: int)
    requires Alike(j, k)
    ensures Fits(j, e, z) <==> Fits(k, e, z)
  {
    hide Pow2;
  }

  // `-v - 1` has every bit of `v` turned over.
  lemma ComplementIs(k: IntKind, v: int, z: int)
    requires InKind(k, v)
    ensures Fits(k, -v - 1, z) <==> InKind(k, z) && TurnedOver(Width(k), v, z)
  {
    hide InKind, Pow2, ConvertExact, SameLow, TurnedOver;
    ComplementLow(v, z, Width(k));
    LowBits(z, -v - 1, Width(k));
    CongruentMod(-v - 1, z, Pow2(Width(k)));
    if !IsUnsigned(k) {
      ComplementInKind(k, v);
      InRangeFits(k, -v - 1, z);
      ConvertIs(k, -v - 1, z);
      ConvertKeeps(k, -v - 1);
    }
  }

  lemma ComplementLow(v: int, z: int, n: nat)
    ensures SameLow(z, -v - 1, n) <==> TurnedOver(n, v, z)
  {
    hide BitAt;
    if SameLow(z, -v - 1, n) {
      forall i: nat | i < n ensures BitAt(z, i) != BitAt(v, i) {
        assert BitAt(z, i) == BitAt(-v - 1, i);
        OneTurned(v, i);
      }
    }
    if TurnedOver(n, v, z) {
      forall i: nat | i < n ensures BitAt(z, i) == BitAt(-v - 1, i) {
        assert BitAt(z, i) != BitAt(v, i);
        OneTurned(v, i);
        OneTurned(z, i);
      }
    }
  }

  lemma ComplementInKind(k: IntKind, v: int)
    requires !IsUnsigned(k) && InKind(k, v)
    ensures InKind(k, -v - 1)
  {
    hide Half;
  }

  lemma {:induction false} OneTurned(v: int, i: nat)
    ensures BitAt(-v - 1, i) != BitAt(v, i) && BitAt(v, i) < 2 && BitAt(-v - 1, i) < 2
    decreases i
  {
    if i > 0 {
      assert (-v - 1) / 2 == -(v / 2) - 1;
      OneTurned(v / 2, i - 1);
    }
  }

  // ----- the name of the type -----

  // Pairs of types for which the common one is called by another name than C++ calls it.
  predicate Misnamed(a: IntKind, b: IntKind) {
    || (b.Bool? && (a.Bool? || a.Int?))
    || (a.LongLong? && (b.Long? || b.UnsignedLong?))
    || (a.UnsignedLong? && (b.LongLong? || b.UnsignedLongLong?))
  }

  /** The common type always has the values C++ says (`CommonIsUsual`), and its name but for these pairs. */
  lemma NamedExactly(a: IntKind, b: IntKind)
    ensures CommonKind(a, b) == UsualKind(a, b) <==> !Misnamed(a, b)
  {
    hide CommonKind, UsualKind, Misnamed, Alike;
    if IsUnsigned(a) == IsUnsigned(b) { NamedSameSign(a, b); } else { NamedMixed(a, b); }
  }

  lemma NamedSameSign(a: IntKind, b: IntKind)
    requires IsUnsigned(a) == IsUnsigned(b)
    ensures CommonKind(a, b) == UsualKind(a, b) <==> !Misnamed(a, b)
    ensures Alike(CommonKind(a, b), UsualKind(a, b))
  {
  }

  lemma NamedMixed(a: IntKind, b: IntKind)
    requires IsUnsigned(a) != IsUnsigned(b)
    ensures CommonKind(a, b) == UsualKind(a, b) <==> !Misnamed(a, b)
    ensures Alike(CommonKind(a, b), UsualKind(a, b))
  {
  }

  // ----- spelling -----

  function Digits(n: nat): (d: string)
    ensures d != [] && forall c | c in d :: '0' <= c <= '9'
  {
    (if n < 10 then [] else Digits(n / 10)) + ["0123456789"[n % 10]]
  }

  function Decimal(v: int): string {
    if v < 0 then "-" + Digits(-v) else Digits(v)
  }

  function SuffixOf(k: IntKind): string {
    match k
    case Bool => ""
    case Int => ""
    case Unsigned => "u"
    case Long => "L"
    case UnsignedLong => "UL"
    case LongLong => "LL"
    case UnsignedLongLong => "ULL"
  }

  /** How a folded scalar is printed. */
  function SpellScalar(s: Scalar): string {
    if s.kind.Bool? then (if s.value != 0 then "true" else "false")
    else Decimal(s.value) + SuffixOf(s.kind)
  }

  datatype Read = Exact(s: Scalar) | Floating(single: bool) | Unreadable

  predicate TypeLetter(c: char) {
    c == 'u' || c == 'U' || c == 'l' || c == 'L'
  }

  // The letters `u`, `U`, `l` and `L` a spelling ends in.
  function TrailingLetters(raw: string): string {
    if raw == "" || !TypeLetter(raw[|raw| - 1]) then ""
    else TrailingLetters(raw[..|raw| - 1]) + [raw[|raw| - 1]]
  }

  function Longs(suffix: string): nat {
    if suffix == "" then 0 else (if suffix[0] == 'l' || suffix[0] == 'L' then 1 else 0) + Longs(suffix[1..])
  }

  predicate SpelledFloating(raw: string) {
    '.' in raw || 'e' in raw || 'E' in raw
  }

  /** The type of a literal, from its value and its spelling. */
  function ScalarFor(value: int, raw: string): Read {
    if SpelledFloating(raw) then
      var last := raw[|raw| - 1];
      if last == 'l' || last == 'L' then Unreadable else Floating(last == 'f' || last == 'F')
    else
      var suffix := TrailingLetters(raw);
      var unsigned, longs := 'u' in suffix || 'U' in suffix, Longs(suffix);
      Exact(Scalar(
        if longs == 0 then
          (if unsigned then (if value > 0xFFFF_FFFF then UnsignedLong else Unsigned) else if value > 0x7FFF_FFFF then Long else Int)
        else if longs == 1 then (if unsigned then UnsignedLong else Long)
        else if unsigned then UnsignedLongLong
        else LongLong, value))
  }

  lemma {:induction false} LettersBehind(d: string, suffix: string)
    requires d != "" && !TypeLetter(d[|d| - 1]) && forall c | c in suffix :: TypeLetter(c)
    ensures TrailingLetters(d + suffix) == suffix
    decreases |suffix|
  {
    if suffix == "" {
      assert d + suffix == d;
    } else {
      var init, last := suffix[..|suffix| - 1], suffix[|suffix| - 1];
      assert suffix == init + [last] && last in suffix;
      assert (d + suffix)[..|d + suffix| - 1] == d + init && (d + suffix)[|d + suffix| - 1] == last;
      LettersBehind(d, init);
    }
  }

  lemma DecimalPlain(v: int)
    ensures Decimal(v) != "" && !TypeLetter(Decimal(v)[|Decimal(v)| - 1]) && !SpelledFloating(Decimal(v))
  {
    var d := Digits(if v < 0 then -v else v);
    assert d[|d| - 1] in d;
    assert Decimal(v)[|Decimal(v)| - 1] == d[|d| - 1];
  }

  lemma SuffixLetters(k: IntKind)
    ensures forall c | c in SuffixOf(k) :: TypeLetter(c)
    ensures Longs(SuffixOf(k)) == if k.Long? || k.UnsignedLong? then 1 else if k.LongLong? || k.UnsignedLongLong? then 2 else 0
    ensures ('u' in SuffixOf(k) || 'U' in SuffixOf(k)) <==> IsUnsigned(k)
  {
    assert Longs("") == 0 && Longs("u") == 0 && Longs("L") == 1 && Longs("UL") == 1 && Longs("LL") == 2 && Longs("ULL") == 2;
  }

  /** A folded scalar is read back from its spelling as it was, unless it is a `bool`: `true` and `false` hold an `e`,
      so they are read as spelling a `double`. */
  lemma ReadBackExactly(s: Scalar)
    requires InKind(s.kind, s.value)
    ensures ScalarFor(s.value, SpellScalar(s)) == Exact(s) <==> !s.kind.Bool?
    ensures s.kind.Bool? ==> ScalarFor(s.value, SpellScalar(s)) == Floating(false)
  {
    hide Pow2, Half, Decimal, SuffixOf, TrailingLetters, Longs;
    if s.kind.Bool? {
      assert "true"[3] == 'e' && "false"[4] == 'e';
    } else {
      Powers();
      DecimalPlain(s.value);
      SuffixLetters(s.kind);
      LettersBehind(Decimal(s.value), SuffixOf(s.kind));
    }
  }

  // `3 + (1 && 2)` folds to the right value, 4, of the wrong type, and is printed as `true`.
  lemma SumPrintedTrue()
    ensures CalcBinary(AndAlso, Scalar(Int, 1), Scalar(Int, 2)) == Some(Scalar(Bool, 1))
    ensures CalcBinary(Plus, Scalar(Int, 3), Scalar(Bool, 1)) == Some(Scalar(Bool, 4))
    ensures Means(Plus, Scalar(Int, 3), Scalar(Bool, 1), 4) && SpellScalar(Scalar(Bool, 4)) == "true"
  {
    hide Pow2, Half;
    Powers();
    ConvertKeeps(Bool, 3);
    ConvertKeeps(Bool, 1);
    ExactIs(Bool, 4, 4);
    KindOfFold(Plus, Scalar(Int, 3), Scalar(Bool, 1));
    FoldsExactly(Plus, Scalar(Int, 3), Scalar(Bool, 1), 4);
  }
}
