/** Machine integers: two's complement values of the C++ scalars and the bit patterns wasm computes on
    (section 4.3.2, Integer Operations, of the WebAssembly Core Specification 1.0). */
module Words {
  import opened Slots

  datatype Kind = K32 | K64

  function KindOf(t: Scalar): Kind {
    if t == I32 || t == U32 then K32 else K64
  }

  predicate Signed(t: Scalar) {
    t == I32 || t == I64
  }

  function Bits(k: Kind): nat {
    if k == K32 then 32 else 64
  }

  // How many patterns there are.
  function Size(k: Kind): (m: nat)
    ensures m > 0 && m % 2 == 0
  {
    if k == K32 then 0x1_0000_0000 else 0x1_0000_0000_0000_0000
  }

  predicate Pattern(k: Kind, x: int) {
    0 <= x < Size(k)
  }

  // The value a pattern stands for in a type.
  function ValueOf(t: Scalar, x: int): int {
    if Signed(t) && x >= Size(KindOf(t)) / 2 then x - Size(KindOf(t)) else x
  }

  predicate InRange(t: Scalar, v: int) {
    if Signed(t) then -(Size(KindOf(t)) / 2) <= v < Size(KindOf(t)) / 2 else 0 <= v < Size(KindOf(t))
  }

  // The pattern of a value, and a value brought into the range of a type.
  function PatternOf(k: Kind, v: int): (x: int)
    ensures Pattern(k, x)
  {
    v % Size(k)
  }

  function Wrap(t: Scalar, v: int): (w: int)
    ensures InRange(t, w)
  {
    ValueOf(t, PatternOf(KindOf(t), v))
  }

  // ----- patterns and values -----

  lemma ModShift(v: int, m: nat, q: int)
    requires m > 0
    ensures (v + q * m) % m == v % m
    decreases if q < 0 then -q else q
  {
    if q > 0 {
      ModShift(v, m, q - 1);
      ModPlus(v + (q - 1) * m, m);
      assert v + q * m == v + (q - 1) * m + m;
    } else if q < 0 {
      ModShift(v, m, q + 1);
      ModPlus(v + q * m, m);
      assert v + q * m + m == v + (q + 1) * m;
    }
  }

  lemma ModPlus(v: int, m: nat)
    requires m > 0
    ensures (v + m) % m == v % m
  {
    DivModUnique(v + m, m, v / m + 1, v % m);
  }

  lemma DivModUnique(v: int, m: nat, q: int, r: int)
    requires m > 0 && v == q * m + r && 0 <= r < m
    ensures v % m == r && v / m == q
  {
    var d := v / m - q;
    assert d * m + (v % m - r) == 0 by { assert v == (v / m) * m + v % m; }
    MultiplesApart(d, m);
  }

  lemma MultiplesApart(d: int, m: nat)
    requires m > 0
    ensures d >= 1 ==> d * m >= m
    ensures d <= -1 ==> d * m + m <= 0
  {
  }

  lemma PatternOfValue(t: Scalar, x: int)
    requires Pattern(KindOf(t), x)
    ensures PatternOf(KindOf(t), ValueOf(t, x)) == x && InRange(t, ValueOf(t, x))
  {
    var m := Size(KindOf(t));
    if Signed(t) && x >= m / 2 {
      ModPlus(x - m, m);
    }
  }

  lemma ValueOfPattern(t: Scalar, v: int)
    requires InRange(t, v)
    ensures ValueOf(t, PatternOf(KindOf(t), v)) == v && Wrap(t, v) == v
  {
    var m := Size(KindOf(t));
    if v < 0 { ModPlus(v, m); }
  }

  lemma PatternOfWrap(t: Scalar, v: int)
    ensures PatternOf(KindOf(t), Wrap(t, v)) == PatternOf(KindOf(t), v)
  {
    PatternOfValue(t, PatternOf(KindOf(t), v));
  }

  // Only the pattern matters to sums, differences and products.
  lemma SumPattern(k: Kind, a: int, b: int)
    ensures PatternOf(k, a + b) == PatternOf(k, PatternOf(k, a) + PatternOf(k, b))
  {
    var m := Size(k);
    ModShift(a % m + b % m, m, a / m + b / m);
    assert a + b == a % m + b % m + (a / m + b / m) * m;
  }

  lemma DifferencePattern(k: Kind, a: int, b: int)
    ensures PatternOf(k, a - b) == PatternOf(k, PatternOf(k, a) - PatternOf(k, b))
  {
    var m := Size(k);
    ModShift(a % m - b % m, m, a / m - b / m);
    assert a - b == a % m - b % m + (a / m - b / m) * m;
  }

  lemma ProductPattern(k: Kind, a: int, b: int)
    ensures PatternOf(k, a * b) == PatternOf(k, PatternOf(k, a) * PatternOf(k, b))
  {
    var m := Size(k);
    Expand(a % m, a / m, b % m, b / m, m);
    ModShift((a % m) * (b % m), m, (a % m) * (b / m) + (a / m) * (b % m) + (a / m) * (b / m) * m);
  }

  lemma Expand(x: int, p: int, y: int, q: int, m: int)
    ensures (x + p * m) * (y + q * m) == x * y + (x * q + p * y + p * q * m) * m
  {
  }

  // ----- powers and bits -----

  function Pow2(n: nat): (p: nat)
    ensures p > 0
  {
    if n == 0 then 1 else 2 * Pow2(n - 1)
  }

  // The three bitwise operations, bit by bit.
  datatype BitOp = BitAnd | BitOr | BitXor

  function OneBit(op: BitOp, x: nat, y: nat): nat {
    match op
    case BitAnd => if x == 1 && y == 1 then 1 else 0
    case BitOr => if x == 1 || y == 1 then 1 else 0
    case BitXor => if x != y then 1 else 0
  }

  function Bitwise(op: BitOp, n: nat, x: nat, y: nat): (z: nat)
    ensures z < Pow2(n)
  {
    if n == 0 then 0 else 2 * Bitwise(op, n - 1, x / 2, y / 2) + OneBit(op, x % 2, y % 2)
  }

  lemma SizeIsPow2(k: Kind)
    ensures Pow2(Bits(k)) == Size(k)
  {
    assert Pow2(8) == 256;
    assert Pow2(16) == 256 * Pow2(8) by { Pow2Sum(8, 8); }
    assert Pow2(32) == Pow2(16) * Pow2(16) by { Pow2Sum(16, 16); }
    assert Pow2(64) == Pow2(32) * Pow2(32) by { Pow2Sum(32, 32); }
  }

  lemma {:induction false} Pow2Sum(a: nat, b: nat)
    ensures Pow2(a + b) == Pow2(a) * Pow2(b)
  {
    if a > 0 {
      Pow2Sum(a - 1, b);
      assert Pow2(a + b) == 2 * (Pow2(a - 1) * Pow2(b));
    }
  }

  // ----- truncated division -----

  function Magnitude(v: int): nat {
    if v < 0 then -v else v
  }

  // Rounds toward zero, as both C++ and wasm do.
  function Quotient(a: int, b: int): int
    requires b != 0
  {
    var q := Magnitude(a) / Magnitude(b);
    if (a < 0) != (b < 0) then -q else q
  }

  function Remainder(a: int, b: int): int
    requires b != 0
  {
    a - b * Quotient(a, b)
  }
}
