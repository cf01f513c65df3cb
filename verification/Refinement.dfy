/** The instructions chosen for each operator and conversion compute on patterns what the operator means
    on values (src/examples/CPP/backend.ts:107-131, 145-175). */
module Refinement {
  import opened Options
  import opened Slots
  import opened Words
  import opened Wasm
  import opened Cpp
  import opened Emission

  // The pattern of a value in its type.
  function Enc(t: Scalar, v: int): nat {
    PatternOf(KindOf(t), v)
  }

  lemma EncValue(t: Scalar, v: int)
    requires InRange(t, v)
    ensures ValueOf(t, Enc(t, v)) == v
    ensures !Signed(t) ==> Enc(t, v) == v
    ensures Signed(t) ==> SignedOf(KindOf(t), Enc(t, v)) == v
    ensures 0 <= v ==> Enc(t, v) == v
  {
    ValueOfPattern(t, v);
  }

  // A pattern of twice the width, cut down.
  lemma PatternTwice(v: int)
    ensures PatternOf(K32, PatternOf(K64, v)) == PatternOf(K32, v)
  {
    var m, n := Size(K64), Size(K32);
    var q := v / m;
    assert m == n * n && v == v % m + q * m;
    assert v % m + (q * n) * n == v by { assert (q * n) * n == q * m; }
    ModShift(v % m, n, q * n);
  }

  // ----- conversions -----

  lemma ConvertRefines(got: Scalar, want: Scalar, a: int, l: seq<Val>, st: seq<Val>, fuel: nat)
    requires InRange(got, a)
    ensures Exec(Convert(got, want), l, st + [Val(KindOf(got), Enc(got, a))], fuel) == Next(l, st + [Val(KindOf(want), Enc(want, a))])
  {
    hide InRange, PatternOf;
    var s := st + [Val(KindOf(got), Enc(got, a))];
    assert Pop(s) == st;
    EncValue(got, a);
    if KindOf(got) == KindOf(want) {
    } else if KindOf(got) == K64 {
      PatternTwice(a);
      ExecSingle(WrapI64, l, s, fuel);
    } else if Signed(got) {
      ExecSingle(ExtendS, l, s, fuel);
    } else {
      ExecSingle(ExtendU, l, s, fuel);
      Widens(got, a);
    }
  }

  lemma Widens(t: Scalar, a: int)
    requires InRange(t, a) && !Signed(t) && KindOf(t) == K32
    ensures PatternOf(K64, a) == a
  {
  }

  // ----- operators -----

  function ResultType(op: BinOp, t: Scalar): Scalar {
    if Compares(op) then I32 else t
  }

  lemma BoolEnc(b: bool)
    ensures Enc(I32, Bool(b)) == Truth(b) && InRange(I32, Bool(b))
  {
  }

  lemma ComparisonRefines(op: BinOp, t: Scalar, a: int, b: int)
    requires Compares(op) && InRange(t, a) && InRange(t, b)
    ensures Compute(KindOf(t), IntInstr(op, t), Enc(t, a), Enc(t, b)) == Some(Enc(I32, Operate(op, t, a, b).value))
    ensures InRange(I32, Operate(op, t, a, b).value)
  {
    hide InRange, Enc, ValueOf;
    EncValue(t, a);
    EncValue(t, b);
    BoolEnc(Operate(op, t, a, b) == Some(1));
    BoolEnc(a == b);
    BoolEnc(a != b);
    BoolEnc(a < b);
    BoolEnc(a > b);
    BoolEnc(a <= b);
    BoolEnc(a >= b);
  }

  lemma WrappingRefines(op: BinOp, t: Scalar, a: int, b: int)
    requires op.Plus? || op.Minus? || op.Times?
    ensures Compute(KindOf(t), IntInstr(op, t), Enc(t, a), Enc(t, b)) == Some(Enc(t, Operate(op, t, a, b).value))
    ensures InRange(t, Operate(op, t, a, b).value)
  {
    hide PatternOf, ValueOf;
    var k := KindOf(t);
    match op
    case Plus =>
      SumPattern(k, a, b);
      PatternOfWrap(t, a + b);
    case Minus =>
      DifferencePattern(k, a, b);
      PatternOfWrap(t, a - b);
    case Times =>
      ProductPattern(k, a, b);
      PatternOfWrap(t, a * b);
  }

  lemma BitsRefine(op: BinOp, t: Scalar, a: int, b: int)
    requires op.AndBits? || op.OrBits? || op.XorBits?
    ensures Compute(KindOf(t), IntInstr(op, t), Enc(t, a), Enc(t, b)) == Some(Enc(t, Operate(op, t, a, b).value))
    ensures InRange(t, Operate(op, t, a, b).value)
  {
    hide ValueOf, InRange;
    var k := KindOf(t);
    var which := if op.AndBits? then BitAnd else if op.OrBits? then BitOr else BitXor;
    SizeIsPow2(k);
    PatternOfValue(t, Bitwise(which, Bits(k), Enc(t, a), Enc(t, b)));
  }

  // ----- division -----

  lemma QuotientOfNaturals(a: nat, b: nat)
    requires b > 0
    ensures Quotient(a, b) == a / b && Remainder(a, b) == a % b
  {
  }

  lemma RemainderRange(t: Scalar, a: int, b: int)
    requires InRange(t, a) && InRange(t, b) && b != 0
    ensures InRange(t, Remainder(a, b))
  {
    RemainderSmall(a, b);
  }

  lemma RemainderSmall(a: int, b: int)
    requires b != 0
    ensures Magnitude(Remainder(a, b)) < Magnitude(b)
    ensures a >= 0 ==> Remainder(a, b) >= 0
  {
    var x, y := Magnitude(a), Magnitude(b);
    assert x == y * (x / y) + x % y;
    SignedProduct(a, b, x / y);
  }

  lemma SignedProduct(a: int, b: int, q: int)
    ensures b * (if (a < 0) != (b < 0) then -q else q) == (if a < 0 then -(Magnitude(b) * q) else Magnitude(b) * q)
  {
  }

  lemma QuotientTraps(t: Scalar, a: int, b: int)
    requires Signed(t) && InRange(t, a) && InRange(t, b) && b != 0 && InRange(t, Quotient(a, b))
    ensures !(a == -(Size(KindOf(t)) / 2) && b == -1)
  {
    if b == -1 { QuotientByOne(a); }
  }

  lemma QuotientByOne(a: int)
    ensures Quotient(a, -1) == -a
  {
  }

  lemma DivisionRefines(op: BinOp, t: Scalar, a: int, b: int)
    requires op.Divide? || op.Modulo?
    requires InRange(t, a) && InRange(t, b) && Operate(op, t, a, b).Some?
    ensures Compute(KindOf(t), IntInstr(op, t), Enc(t, a), Enc(t, b)) == Some(Enc(t, Operate(op, t, a, b).value))
    ensures InRange(t, Operate(op, t, a, b).value)
  {
    hide InRange, Quotient, Remainder, PatternOf, ValueOf, SignedOf;
    EncValue(t, a);
    EncValue(t, b);
    RemainderRange(t, a, b);
    if Signed(t) {
      EncZero(t, b);
      QuotientTraps(t, a, b);
    } else {
      NotNegative(t, a);
      NotNegative(t, b);
      QuotientOfNaturals(a, b);
      EncValue(t, Operate(op, t, a, b).value);
    }
  }

  lemma NotNegative(t: Scalar, a: int)
    requires InRange(t, a) && !Signed(t)
    ensures a >= 0
  {
  }

  lemma EncZero(t: Scalar, v: int)
    requires InRange(t, v)
    ensures Enc(t, v) == 0 <==> v == 0
  {
    ValueOfPattern(t, v);
  }

  // ----- shifts -----

  lemma ShiftedDown(a: int, p: int, lo: int, hi: int)
    requires p > 0 && lo <= a < hi && lo <= 0 < hi
    ensures lo <= a / p < hi
    ensures a >= 0 ==> a / p >= 0
  {
    var q, r := a / p, a % p;
    assert a == p * q + r && 0 <= r < p;
    QuotientShrinks(a, p, q, r);
  }

  lemma QuotientShrinks(a: int, p: int, q: int, r: int)
    requires p > 0 && a == p * q + r && 0 <= r < p
    ensures if a >= 0 then 0 <= q <= a else a <= q < 0
  {
    if q >= 0 {
      assert p * q >= q by { Scaled(p - 1, q); }
    } else {
      assert p * q <= q - (p - 1) by { Scaled(p - 1, -q - 1); }
    }
  }

  lemma Scaled(x: int, y: int)
    requires x >= 0 && y >= 0
    ensures x * y >= 0
  {
  }

  lemma ShiftRefines(op: BinOp, t: Scalar, a: int, b: int)
    requires op.ShiftLeft? || op.ShiftRight?
    requires InRange(t, a) && InRange(t, b) && Operate(op, t, a, b).Some?
    ensures Compute(KindOf(t), IntInstr(op, t), Enc(t, a), Enc(t, b)) == Some(Enc(t, Operate(op, t, a, b).value))
    ensures InRange(t, Operate(op, t, a, b).value)
  {
    hide PatternOf, ValueOf, SignedOf, Pow2;
    var k := KindOf(t);
    EncValue(t, a);
    EncValue(t, b);
    assert b % Bits(k) == b;
    var p := Pow2(b);
    if op.ShiftLeft? {
      ScaledPattern(k, a, p);
      PatternOfWrap(t, a * p);
    } else {
      ShiftedDown(a, p, if Signed(t) then -(Size(k) / 2) else 0, if Signed(t) then Size(k) / 2 else Size(k));
      EncValue(t, a / p);
    }
  }

  lemma ScaledPattern(k: Kind, a: int, p: int)
    ensures PatternOf(k, PatternOf(k, a) * p) == PatternOf(k, a * p)
  {
    hide PatternOf;
    PatternOfPattern(k, a);
    ProductPattern(k, a, p);
    ProductPattern(k, PatternOf(k, a), p);
  }

  lemma PatternOfPattern(k: Kind, a: int)
    ensures PatternOf(k, PatternOf(k, a)) == PatternOf(k, a)
  {
  }

  /** Whatever the operator means on two values of a type, the instruction computes on their patterns. */
  lemma OperatorRefines(op: BinOp, t: Scalar, a: int, b: int)
    requires InRange(t, a) && InRange(t, b) && Operate(op, t, a, b).Some?
    ensures Compute(KindOf(t), IntInstr(op, t), Enc(t, a), Enc(t, b)) == Some(Enc(ResultType(op, t), Operate(op, t, a, b).value))
    ensures InRange(ResultType(op, t), Operate(op, t, a, b).value)
    ensures IsComparison(IntInstr(op, t)) <==> Compares(op)
  {
    hide Compute, Operate, Enc, InRange;
    if Compares(op) {
      ComparisonRefines(op, t, a, b);
    } else if op.Divide? || op.Modulo? {
      DivisionRefines(op, t, a, b);
    } else if op.ShiftLeft? || op.ShiftRight? {
      ShiftRefines(op, t, a, b);
    } else if op.AndBits? || op.OrBits? || op.XorBits? {
      BitsRefine(op, t, a, b);
    } else {
      WrappingRefines(op, t, a, b);
    }
  }
}
