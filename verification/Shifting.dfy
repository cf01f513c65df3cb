/** Shifts as C++ means them and as the back end compiles them (src/examples/CPP/backend.ts:47-53, 200-205): C++
    works in the type of the left operand, the back end in the type both operands have in common. */
module Shifting {
  import opened Options
  import opened Slots
  import opened Words
  import opened Wasm
  import opened Cpp
  import opened Emission
  import opened Refinement
  import opened Compiled
  import opened ScopesAfter
  import opened Compiler

  // What C++ makes of two values, and what the instruction makes of their patterns in the common type.
  function Meant(op: BinOp, s: Scalar, t: Scalar, a: int, b: int): Option<int> {
    var k := OperandType(op, s, t);
    Operate(op, k, Wrap(k, a), if Shifts(op) then b else Wrap(k, b))
  }

  function Done(op: BinOp, s: Scalar, t: Scalar, a: int, b: int): Option<nat> {
    var k := Common(s, t);
    Compute(KindOf(k), IntInstr(op, k), Enc(k, a), Enc(k, b))
  }

  lemma EncWrapped(t: Scalar, v: int)
    ensures Enc(t, Wrap(t, v)) == Enc(t, v)
  {
    PatternOfWrap(t, v);
  }

  /** The code computes the value that C++ gives an operator, in the type C++ gives it, unless it is a shift whose
      left operand is not of the common type. */
  lemma OperatorExactly(op: BinOp, s: Scalar, t: Scalar, a: int, b: int)
    requires InRange(s, a) && InRange(t, b) && Meant(op, s, t, a, b).Some?
    ensures Done(op, s, t, a, b) == Some(Enc(ResultType(op, OperandType(op, s, t)), Meant(op, s, t, a, b).value))
              && ResultType(op, Common(s, t)) == ResultType(op, OperandType(op, s, t))
            <==> (Shifts(op) ==> Common(s, t) == s)
  {
    hide Compute, Operate, Enc, InRange, Wrap, Common, IntInstr;
    var k := Common(s, t);
    if Shifts(op) ==> k == s {
      WrapInRange(k, a);
      WrapInRange(k, b);
      EncWrapped(k, a);
      EncWrapped(k, b);
      if Shifts(op) { CountKept(op, k, Wrap(k, a), b); }
      OperatorRefines(op, k, Wrap(k, a), Wrap(k, b));
    }
  }

  // ----- shifts brought back to the type of their left operand -----

  // The pattern in `s` of what was computed in the common type.
  function Back(s: Scalar, x: nat): nat {
    PatternOf(KindOf(s), x)
  }

  // Sign bits are shifted in as zeros.
  predicate LosesSign(op: BinOp, s: Scalar, t: Scalar, a: int, b: int) {
    op.ShiftRight? && Signed(s) && !Signed(Common(s, t)) && KindOf(Common(s, t)) == KindOf(s) && a < 0 && b > 0
  }

  lemma CountPattern(op: BinOp, s: Scalar, t: Scalar, a: int, b: int)
    requires Shifts(op) && Meant(op, s, t, a, b).Some?
    ensures 0 <= b < Bits(KindOf(s)) <= Bits(KindOf(Common(s, t)))
    ensures Enc(Common(s, t), b) == b && b % Bits(KindOf(Common(s, t))) == b
  {
    hide Wrap, Pow2;
  }

  lemma InRangeIsWrapped(t: Scalar, a: int)
    requires InRange(t, a)
    ensures Wrap(t, a) == a
  {
    ValueOfPattern(t, a);
  }

  // A pattern cut down to a kind that is no wider is that of the same number.
  lemma CutPattern(k: Kind, k': Kind, v: int)
    requires Bits(k') <= Bits(k)
    ensures PatternOf(k', PatternOf(k, v)) == PatternOf(k', v)
  {
    hide PatternOf;
    if k == k' { PatternOfPattern(k, v); } else { PatternTwice(v); }
  }

  lemma LeftBack(s: Scalar, t: Scalar, a: int, b: int)
    requires InRange(s, a) && InRange(t, b) && Meant(ShiftLeft, s, t, a, b).Some?
    ensures Done(ShiftLeft, s, t, a, b).Some?
    ensures Back(s, Done(ShiftLeft, s, t, a, b).value) == Enc(s, Meant(ShiftLeft, s, t, a, b).value)
  {
    hide Pow2, PatternOf, InRange, Wrap;
    var k := Common(s, t);
    CountPattern(ShiftLeft, s, t, a, b);
    InRangeIsWrapped(s, a);
    var p := Pow2(b);
    ScaledPattern(KindOf(k), a, p);
    CutPattern(KindOf(k), KindOf(s), a * p);
    EncWrapped(s, a * p);
  }

  // A type holds the values of one that is the common one with it, unless it is unsigned and they are not.
  lemma CommonHolds(s: Scalar, t: Scalar, a: int)
    requires InRange(s, a) && (a >= 0 || Signed(Common(s, t)))
    ensures InRange(Common(s, t), a)
  {
  }

  lemma RightBack(s: Scalar, t: Scalar, a: int, b: int)
    requires InRange(s, a) && InRange(t, b) && Meant(ShiftRight, s, t, a, b).Some?
    requires a >= 0 || Signed(Common(s, t))
    ensures Done(ShiftRight, s, t, a, b).Some?
    ensures Back(s, Done(ShiftRight, s, t, a, b).value) == Enc(s, Meant(ShiftRight, s, t, a, b).value)
  {
    hide Pow2, PatternOf, InRange, Wrap, SignedOf;
    var k := Common(s, t);
    CountPattern(ShiftRight, s, t, a, b);
    InRangeIsWrapped(s, a);
    CommonHolds(s, t, a);
    EncValue(k, a);
    var p := Pow2(b);
    CutPattern(KindOf(k), KindOf(s), a / p);
  }

  // A negative number taken for an unsigned one, shifted.
  lemma ShiftedPattern(a: int, n: nat, b: nat)
    requires 0 <= a + Pow2(n) && a < 0 && b <= n
    ensures (a + Pow2(n)) / Pow2(b) == a / Pow2(b) + Pow2(n - b)
  {
    hide Pow2;
    var p, q := Pow2(b), Pow2(n - b);
    Pow2Sum(b, n - b);
    assert a + p * q == p * (a / p + q) + a % p by { assert a == p * (a / p) + a % p; }
    assert p * (a / p + q) == (a / p + q) * p;
    DivModUnique(a + p * q, p, a / p + q, a % p);
  }

  lemma NegativeBack(s: Scalar, t: Scalar, a: int, b: int)
    requires InRange(s, a) && InRange(t, b) && Meant(ShiftRight, s, t, a, b).Some? && a < 0 && !Signed(Common(s, t))
    ensures var w := Bits(KindOf(Common(s, t))); 0 <= b < w && Done(ShiftRight, s, t, a, b) == Some(a / Pow2(b) + Pow2(w - b))
    ensures Meant(ShiftRight, s, t, a, b) == Some(a / Pow2(b))
  {
    hide Pow2, Wrap;
    var k := Common(s, t);
    var m: int := Size(KindOf(k));
    CountPattern(ShiftRight, s, t, a, b);
    InRangeIsWrapped(s, a);
    SizeIsPow2(KindOf(k));
    ModPlus(a, m);
    DivModUnique(a + m, m, 0, a + m);
    ShiftedPattern(a, Bits(KindOf(k)), b);
  }

  lemma LessPower(n: nat, b: nat)
    requires 0 < b <= n
    ensures Pow2(n - b) < Pow2(n)
  {
    Pow2Sum(b, n - b);
    Doubled(Pow2(b - 1), Pow2(n - b));
  }

  lemma Doubled(x: nat, y: nat)
    requires x > 0 && y > 0
    ensures (2 * x) * y > y
  {
    assert (2 * x) * y == x * y + x * y;
    assert x * y >= y;
  }

  // In as many bits, the sign is lost unless nothing is shifted.
  lemma SameWidthBack(k: Kind, q: int, b: nat)
    requires b < Bits(k) && -(Size(k) / 2) <= q < 0 && 0 <= q + Pow2(Bits(k) - b)
    ensures PatternOf(k, q + Pow2(Bits(k) - b)) == PatternOf(k, q) <==> b == 0
  {
    hide Pow2;
    var m: int := Size(k);
    SizeIsPow2(k);
    ModPlus(q, m);
    DivModUnique(q + m, m, 0, q + m);
    if b > 0 {
      LessPower(Bits(k), b);
      DivModUnique(q + Pow2(Bits(k) - b), m, 0, q + Pow2(Bits(k) - b));
    }
  }

  // Where there are bits to spare, it is not.
  lemma WiderBack(q: int, b: nat)
    requires b < 32
    ensures PatternOf(K32, q + Pow2(64 - b)) == PatternOf(K32, q)
  {
    hide Pow2;
    Pow2Sum(32, 32 - b);
    SizeIsPow2(K32);
    assert Pow2(64 - b) == Pow2(32 - b) * Size(K32);
    ModShift(q, Size(K32), Pow2(32 - b));
  }

  lemma ShiftedRange(s: Scalar, a: int, p: nat)
    requires InRange(s, a) && a < 0 && p > 0
    ensures -(Size(KindOf(s)) / 2) <= a / p < 0
  {
    assert a == p * (a / p) + a % p;
    QuotientShrinks(a, p, a / p, a % p);
  }

  /** Whatever the common type is, a shift brought back to the type of its left operand is what C++ makes of it,
      unless a negative number is shifted to the right as an unsigned one of the same width. */
  lemma ShiftedExactly(op: BinOp, s: Scalar, t: Scalar, a: int, b: int)
    requires Shifts(op) && InRange(s, a) && InRange(t, b) && Meant(op, s, t, a, b).Some?
    ensures Done(op, s, t, a, b).Some?
    ensures Back(s, Done(op, s, t, a, b).value) == Enc(s, Meant(op, s, t, a, b).value) <==> !LosesSign(op, s, t, a, b)
  {
    hide Done, Meant, Back, Enc, InRange, Common;
    if op.ShiftLeft? {
      LeftBack(s, t, a, b);
    } else if a >= 0 || Signed(Common(s, t)) {
      RightBack(s, t, a, b);
    } else {
      SignBack(s, t, a, b);
    }
  }

  lemma SignBack(s: Scalar, t: Scalar, a: int, b: int)
    requires InRange(s, a) && InRange(t, b) && Meant(ShiftRight, s, t, a, b).Some? && a < 0 && !Signed(Common(s, t))
    ensures Done(ShiftRight, s, t, a, b).Some?
    ensures Back(s, Done(ShiftRight, s, t, a, b).value) == Enc(s, Meant(ShiftRight, s, t, a, b).value) <==> !LosesSign(ShiftRight, s, t, a, b)
  {
    hide Pow2, PatternOf, Wrap, Done, Meant;
    var k := KindOf(Common(s, t));
    NegativeBack(s, t, a, b);
    CountPattern(ShiftRight, s, t, a, b);
    var q := a / Pow2(b);
    ShiftedRange(s, a, Pow2(b));
    if k == KindOf(s) {
      SameWidthBack(k, q, b);
    } else {
      WiderBack(q, b);
    }
  }

  // ----- a program -----

  const PARAMS: seq<Variable> := [Variable("x", I32), Variable("s", U32)]

  const SHIFT := Bin(ShiftRight, Var("x"), Var("s"))

  const SCOPE := Scope([Entry("x", Local(I32, 0), false, false), Entry("s", Local(U32, 1), false, false)], [], [I32, U32], map[])

  const OPENED := Scope(SCOPE.declared, [2], SCOPE.slotTypes, map[])

  const FIRST := Scope([Entry("x", Local(I32, 0), false, false)], [], [I32], map[])

  lemma ParametersDeclared()
    ensures DeclareAll(EMPTY, PARAMS) == Some(SCOPE)
  {
    var x, s := PARAMS[0], PARAMS[1];
    assert PARAMS[..1] == [x] && [x][..0] == [];
    assert DeclareAll(EMPTY, []) == Some(EMPTY);
    assert DeclareAll(EMPTY, [x]) == Some(FIRST) by { FirstDeclared(); }
    SecondDeclared();
  }

  lemma FirstDeclared()
    ensures Declare(EMPTY, "x", I32, false) == Some(FIRST)
  {
    assert [] + [Entry("x", Local(I32, 0), false, false)] == FIRST.declared && [] + [I32] == FIRST.slotTypes;
  }

  lemma SecondDeclared()
    ensures Declare(FIRST, "s", U32, false) == Some(SCOPE)
  {
    assert "x"[0] != "s"[0];
    assert !Redeclares(FIRST, "s");
    assert FIRST.declared + [Entry("s", Local(U32, 1), false, false)] == SCOPE.declared && [I32] + [U32] == SCOPE.slotTypes;
  }

  lemma BothFound()
    ensures Lookup(SCOPE.declared, "s") == Some(Local(U32, 1)) && Lookup(SCOPE.declared, "x") == Some(Local(I32, 0))
  {
    var d := SCOPE.declared;
    assert "x"[0] != "s"[0] && d[..1] == [d[0]];
    assert Lookup([d[0]], "x") == Some(Local(I32, 0));
  }

  lemma ShiftEmitted()
    ensures EmitExpr(SCOPE.declared, SHIFT) == Some(Code([LocalGet(0), LocalGet(1), Binary(K32, ShrU)], U32))
  {
    hide Lookup;
    BothFound();
    var d := SCOPE.declared;
    assert EmitExpr(d, Var("x")) == Some(Code([LocalGet(0)], I32)) && EmitExpr(d, Var("s")) == Some(Code([LocalGet(1)], U32));
    assert [LocalGet(0)] + [] + ([LocalGet(1)] + []) + [Binary(K32, ShrU)] == [LocalGet(0), LocalGet(1), Binary(K32, ShrU)];
  }

  // The code of `{ return x >> s; }`.
  lemma ProgramEmitted() returns (r: Emitted)
    ensures EmitFunction(PARAMS, [Result(SHIFT)], I32) == Some(r)
    ensures r.code == [LocalGet(0), LocalGet(1), Binary(K32, ShrU), Return, Unreachable] && r.scope.slotTypes == [I32, U32]
  {
    hide EmitExpr;
    var labels, body := Labels(0, [], []), [Result(SHIFT)];
    ParametersDeclared();
    ShiftEmitted();
    assert Slots.Open(SCOPE) == OPENED;
    var code := [LocalGet(0), LocalGet(1), Binary(K32, ShrU)] + [] + [Return];
    assert EmitStmt(OPENED, labels, body[0], I32) == Some(Emitted(code, OPENED));
    assert body[1..] == [];
    assert EmitAll(OPENED, labels, body[1..], I32) == Some(Emitted([], OPENED));
    assert EmitAll(OPENED, labels, body, I32) == Some(Emitted(code + [], OPENED));
    r := EmitFunction(PARAMS, body, I32).value;
  }

  // What that code returns, its first local taken for an unsigned number.
  lemma ProgramReturns(l: seq<Val>, fuel: nat)
    requires l == [Val(K32, 0xFFFF_FFFF), Val(K32, 1)]
    ensures Exec([LocalGet(0), LocalGet(1), Binary(K32, ShrU), Return, Unreachable], l, [], fuel) == Returned(l, Some(Val(K32, 0x7FFF_FFFF)))
  {
    hide Exec, Pushes;
    PushLocal(0, U32, 0xFFFF_FFFF, l, fuel);
    PushLocal(1, U32, 1, l, fuel);
    assert Pow2(1) == 2;
    PushBinary([LocalGet(0)], [LocalGet(1)], ShiftRight, U32, 0xFFFF_FFFF, 1, l, l, l, fuel);
    var code := [LocalGet(0)] + [LocalGet(1)] + [Binary(K32, ShrU)];
    ReturnCode(code, l, l, U32, 0x7FFF_FFFF, fuel);
    ExecAppend(code + [Return], [Unreachable], l, [], fuel);
    assert code + [Return] + [Unreachable] == [LocalGet(0), LocalGet(1), Binary(K32, ShrU), Return, Unreachable];
  }

  lemma ShiftMeans()
    ensures TypeOf(PARAMS, SHIFT) == Some(I32) && Eval(PARAMS, [-1, 1], SHIFT) == Evaluated(-1, [-1, 1])
  {
    hide Find, Wrap, Pow2, Common;
    BothKnown();
    InRangeIsWrapped(I32, -1);
    var vals := [-1, 1];
    assert TypeOf(PARAMS, Var("x")) == Some(I32) && TypeOf(PARAMS, Var("s")) == Some(U32);
    assert Eval(PARAMS, vals, Var("x")) == Evaluated(-1, vals) && Eval(PARAMS, vals, Var("s")) == Evaluated(1, vals);
    assert Operate(ShiftRight, I32, -1, 1) == Some(-1) by { OneDown(); }
  }

  lemma ShiftUnfit()
    ensures !ShiftsFit(PARAMS, SHIFT)
  {
    hide Find;
    BothKnown();
    assert TypeOf(PARAMS, Var("x")) == Some(I32) && TypeOf(PARAMS, Var("s")) == Some(U32);
  }

  lemma OneDown()
    ensures Operate(ShiftRight, I32, -1, 1) == Some(-1)
  {
    assert Pow2(1) == 2;
  }

  lemma BothKnown()
    ensures Find(PARAMS, "s") == Some(1) && Find(PARAMS, "x") == Some(0)
  {
    assert "x"[0] != "s"[0] && PARAMS[..1] == [PARAMS[0]];
    assert Find([PARAMS[0]], "x") == Some(0);
  }

  lemma ProgramMeans(fuel: nat)
    ensures Known(PARAMS, Compound([Result(SHIFT)])) && !Fits(PARAMS, Compound([Result(SHIFT)]))
    ensures Run(PARAMS, [-1, 1], Compound([Result(SHIFT)]), I32, fuel) == Returns(-1)
  {
    hide Eval, TypeOf, ShiftsFit, Wrap;
    ShiftMeans();
    ShiftUnfit();
    InRangeIsWrapped(I32, -1);
    var body := [Result(SHIFT)];
    assert body[1..] == [];
    assert Known(PARAMS, body[0]) && KnownAll(PARAMS, body);
    assert !Fits(PARAMS, body[0]) && !FitsAll(PARAMS, body);
    assert Run(PARAMS, [-1, 1], body[0], I32, fuel) == Returns(-1);
    assert RunAll(PARAMS, [-1, 1], body, I32, fuel) == Returns(-1);
  }

  /** `int f(int x, unsigned s) { return x >> s; }`, called with -1 and 1, returns -1 in C++ and 2147483647 from the
      compiled code. */
  lemma MixedShift(fuel: nat) returns (r: Emitted, l: seq<Val>)
    ensures EmitFunction(PARAMS, [Result(SHIFT)], I32) == Some(r) && CalledWith(PARAMS, [-1, 1], r, l)
    ensures Known(PARAMS, Compound([Result(SHIFT)])) && Run(PARAMS, [-1, 1], Compound([Result(SHIFT)]), I32, fuel) == Returns(-1)
    ensures Exec(r.code, l, [], fuel) == Returned(l, Some(Val(K32, 0x7FFF_FFFF)))
    ensures !Fits(PARAMS, Compound([Result(SHIFT)]))
  {
    hide EmitFunction, Run, Exec, Fits, Known;
    r := ProgramEmitted();
    l := [Val(K32, 0xFFFF_FFFF), Val(K32, 1)];
    ProgramReturns(l, fuel);
    ProgramMeans(fuel);
  }
}
