/** Folding the literals of an expression (src/examples/CPP/walker.ts:118-191, as src/examples/CPP/vsdg.ts:129-151
    applies it) keeps what the expression means to the back end. */
module FoldedPrograms {
  import opened Options
  import opened Slots
  import opened Words
  import opened Cpp
  import opened Wasm
  import opened Emission
  import opened Compiled
  import F = Folding

  function FolderOp(op: BinOp): F.Op {
    match op
    case Plus => F.Plus
    case Minus => F.Minus
    case Times => F.Times
    case Divide => F.Divide
    case Modulo => F.Modulo
    case AndBits => F.OnBits(BitAnd)
    case OrBits => F.OnBits(BitOr)
    case XorBits => F.OnBits(BitXor)
    case ShiftLeft => F.ShiftLeft
    case ShiftRight => F.ShiftRight
    case Equal => F.Equal
    case NotEqual => F.NotEqual
    case Less => F.Less
    case Greater => F.Greater
    case LessEqual => F.LessEqual
    case GreaterEqual => F.GreaterEqual
  }

  // The literal that was folded to, if any; one too large for `int` is none.
  function Literal(r: Option<F.Scalar>): Option<IntLiteral> {
    if r.Some? && InRange(I32, r.value.value) then Some(r.value.value) else None
  }

  /** Every operator whose operands are literals, or have become such, is replaced by its value where it has one. */
  function Fold(e: Expr): Expr {
    match e
    case Lit(_) => e
    case Var(_) => e
    case Bin(op, l, r) =>
      var l', r' := Fold(l), Fold(r);
      if !l'.Lit? || !r'.Lit? then Bin(op, l', r')
      else
        (match Literal(F.CalcBinary(FolderOp(op), F.Scalar(F.Int, l'.v), F.Scalar(F.Int, r'.v)))
         case Some(v) => Lit(v)
         case None => Bin(op, l', r'))
    case Neg(x) =>
      var x' := Fold(x);
      if !x'.Lit? then Neg(x')
      else
        (match Literal(F.CalcUnary(F.Negate, F.Scalar(F.Int, x'.v)))
         case Some(v) => Lit(v)
         case None => Neg(x'))
    case Not(x) =>
      var x' := Fold(x);
      if !x'.Lit? then Not(x')
      else
        (match Literal(F.CalcUnary(F.LogicalNot, F.Scalar(F.Int, x'.v)))
         case Some(v) => Lit(v)
         case None => Not(x'))
    case Assign(x, v) => Assign(x, Fold(v))
    case Cond(c, y, n) => Cond(Fold(c), Fold(y), Fold(n))
  }

  // ----- one operator -----

  lemma IntIsI32(v: int)
    ensures F.InKind(F.Int, v) <==> InRange(I32, v)
    ensures InRange(I32, v) ==> Wrap(I32, v) == v
  {
    hide F.Half, Pow2, Wrap;
    F.Powers();
    if InRange(I32, v) { ValueOfPattern(I32, v); }
  }

  lemma FitsInt(e: int, z: int)
    requires F.Fits(F.Int, e, z)
    ensures z == e && Wrap(I32, e) == z
  {
    hide Wrap, F.InKind, InRange;
    IntIsI32(z);
  }

  lemma {:induction false} BitwiseAt(op: BitOp, n: nat, x: nat, y: nat, i: nat)
    requires i < n
    ensures F.BitAt(Bitwise(op, n, x, y), i) == OneBit(op, F.BitAt(x, i), F.BitAt(y, i))
    decreases i
  {
    hide OneBit, Bitwise;
    BitwiseHalf(op, n, x, y);
    if i > 0 { BitwiseAt(op, n - 1, x / 2, y / 2, i - 1); }
  }

  lemma BitwiseHalf(op: BitOp, n: nat, x: nat, y: nat)
    requires n > 0
    ensures Bitwise(op, n, x, y) / 2 == Bitwise(op, n - 1, x / 2, y / 2) && Bitwise(op, n, x, y) % 2 == OneBit(op, x % 2, y % 2)
  {
    hide OneBit;
    F.OneBitSmall(op, x % 2, y % 2);
  }

  // Patterns have the bits of their values.
  lemma PatternBits(v: int, i: nat)
    requires i < 32
    ensures F.BitAt(PatternOf(K32, v), i) == F.BitAt(v, i)
  {
    hide F.BitAt, Pow2;
    F.Powers();
    ModIdempotent(v, Size(K32));
    F.LowBits(PatternOf(K32, v), v, 32);
  }

  lemma ModIdempotent(v: int, m: nat)
    requires m > 0
    ensures (v % m) % m == v % m
  {
    F.SmallMod(v % m, m);
  }

  lemma OnBitsIs(op: BitOp, a: int, b: int, z: int)
    requires F.InKind(F.Int, z) && F.BitByBit(op, 32, a, b, z)
    ensures OnBits(op, I32, a, b) == z
  {
    hide F.InKind, F.BitAt, Bitwise, OneBit, Pow2, PatternOf, ValueOf;
    var x, y := PatternOf(K32, a), PatternOf(K32, b);
    var p := Bitwise(op, 32, x, y);
    F.Powers();
    forall i: nat | i < 32 ensures F.BitAt(z, i) == F.BitAt(p, i) {
      BitwiseAt(op, 32, x, y, i);
      PatternBits(a, i);
      PatternBits(b, i);
    }
    F.LowBits(z, p, 32);
    ReadBack(z, p);
  }

  lemma ReadBack(z: int, p: nat)
    requires F.InKind(F.Int, z) && p < Size(K32) && z % Pow2(32) == p % Pow2(32)
    ensures ValueOf(I32, p) == z
  {
    hide Pow2, F.InKind;
    F.Powers();
    IntIsI32(z);
    F.SmallMod(p, Size(K32));
    ValueOfPattern(I32, z);
  }

  /** What an operator computes on `int`s is what it computes in a program. */
  lemma OperateIs(op: BinOp, a: int, b: int, z: int)
    requires F.InKind(F.Int, a) && F.InKind(F.Int, b) && F.Computes(FolderOp(op), F.Int, a, b, z)
    ensures Operate(op, I32, a, b) == Some(z)
  {
    hide F.InKind, F.Fits, F.Truncates, F.BitByBit, Wrap, OnBits, Quotient, Remainder, Pow2, InRange;
    match op
    case Plus => FitsInt(a + b, z);
    case Minus => FitsInt(a - b, z);
    case Times => FitsInt(a * b, z);
    case Divide =>
      var r :| F.Truncates(a, b, z, r);
      QuotientIs(a, b, z, r);
    case Modulo =>
      var q :| F.InKind(F.Int, q) && F.Truncates(a, b, q, z);
      QuotientIs(a, b, q, z);
    case AndBits => OnBitsIs(BitAnd, a, b, z);
    case OrBits => OnBitsIs(BitOr, a, b, z);
    case XorBits => OnBitsIs(BitXor, a, b, z);
    case ShiftLeft => FitsInt(a * Pow2(b), z);
    case ShiftRight => F.FloorIs(a, Pow2(b), z);
    case _ =>
  }

  lemma QuotientIs(a: int, b: int, q: int, r: int)
    requires F.Truncates(a, b, q, r) && F.InKind(F.Int, q)
    ensures b != 0 && q == Quotient(a, b) && r == Remainder(a, b) && InRange(I32, q)
  {
    hide F.InKind, InRange, Quotient, Remainder;
    IntIsI32(q);
    if b != 0 { F.TruncatedIs(a, b, q, r); }
  }

  lemma FoldedOperator(op: BinOp, a: IntLiteral, b: IntLiteral)
    requires F.CalcBinary(FolderOp(op), F.Scalar(F.Int, a), F.Scalar(F.Int, b)).Some?
    ensures Operate(op, I32, a, b) == Some(F.CalcBinary(FolderOp(op), F.Scalar(F.Int, a), F.Scalar(F.Int, b)).value.value)
  {
    hide F.CalcBinary, F.Computes, F.InKind, F.Converts, F.ConvertExact, Operate;
    var x, y := F.Scalar(F.Int, a), F.Scalar(F.Int, b);
    var z := F.CalcBinary(FolderOp(op), x, y).value.value;
    IntIsI32(a);
    IntIsI32(b);
    F.FoldsExactly(FolderOp(op), x, y, z);
    forall v, w | F.Converts(F.Int, v, w) ensures w == F.ConvertExact(v, F.Int) { F.ConvertIs(F.Int, v, w); }
    F.ConvertKeeps(F.Int, a);
    F.ConvertKeeps(F.Int, b);
    OperateIs(op, a, b, z);
  }

  lemma FoldedNegation(a: IntLiteral)
    requires F.CalcUnary(F.Negate, F.Scalar(F.Int, a)).Some?
    ensures F.CalcUnary(F.Negate, F.Scalar(F.Int, a)).value.value == Wrap(I32, -Wrap(I32, a))
  {
    hide F.CalcUnary, F.Fits, F.InKind, Wrap;
    var v: int := a;
    IntIsI32(v);
    var z := F.CalcUnary(F.Negate, F.Scalar(F.Int, v)).value.value;
    F.UnaryExactly(F.Negate, F.Scalar(F.Int, v), z);
    FitsInt(-v, z);
  }

  // ----- whole expressions -----

  // The same type, and from any values of the variables the same outcome.
  ghost predicate Same(vars: seq<Variable>, e: Expr, e': Expr)
    requires TypeOf(vars, e).Some?
  {
    TypeOf(vars, e') == TypeOf(vars, e) && forall vals | |vals| == |vars| :: Eval(vars, vals, e') == Eval(vars, vals, e)
  }

  lemma SameAt(vars: seq<Variable>, vals: seq<int>, e: Expr, e': Expr)
    requires |vals| == |vars| && TypeOf(vars, e).Some? && Same(vars, e, e')
    ensures TypeOf(vars, e') == TypeOf(vars, e) && Eval(vars, vals, e') == Eval(vars, vals, e)
  {
    hide TypeOf, Eval;
  }

  function BinOutcome(op: BinOp, t: Scalar, a: Evaluated, b: Evaluated): Evaluated {
    if a.Undefined? || b.Undefined? then Undefined
    else
      match Operate(op, t, Wrap(t, a.v), if Shifts(op) then b.v else Wrap(t, b.v))
      case None => Undefined
      case Some(v) => Evaluated(v, b.vals)
  }

  lemma EvalBin(vars: seq<Variable>, vals: seq<int>, op: BinOp, l: Expr, r: Expr, s: Scalar, t: Scalar, a: Evaluated, b: Evaluated)
    requires |vals| == |vars| && TypeOf(vars, Bin(op, l, r)).Some? && TypeOf(vars, l) == Some(s) && TypeOf(vars, r) == Some(t)
    requires a == Eval(vars, vals, l) && (a.Evaluated? ==> |a.vals| == |vars|)
    requires a.Evaluated? ==> b == Eval(vars, a.vals, r)
    ensures Eval(vars, vals, Bin(op, l, r)) == BinOutcome(op, OperandType(op, s, t), a, b)
  {
    hide Operate, Wrap, OperandType, TypeOf;
  }

  lemma BinType(vars: seq<Variable>, op: BinOp, l: Expr, r: Expr)
    requires TypeOf(vars, l).Some? && TypeOf(vars, r).Some?
    ensures TypeOf(vars, Bin(op, l, r)) == Some(if Compares(op) then I32 else OperandType(op, TypeOf(vars, l).value, TypeOf(vars, r).value))
  {
    hide OperandType;
  }

  // Replacing the parts of an expression by parts that mean the same.
  lemma SameBin(vars: seq<Variable>, op: BinOp, l: Expr, r: Expr, l': Expr, r': Expr)
    requires TypeOf(vars, l).Some? && TypeOf(vars, r).Some? && TypeOf(vars, Bin(op, l, r)).Some?
    requires Same(vars, l, l') && Same(vars, r, r')
    ensures Same(vars, Bin(op, l, r), Bin(op, l', r'))
  {
    hide TypeOf, Eval, BinOutcome, OperandType;
    BinType(vars, op, l, r);
    BinType(vars, op, l', r');
    forall vals | |vals| == |vars| ensures Eval(vars, vals, Bin(op, l', r')) == Eval(vars, vals, Bin(op, l, r)) {
      var a := Eval(vars, vals, l);
      var b := if a.Evaluated? then Eval(vars, a.vals, r) else Undefined;
      EvalBin(vars, vals, op, l, r, TypeOf(vars, l).value, TypeOf(vars, r).value, a, b);
      EvalBin(vars, vals, op, l', r', TypeOf(vars, l).value, TypeOf(vars, r).value, a, b);
    }
  }

  function CondOutcome(t: Scalar, a: Evaluated, b: Evaluated): Evaluated {
    if a.Undefined? || b.Undefined? then Undefined else Evaluated(Wrap(t, b.v), b.vals)
  }

  lemma EvalCond(vars: seq<Variable>, vals: seq<int>, c: Expr, y: Expr, n: Expr, s: Scalar, t: Scalar, a: Evaluated, b: Evaluated)
    requires |vals| == |vars| && TypeOf(vars, Cond(c, y, n)).Some?
    requires TypeOf(vars, c).Some? && TypeOf(vars, y) == Some(s) && TypeOf(vars, n) == Some(t)
    requires a == Eval(vars, vals, c) && (a.Evaluated? ==> |a.vals| == |vars|)
    requires a.Evaluated? ==> b == Eval(vars, a.vals, if a.v != 0 then y else n)
    ensures Eval(vars, vals, Cond(c, y, n)) == CondOutcome(Common(s, t), a, b)
  {
    hide Wrap, Common, TypeOf, Operate, OperandType, Find;
  }

  lemma SameCond(vars: seq<Variable>, c: Expr, y: Expr, n: Expr, c': Expr, y': Expr, n': Expr)
    requires TypeOf(vars, c).Some? && TypeOf(vars, y).Some? && TypeOf(vars, n).Some? && TypeOf(vars, Cond(c, y, n)).Some?
    requires Same(vars, c, c') && Same(vars, y, y') && Same(vars, n, n')
    ensures Same(vars, Cond(c, y, n), Cond(c', y', n'))
  {
    hide TypeOf, Eval, CondOutcome, Common;
    CondType(vars, c, y, n);
    CondType(vars, c', y', n');
    forall vals | |vals| == |vars| ensures Eval(vars, vals, Cond(c', y', n')) == Eval(vars, vals, Cond(c, y, n)) {
      var a := Eval(vars, vals, c);
      var b := if a.Evaluated? then Eval(vars, a.vals, if a.v != 0 then y else n) else Undefined;
      EvalCond(vars, vals, c, y, n, TypeOf(vars, y).value, TypeOf(vars, n).value, a, b);
      EvalCond(vars, vals, c', y', n', TypeOf(vars, y).value, TypeOf(vars, n).value, a, b);
    }
  }

  lemma CondType(vars: seq<Variable>, c: Expr, y: Expr, n: Expr)
    requires TypeOf(vars, c).Some? && TypeOf(vars, y).Some? && TypeOf(vars, n).Some?
    ensures TypeOf(vars, Cond(c, y, n)) == Some(Common(TypeOf(vars, y).value, TypeOf(vars, n).value))
  {
    hide Common;
  }

  lemma EvalNeg(vars: seq<Variable>, vals: seq<int>, x: Expr, s: Scalar, a: Evaluated)
    requires |vals| == |vars| && TypeOf(vars, Neg(x)).Some? && TypeOf(vars, x) == Some(s) && a == Eval(vars, vals, x)
    ensures var t := Common(s, I32);
            Eval(vars, vals, Neg(x)) == if a.Undefined? then Undefined else Evaluated(Wrap(t, -Wrap(t, a.v)), a.vals)
  {
    hide Wrap, Common, TypeOf, Operate, OperandType, Find;
  }

  lemma EvalNot(vars: seq<Variable>, vals: seq<int>, x: Expr, a: Evaluated)
    requires |vals| == |vars| && TypeOf(vars, Not(x)).Some? && TypeOf(vars, x).Some? && a == Eval(vars, vals, x)
    ensures Eval(vars, vals, Not(x)) == if a.Undefined? then Undefined else Evaluated(Bool(a.v == 0), a.vals)
  {
    hide Wrap, Common, TypeOf, Operate, OperandType, Find;
  }

  lemma UnaryType(vars: seq<Variable>, x: Expr)
    requires TypeOf(vars, x).Some?
    ensures TypeOf(vars, Neg(x)) == Some(Common(TypeOf(vars, x).value, I32)) && TypeOf(vars, Not(x)) == Some(I32)
  {
    hide Common;
  }

  lemma SameUnary(vars: seq<Variable>, x: Expr, x': Expr)
    requires TypeOf(vars, x).Some? && TypeOf(vars, Neg(x)).Some? && TypeOf(vars, Not(x)).Some?
    requires Same(vars, x, x')
    ensures Same(vars, Neg(x), Neg(x')) && Same(vars, Not(x), Not(x'))
  {
    hide TypeOf, Eval, Common, Wrap;
    UnaryType(vars, x);
    UnaryType(vars, x');
    forall vals | |vals| == |vars|
      ensures Eval(vars, vals, Neg(x')) == Eval(vars, vals, Neg(x)) && Eval(vars, vals, Not(x')) == Eval(vars, vals, Not(x))
    {
      var t, a := TypeOf(vars, x).value, Eval(vars, vals, x);
      EvalNeg(vars, vals, x, t, a);
      EvalNeg(vars, vals, x', t, a);
      EvalNot(vars, vals, x, a);
      EvalNot(vars, vals, x', a);
    }
  }

  lemma SameAssign(vars: seq<Variable>, x: string, v: Expr, v': Expr)
    requires TypeOf(vars, v).Some? && TypeOf(vars, Assign(x, v)).Some? && Same(vars, v, v')
    ensures Same(vars, Assign(x, v), Assign(x, v'))
  {
    hide Wrap, Find;
    forall vals | |vals| == |vars| ensures Eval(vars, vals, Assign(x, v')) == Eval(vars, vals, Assign(x, v)) { SameAt(vars, vals, v, v'); }
  }

  // ----- literals -----

  lemma LiteralIs(vars: seq<Variable>, vals: seq<int>, a: IntLiteral)
    requires |vals| == |vars|
    ensures TypeOf(vars, Lit(a)) == Some(I32) && Eval(vars, vals, Lit(a)) == Evaluated(a, vals) && Wrap(I32, a) == a
  {
    hide Wrap;
    IntIsI32(a);
  }

  lemma LiteralsFolded(vars: seq<Variable>, op: BinOp, a: IntLiteral, b: IntLiteral)
    requires TypeOf(vars, Bin(op, Lit(a), Lit(b))).Some?
    ensures var folded := Literal(F.CalcBinary(FolderOp(op), F.Scalar(F.Int, a), F.Scalar(F.Int, b)));
            folded.Some? ==> Same(vars, Bin(op, Lit(a), Lit(b)), Lit(folded.value))
  {
    hide F.CalcBinary, Operate, Wrap, InRange, TypeOf, Eval, OperandType;
    var folded := Literal(F.CalcBinary(FolderOp(op), F.Scalar(F.Int, a), F.Scalar(F.Int, b)));
    LiteralTypes(vars, a);
    LiteralTypes(vars, b);
    BinType(vars, op, Lit(a), Lit(b));
    if folded.Some? {
      LiteralTypes(vars, folded.value);
      FoldedOperator(op, a, b);
      forall vals | |vals| == |vars| ensures Eval(vars, vals, Lit(folded.value)) == Eval(vars, vals, Bin(op, Lit(a), Lit(b))) {
        LiteralIs(vars, vals, a);
        LiteralIs(vars, vals, b);
        LiteralIs(vars, vals, folded.value);
        EvalBin(vars, vals, op, Lit(a), Lit(b), I32, I32, Evaluated(a, vals), Evaluated(b, vals));
      }
    }
  }

  lemma LiteralTypes(vars: seq<Variable>, a: IntLiteral)
    ensures TypeOf(vars, Lit(a)) == Some(I32) && Common(I32, I32) == I32 && forall op :: OperandType(op, I32, I32) == I32
  {
  }

  lemma UnaryFolded(vars: seq<Variable>, a: IntLiteral)
    requires TypeOf(vars, Neg(Lit(a))).Some? && TypeOf(vars, Not(Lit(a))).Some?
    ensures var negated := Literal(F.CalcUnary(F.Negate, F.Scalar(F.Int, a)));
            negated.Some? ==> Same(vars, Neg(Lit(a)), Lit(negated.value))
    ensures var turned := Literal(F.CalcUnary(F.LogicalNot, F.Scalar(F.Int, a)));
            turned.Some? ==> Same(vars, Not(Lit(a)), Lit(turned.value))
  {
    hide F.CalcUnary, Wrap, InRange, TypeOf, Eval, Common;
    var negated := Literal(F.CalcUnary(F.Negate, F.Scalar(F.Int, a)));
    var turned := Literal(F.CalcUnary(F.LogicalNot, F.Scalar(F.Int, a)));
    LiteralTypes(vars, a);
    UnaryType(vars, Lit(a));
    NotIs(a);
    if negated.Some? { FoldedNegation(a); LiteralTypes(vars, negated.value); }
    if turned.Some? { LiteralTypes(vars, turned.value); }
    forall vals | |vals| == |vars|
      ensures negated.Some? ==> Eval(vars, vals, Lit(negated.value)) == Eval(vars, vals, Neg(Lit(a)))
      ensures turned.Some? ==> Eval(vars, vals, Lit(turned.value)) == Eval(vars, vals, Not(Lit(a)))
    {
      LiteralIs(vars, vals, a);
      EvalNeg(vars, vals, Lit(a), I32, Evaluated(a, vals));
      EvalNot(vars, vals, Lit(a), Evaluated(a, vals));
      if negated.Some? { LiteralIs(vars, vals, negated.value); }
      if turned.Some? { LiteralIs(vars, vals, turned.value); }
    }
  }

  lemma NotIs(a: IntLiteral)
    ensures F.CalcUnary(F.LogicalNot, F.Scalar(F.Int, a)) == Some(F.Scalar(F.Bool, Bool(a == 0)))
  {
  }

  // ----- whole expressions -----

  lemma PartTypes(vars: seq<Variable>, e: Expr)
    requires TypeOf(vars, e).Some?
    ensures e.Bin? ==> TypeOf(vars, e.left).Some? && TypeOf(vars, e.right).Some?
    ensures e.Neg? || e.Not? ==> TypeOf(vars, e.operand).Some?
    ensures e.Assign? ==> TypeOf(vars, e.value).Some?
    ensures e.Cond? ==> TypeOf(vars, e.test).Some? && TypeOf(vars, e.yes).Some? && TypeOf(vars, e.no).Some?
  {
  }

  lemma SameThrough(vars: seq<Variable>, e: Expr, e': Expr, e'': Expr)
    requires TypeOf(vars, e).Some? && Same(vars, e, e') && TypeOf(vars, e').Some? && Same(vars, e', e'')
    ensures Same(vars, e, e'')
  {
    hide TypeOf, Eval;
  }

  /** A folded expression has the type, the value, the effects, and the lack of a value, that it had. */
  lemma {:induction false} FoldKeeps(vars: seq<Variable>, e: Expr)
    requires TypeOf(vars, e).Some?
    ensures Same(vars, e, Fold(e))
    decreases e, 1
  {
    hide F.CalcBinary, F.CalcUnary, Literal, TypeOf, Eval;
    PartTypes(vars, e);
    match e
    case Lit(_) =>
    case Var(_) =>
    case Bin(op, l, r) =>
      FoldKeeps(vars, l);
      FoldKeeps(vars, r);
      SameBin(vars, op, l, r, Fold(l), Fold(r));
      if Fold(l).Lit? && Fold(r).Lit? {
        var a, b := Fold(l).v, Fold(r).v;
        LiteralsFolded(vars, op, a, b);
        var folded := Literal(F.CalcBinary(FolderOp(op), F.Scalar(F.Int, a), F.Scalar(F.Int, b)));
        if folded.Some? { SameThrough(vars, e, Bin(op, Lit(a), Lit(b)), Lit(folded.value)); }
      }
    case Neg(x) => UnaryKeeps(vars, e);
    case Not(x) => UnaryKeeps(vars, e);
    case Assign(x, v) =>
      FoldKeeps(vars, v);
      SameAssign(vars, x, v, Fold(v));
    case Cond(c, y, n) =>
      FoldKeeps(vars, c);
      FoldKeeps(vars, y);
      FoldKeeps(vars, n);
      SameCond(vars, c, y, n, Fold(c), Fold(y), Fold(n));
  }

  lemma {:induction false} UnaryKeeps(vars: seq<Variable>, e: Expr)
    requires TypeOf(vars, e).Some? && (e.Neg? || e.Not?)
    ensures Same(vars, e, Fold(e))
    decreases e, 0
  {
    hide F.CalcUnary, Literal, TypeOf, Eval;
    PartTypes(vars, e);
    var x := e.operand;
    FoldKeeps(vars, x);
    UnaryType(vars, x);
    SameUnary(vars, x, Fold(x));
    if Fold(x).Lit? {
      var a := Fold(x).v;
      UnaryFolded(vars, a);
      var folded := Literal(F.CalcUnary(if e.Neg? then F.Negate else F.LogicalNot, F.Scalar(F.Int, a)));
      if folded.Some? { SameThrough(vars, e, if e.Neg? then Neg(Lit(a)) else Not(Lit(a)), Lit(folded.value)); }
    }
  }

  lemma {:induction false} FoldFits(vars: seq<Variable>, e: Expr)
    requires TypeOf(vars, e).Some? && ShiftsFit(vars, e)
    ensures ShiftsFit(vars, Fold(e))
    decreases e
  {
    hide F.CalcBinary, F.CalcUnary, Literal, TypeOf, Eval, Common;
    PartTypes(vars, e);
    match e
    case Lit(_) =>
    case Var(_) =>
    case Bin(op, l, r) =>
      FoldFits(vars, l);
      FoldFits(vars, r);
      FoldKeeps(vars, l);
      FoldKeeps(vars, r);
    case Neg(x) => FoldFits(vars, x);
    case Not(x) => FoldFits(vars, x);
    case Assign(_, v) => FoldFits(vars, v);
    case Cond(c, y, n) =>
      FoldFits(vars, c);
      FoldFits(vars, y);
      FoldFits(vars, n);
  }

  /** So the code of the folded expression and that of the expression push the same, and leave the same in every variable. */
  lemma FoldedCode(declared: seq<Entry>, vals: seq<int>, e: Expr, c: Code, l: seq<Val>, fuel: nat) returns (d: Code, l1: seq<Val>, l2: seq<Val>)
    requires Ready(declared, vals, l) && EmitExpr(declared, e) == Some(c) && |vals| == |VarsOf(declared)|
    requires TypeOf(VarsOf(declared), e).Some? && Eval(VarsOf(declared), vals, e).Evaluated? && ShiftsFit(VarsOf(declared), e)
    ensures EmitExpr(declared, Fold(e)) == Some(d) && d.t == c.t
    ensures var r := Eval(VarsOf(declared), vals, e);
            && Pushes(c.code, l, l1, c.t, r.v, fuel) && Ready(declared, r.vals, l1)
            && Pushes(d.code, l, l2, c.t, r.v, fuel) && Ready(declared, r.vals, l2)
  {
    hide Ready, Pushes, InRange, Opens, VarsOf, TypeOf, Eval, EmitExpr, Fold, ShiftsFit;
    var vars := VarsOf(declared);
    FoldKeeps(vars, e);
    SameAt(vars, vals, e, Fold(e));
    FoldFits(vars, e);
    TypeAgrees(declared, e);
    TypeAgrees(declared, Fold(e));
    d := EmitExpr(declared, Fold(e)).value;
    l1 := ExprCorrect(declared, vals, e, c, l, fuel);
    l2 := ExprCorrect(declared, vals, Fold(e), d, l, fuel);
  }
}
