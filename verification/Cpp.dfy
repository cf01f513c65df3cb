/** The C++ subset the back end compiles, on integer scalars, and what its programs mean
    (src/examples/CPP/backend.ts:9-11, 47-53, 185-357). */
module Cpp {
  import opened Options
  import opened Slots
  import opened Words

  // A literal of type `int`.
  type IntLiteral = v: int | -0x8000_0000 <= v < 0x8000_0000 witness 0

  datatype BinOp = Plus | Minus | Times | Divide | Modulo | AndBits | OrBits | XorBits | ShiftLeft | ShiftRight
                 | Equal | NotEqual | Less | Greater | LessEqual | GreaterEqual

  datatype Expr =
    | Lit(v: IntLiteral)
    | Var(name: string)
    | Bin(op: BinOp, left: Expr, right: Expr)
    | Neg(operand: Expr)
    | Not(operand: Expr)
    | Assign(target: string, value: Expr)
    | Cond(test: Expr, yes: Expr, no: Expr)

  datatype Stmt =
    | Empty
    | Compound(body: seq<Stmt>)
    | Declaration(name: string, t: Scalar, hasInit: bool, init: Expr)
    | Expression(e: Expr)
    | Conditional(test: Expr, yes: Stmt, hasElse: bool, no: Stmt)
    | While(test: Expr, inner: Stmt)
    | Break
    | Continue
    | Result(e: Expr)

  predicate Compares(op: BinOp) {
    op.Equal? || op.NotEqual? || op.Less? || op.Greater? || op.LessEqual? || op.GreaterEqual?
  }

  /** The usual arithmetic conversions, cut down to these scalars. */
  function Common(a: Scalar, b: Scalar): Scalar {
    if a == U64 || b == U64 then U64
    else if a == I64 || b == I64 then I64
    else if a == U32 || b == U32 then U32
    else I32
  }

  predicate Shifts(op: BinOp) {
    op.ShiftLeft? || op.ShiftRight?
  }

  // The type an operator works in: of a shift, that of the left operand, which is as wide as `int` at least.
  function OperandType(op: BinOp, l: Scalar, r: Scalar): Scalar {
    if Shifts(op) then l else Common(l, r)
  }

  // ----- types -----

  // A variable in scope; the innermost comes last.
  datatype Variable = Variable(name: string, t: Scalar)

  function Find(vars: seq<Variable>, name: string): (r: Option<nat>)
    ensures r.Some? ==> r.value < |vars| && vars[r.value].name == name
  {
    if vars == [] then None
    else if vars[|vars| - 1].name == name then Some(|vars| - 1)
    else Find(vars[..|vars| - 1], name)
  }

  /** The type of an expression; `None` if a name in it is unknown. */
  function TypeOf(vars: seq<Variable>, e: Expr): Option<Scalar> {
    match e
    case Lit(_) => Some(I32)
    case Var(x) => if Find(vars, x).Some? then Some(vars[Find(vars, x).value].t) else None
    case Bin(op, l, r) =>
      if TypeOf(vars, l).None? || TypeOf(vars, r).None? then None
      else Some(if Compares(op) then I32 else OperandType(op, TypeOf(vars, l).value, TypeOf(vars, r).value))
    case Neg(x) => if TypeOf(vars, x).None? then None else Some(Common(TypeOf(vars, x).value, I32))
    case Not(x) => if TypeOf(vars, x).None? then None else Some(I32)
    case Assign(x, v) => if Find(vars, x).None? || TypeOf(vars, v).None? then None else Some(vars[Find(vars, x).value].t)
    case Cond(c, y, n) =>
      if TypeOf(vars, c).None? || TypeOf(vars, y).None? || TypeOf(vars, n).None? then None
      else Some(Common(TypeOf(vars, y).value, TypeOf(vars, n).value))
  }

  // ----- values -----

  function Bool(b: bool): int {
    if b then 1 else 0
  }

  /** The operation on two values of type `t`, or for a shift on one and a count; `None` where C++ leaves the result undefined and wasm could
      only trap or mask: division by zero or out of range, and shifts by a count outside the width.
      Signed sums, differences, products and left shifts wrap. */
  function Operate(op: BinOp, t: Scalar, a: int, b: int): Option<int> {
    match op
    case Plus => Some(Wrap(t, a + b))
    case Minus => Some(Wrap(t, a - b))
    case Times => Some(Wrap(t, a * b))
    case Divide => if b == 0 || !InRange(t, Quotient(a, b)) then None else Some(Quotient(a, b))
    case Modulo => if b == 0 || !InRange(t, Quotient(a, b)) then None else Some(Remainder(a, b))
    case AndBits => Some(OnBits(BitAnd, t, a, b))
    case OrBits => Some(OnBits(BitOr, t, a, b))
    case XorBits => Some(OnBits(BitXor, t, a, b))
    case ShiftLeft => if 0 <= b < Bits(KindOf(t)) then Some(Wrap(t, a * Pow2(b))) else None
    case ShiftRight => if 0 <= b < Bits(KindOf(t)) then Some(a / Pow2(b)) else None
    case Equal => Some(Bool(a == b))
    case NotEqual => Some(Bool(a != b))
    case Less => Some(Bool(a < b))
    case Greater => Some(Bool(a > b))
    case LessEqual => Some(Bool(a <= b))
    case GreaterEqual => Some(Bool(a >= b))
  }

  // A bitwise operator works on the two's complement patterns.
  function OnBits(op: BitOp, t: Scalar, a: int, b: int): int {
    ValueOf(t, Bitwise(op, Bits(KindOf(t)), PatternOf(KindOf(t), a), PatternOf(KindOf(t), b)))
  }

  datatype Evaluated = Undefined | Evaluated(v: int, vals: seq<int>)

  /** Evaluate left to right. `vals` holds the value of each variable in scope. */
  function Eval(vars: seq<Variable>, vals: seq<int>, e: Expr): (r: Evaluated)
    requires |vals| == |vars| && TypeOf(vars, e).Some?
    ensures r.Evaluated? ==> |r.vals| == |vars|
    decreases e
  {
    match e
    case Lit(v) => Evaluated(v, vals)
    case Var(x) => Evaluated(vals[Find(vars, x).value], vals)
    case Bin(op, l, r) =>
      var t := OperandType(op, TypeOf(vars, l).value, TypeOf(vars, r).value);
      (match Eval(vars, vals, l)
       case Undefined => Undefined
       case Evaluated(a, vals1) =>
         match Eval(vars, vals1, r)
         case Undefined => Undefined
         case Evaluated(b, vals2) =>
           match Operate(op, t, Wrap(t, a), if Shifts(op) then b else Wrap(t, b))
           case None => Undefined
           case Some(v) => Evaluated(v, vals2))
    case Neg(x) =>
      var t := Common(TypeOf(vars, x).value, I32);
      (match Eval(vars, vals, x)
       case Undefined => Undefined
       case Evaluated(a, vals1) => Evaluated(Wrap(t, -Wrap(t, a)), vals1))
    case Not(x) =>
      (match Eval(vars, vals, x)
       case Undefined => Undefined
       case Evaluated(a, vals1) => Evaluated(Bool(a == 0), vals1))
    case Assign(x, e1) =>
      var k := Find(vars, x).value;
      (match Eval(vars, vals, e1)
       case Undefined => Undefined
       case Evaluated(a, vals1) => Evaluated(Wrap(vars[k].t, a), vals1[k := Wrap(vars[k].t, a)]))
    case Cond(c, y, n) =>
      var t := Common(TypeOf(vars, y).value, TypeOf(vars, n).value);
      (match Eval(vars, vals, c)
       case Undefined => Undefined
       case Evaluated(a, vals1) =>
         match Eval(vars, vals1, if a != 0 then y else n)
         case Undefined => Undefined
         case Evaluated(b, vals2) => Evaluated(Wrap(t, b), vals2))
  }

  // ----- statements -----

  /** How a statement ends, with the values of the variables then in scope. */
  datatype Ending =
    | Falls(vals: seq<int>) | Breaks(vals: seq<int>) | Continues(vals: seq<int>) | Returns(v: int)
    | Undetermined | Unfinished

  // The variables in scope after a statement.
  function After(vars: seq<Variable>, s: Stmt): seq<Variable> {
    if s.Declaration? then vars + [Variable(s.name, s.t)] else vars
  }

  function AfterAll(vars: seq<Variable>, body: seq<Stmt>): seq<Variable>
    decreases body
  {
    if body == [] then vars else AfterAll(After(vars, body[0]), body[1..])
  }

  /** Every name is known where it is used. */
  predicate Known(vars: seq<Variable>, s: Stmt)
    decreases s, 0
  {
    match s
    case Compound(body) => KnownAll(vars, body)
    case Declaration(_, _, hasInit, init) => hasInit ==> TypeOf(vars, init).Some?
    case Expression(e) => TypeOf(vars, e).Some?
    case Conditional(c, y, hasElse, n) => TypeOf(vars, c).Some? && Known(vars, y) && (hasElse ==> Known(vars, n))
    case While(c, b) => TypeOf(vars, c).Some? && Known(vars, b)
    case Result(e) => TypeOf(vars, e).Some?
    case _ => true
  }

  predicate KnownAll(vars: seq<Variable>, body: seq<Stmt>)
    decreases body, 1
  {
    body == [] || (Known(vars, body[0]) && KnownAll(After(vars, body[0]), body[1..]))
  }

  // A declaration stands only directly inside a block.
  predicate Placed(s: Stmt)
    decreases s, 0
  {
    match s
    case Compound(body) => forall i | 0 <= i < |body| :: Placed(body[i])
    case Conditional(_, y, hasElse, n) => !y.Declaration? && Placed(y) && (hasElse ==> !n.Declaration? && Placed(n))
    case While(_, b) => !b.Declaration? && Placed(b)
    case _ => true
  }

  /** Every shift has a left operand of the type that both operands have in common. */
  predicate ShiftsFit(vars: seq<Variable>, e: Expr) {
    match e
    case Bin(op, l, r) =>
      && ShiftsFit(vars, l) && ShiftsFit(vars, r)
      && (Shifts(op) && TypeOf(vars, l).Some? && TypeOf(vars, r).Some? ==>
            Common(TypeOf(vars, l).value, TypeOf(vars, r).value) == TypeOf(vars, l).value)
    case Neg(x) => ShiftsFit(vars, x)
    case Not(x) => ShiftsFit(vars, x)
    case Assign(_, v) => ShiftsFit(vars, v)
    case Cond(c, y, n) => ShiftsFit(vars, c) && ShiftsFit(vars, y) && ShiftsFit(vars, n)
    case _ => true
  }

  predicate Fits(vars: seq<Variable>, s: Stmt)
    decreases s, 0
  {
    match s
    case Compound(body) => FitsAll(vars, body)
    case Declaration(_, _, hasInit, init) => hasInit ==> ShiftsFit(vars, init)
    case Expression(e) => ShiftsFit(vars, e)
    case Conditional(c, y, hasElse, n) => ShiftsFit(vars, c) && Fits(vars, y) && (hasElse ==> Fits(vars, n))
    case While(c, b) => ShiftsFit(vars, c) && Fits(vars, b)
    case Result(e) => ShiftsFit(vars, e)
    case _ => true
  }

  predicate FitsAll(vars: seq<Variable>, body: seq<Stmt>)
    decreases body, 1
  {
    body == [] || (Fits(vars, body[0]) && FitsAll(After(vars, body[0]), body[1..]))
  }

  // Leaving a block takes its variables away.
  function Cut(e: Ending, n: nat): Ending {
    match e
    case Falls(vals) => if n <= |vals| then Falls(vals[..n]) else e
    case Breaks(vals) => if n <= |vals| then Breaks(vals[..n]) else e
    case Continues(vals) => if n <= |vals| then Continues(vals[..n]) else e
    case _ => e
  }

  /** Run a statement; each round of a loop uses up fuel. `result` is the function's type. */
  function Run(vars: seq<Variable>, vals: seq<int>, s: Stmt, result: Scalar, fuel: nat): (end: Ending)
    requires |vals| == |vars| && Known(vars, s)
    ensures end.Falls? ==> |end.vals| == |After(vars, s)|
    ensures (end.Breaks? || end.Continues?) ==> |end.vals| == |vars|
    decreases fuel, s, 1
  {
    match s
    case Empty => Falls(vals)
    case Compound(body) => Cut(RunAll(vars, vals, body, result, fuel), |vars|)
    case Declaration(_, t, hasInit, init) =>
      if !hasInit then Falls(vals + [0])
      else (match Eval(vars, vals, init)
            case Undefined => Undetermined
            case Evaluated(a, vals1) => Falls(vals1 + [Wrap(t, a)]))
    case Expression(e) =>
      (match Eval(vars, vals, e)
       case Undefined => Undetermined
       case Evaluated(_, vals1) => Falls(vals1))
    case Conditional(c, y, hasElse, n) =>
      (match Eval(vars, vals, c)
       case Undefined => Undetermined
       case Evaluated(a, vals1) =>
         if a != 0 then Cut(Run(vars, vals1, y, result, fuel), |vars|)
         else if hasElse then Cut(Run(vars, vals1, n, result, fuel), |vars|)
         else Falls(vals1))
    case While(_, _) => RunLoop(vars, vals, s, result, fuel)
    case Break => Breaks(vals)
    case Continue => Continues(vals)
    case Result(e) =>
      (match Eval(vars, vals, e)
       case Undefined => Undetermined
       case Evaluated(a, _) => Returns(Wrap(result, a)))
  }

  function RunLoop(vars: seq<Variable>, vals: seq<int>, s: Stmt, result: Scalar, fuel: nat): (end: Ending)
    requires |vals| == |vars| && s.While? && Known(vars, s)
    ensures end.Falls? ==> |end.vals| == |vars|
    ensures !end.Breaks? && !end.Continues?
    decreases fuel, s, 0
  {
    if fuel == 0 then Unfinished
    else
      match Eval(vars, vals, s.test)
      case Undefined => Undetermined
      case Evaluated(a, vals1) =>
        if a == 0 then Falls(vals1)
        else
          match Cut(Run(vars, vals1, s.inner, result, fuel - 1), |vars|)
          case Falls(vals2) => RunLoop(vars, vals2, s, result, fuel - 1)
          case Continues(vals2) => RunLoop(vars, vals2, s, result, fuel - 1)
          case Breaks(vals2) => Falls(vals2)
          case other => other
  }

  function RunAll(vars: seq<Variable>, vals: seq<int>, body: seq<Stmt>, result: Scalar, fuel: nat): (end: Ending)
    requires |vals| == |vars| && KnownAll(vars, body)
    ensures end.Falls? || end.Breaks? || end.Continues? ==> |vars| <= |end.vals|
    ensures end.Falls? ==> |end.vals| == |AfterAll(vars, body)|
    decreases fuel, body, 0
  {
    if body == [] then Falls(vals)
    else
      match Run(vars, vals, body[0], result, fuel)
      case Falls(vals1) => RunAll(After(vars, body[0]), vals1, body[1..], result, fuel)
      case other => other
  }
}
