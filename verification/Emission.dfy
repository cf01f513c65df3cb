/** What the back end emits for expressions and statements (src/examples/CPP/backend.ts:107-131, 185-357;
    src/examples/wasm-codegen.ts:376-393, 479-519). */
module Emission {
  import opened Options
  import opened Slots
  import opened Words
  import opened Wasm
  import opened Cpp

  // ----- expressions -----

  /** Bring a value of one type into another. The sign that counts when widening is that of the source. */
  function Convert(got: Scalar, want: Scalar): seq<Instr> {
    var g, w := KindOf(got), KindOf(want);
    if g == w then []
    else if g == K64 then [WrapI64]
    else if Signed(got) then [ExtendS] else [ExtendU]
  }

  function IntInstr(op: BinOp, t: Scalar): IntOp {
    match op
    case Plus => Add
    case Minus => Sub
    case Times => Mul
    case Divide => if Signed(t) then DivS else DivU
    case Modulo => if Signed(t) then RemS else RemU
    case AndBits => And
    case OrBits => Or
    case XorBits => Xor
    case ShiftLeft => Shl
    case ShiftRight => if Signed(t) then ShrS else ShrU
    case Equal => Eq
    case NotEqual => Ne
    case Less => if Signed(t) then LtS else LtU
    case Greater => if Signed(t) then GtS else GtU
    case LessEqual => if Signed(t) then LeS else LeU
    case GreaterEqual => if Signed(t) then GeS else GeU
  }

  datatype Code = Code(code: seq<Instr>, t: Scalar)

  // Whether a value is zero, as an `i32`: a 64-bit one is tested first.
  function Truthy(c: Code): seq<Instr> {
    c.code + (if KindOf(c.t) == K64 then [Eqz(K64), Eqz(K32)] else [])
  }

  /** The code of an expression and its type; `None` where the original throws on an unknown name. */
  function EmitExpr(declared: seq<Entry>, e: Expr): Option<Code> {
    match e
    case Lit(v) => Some(Code([Const(Val(K32, PatternOf(K32, v)))], I32))
    case Var(x) =>
      (match Lookup(declared, x)
       case None => None
       case Some(l) => Some(Code([LocalGet(l.index)], l.wtype)))
    case Bin(op, x, y) =>
      (match EmitExpr(declared, x)
       case None => None
       case Some(a) =>
         match EmitExpr(declared, y)
         case None => None
         case Some(b) =>
           var t := Common(a.t, b.t);
           Some(Code(a.code + Convert(a.t, t) + (b.code + Convert(b.t, t)) + [Binary(KindOf(t), IntInstr(op, t))],
                     if Compares(op) then I32 else t)))
    case Neg(x) =>
      (match EmitExpr(declared, x)
       case None => None
       case Some(a) =>
         var t := Common(a.t, I32);
         Some(Code([Const(Val(KindOf(t), 0))] + (a.code + Convert(a.t, t)) + [Binary(KindOf(t), Sub)], t)))
    case Not(x) =>
      (match EmitExpr(declared, x)
       case None => None
       case Some(a) => Some(Code(Truthy(a) + [Eqz(K32)], I32)))
    case Assign(x, v) =>
      (match Lookup(declared, x)
       case None => None
       case Some(l) =>
         match EmitExpr(declared, v)
         case None => None
         case Some(a) => Some(Code(a.code + Convert(a.t, l.wtype) + [LocalTee(l.index)], l.wtype)))
    case Cond(c, y, n) =>
      (match EmitExpr(declared, c)
       case None => None
       case Some(test) =>
         match EmitExpr(declared, y)
         case None => None
         case Some(a) =>
           match EmitExpr(declared, n)
           case None => None
           case Some(b) =>
             var t := Common(a.t, b.t);
             Some(Code(Truthy(test) + [If(Some(KindOf(t)), a.code + Convert(a.t, t), true, b.code + Convert(b.t, t))], t)))
  }

  // ----- statements -----

  /** How deep in labels the code is, and the depths that `break` and `continue` branch to. */
  datatype Labels = Labels(depth: nat, breaks: seq<nat>, continues: seq<nat>)

  function Deeper(labels: Labels): Labels {
    labels.(depth := labels.depth + 1)
  }

  // Inside a `block` around a `loop`, both of which are branch targets.
  function InLoop(labels: Labels): Labels {
    Labels(labels.depth + 2, labels.breaks + [labels.depth + 1], labels.continues + [labels.depth + 2])
  }

  predicate LabelsOk(labels: Labels) {
    && (forall i | 0 <= i < |labels.breaks| :: 0 < labels.breaks[i] <= labels.depth)
    && (forall i | 0 <= i < |labels.continues| :: 0 < labels.continues[i] <= labels.depth)
  }

  function LastOf(s: seq<nat>): nat
    requires s != []
  {
    s[|s| - 1]
  }

  function ToBreak(labels: Labels): (n: nat)
    requires LabelsOk(labels) && labels.breaks != []
  {
    labels.depth - LastOf(labels.breaks)
  }

  function ToContinue(labels: Labels): (n: nat)
    requires LabelsOk(labels) && labels.continues != []
  {
    labels.depth - LastOf(labels.continues)
  }

  datatype Emitted = Emitted(code: seq<Instr>, scope: Scope)

  /** The code of a statement and the scope after it; `None` where the original throws: an unknown or
      redeclared name, or a `break` or `continue` outside of a loop. */
  function EmitStmt(sc: Scope, labels: Labels, s: Stmt, result: Scalar): (r: Option<Emitted>)
    requires LabelsOk(labels)
    ensures r.Some? ==> r.value.scope.marks == sc.marks && |sc.declared| <= |r.value.scope.declared|
    decreases s, 1
  {
    match s
    case Empty => Some(Emitted([], sc))
    case Compound(body) =>
      (match EmitAll(Open(sc), labels, body, result)
       case None => None
       case Some(c) => Some(Emitted(c.code, Close(c.scope))))
    case Declaration(x, t, hasInit, init) => EmitDeclaration(sc, s)
    case Expression(e) =>
      (match EmitExpr(sc.declared, e)
       case None => None
       case Some(c) => Some(Emitted(c.code + [Drop], sc)))
    case Conditional(c, y, hasElse, n) =>
      (match EmitExpr(sc.declared, c)
       case None => None
       case Some(test) =>
         match EmitStmt(sc, Deeper(labels), y, result)
         case None => None
         case Some(a) =>
           if !hasElse then Some(Emitted(Truthy(test) + [If(None, a.code, false, [])], a.scope))
           else
             match EmitStmt(a.scope, Deeper(labels), n, result)
             case None => None
             case Some(b) => Some(Emitted(Truthy(test) + [If(None, a.code, b.code != [], b.code)], b.scope)))
    case While(c, b) =>
      (match EmitExpr(sc.declared, c)
       case None => None
       case Some(test) =>
         match EmitStmt(sc, InLoop(labels), b, result)
         case None => None
         case Some(a) => Some(Emitted([Block([Loop(LoopBody(test, a.code))])], a.scope)))
    case Break => if labels.breaks == [] then None else Some(Emitted([Br(ToBreak(labels))], sc))
    case Continue => if labels.continues == [] then None else Some(Emitted([Br(ToContinue(labels))], sc))
    case Result(e) =>
      (match EmitExpr(sc.declared, e)
       case None => None
       case Some(c) => Some(Emitted(c.code + Convert(c.t, result) + [Return], sc)))
  }

  function LoopBody(test: Code, body: seq<Instr>): seq<Instr> {
    Truthy(test) + [Eqz(K32), BrIf(1)] + body + [Br(0)]
  }

  // Declared only after its initialiser is compiled, so that cannot see it.
  function EmitDeclaration(sc: Scope, s: Stmt): (r: Option<Emitted>)
    requires s.Declaration?
    ensures r.Some? ==> r.value.scope.marks == sc.marks && |r.value.scope.declared| == |sc.declared| + 1
  {
    var init := if s.hasInit then EmitExpr(sc.declared, s.init) else Some(Code([Const(Val(KindOf(s.t), 0))], s.t));
    match init
    case None => None
    case Some(c) =>
      match Declare(sc, s.name, s.t, false)
      case None => None
      case Some(sc') => Some(Emitted(c.code + Convert(c.t, s.t) + [LocalSet(Allocated(sc, s.t))], sc'))
  }

  function EmitAll(sc: Scope, labels: Labels, body: seq<Stmt>, result: Scalar): (r: Option<Emitted>)
    requires LabelsOk(labels)
    ensures r.Some? ==> r.value.scope.marks == sc.marks && |sc.declared| <= |r.value.scope.declared|
    decreases body, 0
  {
    if body == [] then Some(Emitted([], sc))
    else
      match EmitStmt(sc, labels, body[0], result)
      case None => None
      case Some(a) =>
        match EmitAll(a.scope, labels, body[1..], result)
        case None => None
        case Some(b) => Some(Emitted(a.code + b.code, b.scope))
  }
}
