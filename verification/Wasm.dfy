/** The wasm the back end emits: values, instructions and their execution (sections 4.3.2 and 4.4 of the
    WebAssembly Core Specification 1.0). */
module Wasm {
  import opened Options
  import opened Slots
  import opened Words

  datatype Val = Val(k: Kind, x: nat)

  datatype IntOp =
    | Add | Sub | Mul | DivS | DivU | RemS | RemU | And | Or | Xor | Shl | ShrS | ShrU
    | Eq | Ne | LtS | LtU | GtS | GtU | LeS | LeU | GeS | GeU

  datatype Instr =
    | Const(v: Val)
    | LocalGet(i: nat) | LocalSet(i: nat) | LocalTee(i: nat)
    | Binary(k: Kind, op: IntOp) | Eqz(k: Kind)
    | WrapI64 | ExtendS | ExtendU
    | Drop | Return | Br(n: nat) | BrIf(n: nat)
    | If(result: Option<Kind>, yes: seq<Instr>, hasElse: bool, no: seq<Instr>)
    | Block(body: seq<Instr>)
    | Loop(body: seq<Instr>)
    | Unreachable

  // ----- integer operations -----

  function SignedOf(k: Kind, x: int): int {
    ValueOf(if k == K32 then I32 else I64, x)
  }

  function Truth(b: bool): nat {
    if b then 1 else 0
  }

  predicate IsComparison(op: IntOp) {
    op.Eq? || op.Ne? || op.LtS? || op.LtU? || op.GtS? || op.GtU? || op.LeS? || op.LeU? || op.GeS? || op.GeU?
  }

  /** The result pattern; `None` is a trap. */
  function Compute(k: Kind, op: IntOp, x: nat, y: nat): Option<nat> {
    match op
    case Add => Some(PatternOf(k, x + y))
    case Sub => Some(PatternOf(k, x - y))
    case Mul => Some(PatternOf(k, x * y))
    case DivU => if y == 0 then None else Some(x / y)
    case RemU => if y == 0 then None else Some(x % y)
    case DivS =>
      if y == 0 || (SignedOf(k, x) == -(Size(k) / 2) && SignedOf(k, y) == -1) then None
      else if SignedOf(k, y) == 0 then None else Some(PatternOf(k, Quotient(SignedOf(k, x), SignedOf(k, y))))
    case RemS => if SignedOf(k, y) == 0 then None else Some(PatternOf(k, Remainder(SignedOf(k, x), SignedOf(k, y))))
    case And => Some(Bitwise(BitAnd, Bits(k), x, y))
    case Or => Some(Bitwise(BitOr, Bits(k), x, y))
    case Xor => Some(Bitwise(BitXor, Bits(k), x, y))
    case Shl => Some(PatternOf(k, x * Pow2(y % Bits(k))))
    case ShrU => Some(x / Pow2(y % Bits(k)))
    case ShrS => Some(PatternOf(k, SignedOf(k, x) / Pow2(y % Bits(k))))
    case Eq => Some(Truth(x == y))
    case Ne => Some(Truth(x != y))
    case LtS => Some(Truth(SignedOf(k, x) < SignedOf(k, y)))
    case LtU => Some(Truth(x < y))
    case GtS => Some(Truth(SignedOf(k, x) > SignedOf(k, y)))
    case GtU => Some(Truth(x > y))
    case LeS => Some(Truth(SignedOf(k, x) <= SignedOf(k, y)))
    case LeU => Some(Truth(x <= y))
    case GeS => Some(Truth(SignedOf(k, x) >= SignedOf(k, y)))
    case GeU => Some(Truth(x >= y))
  }

  // ----- execution -----

  /** How a piece of code ends: falling through, branching to the label `n` levels out, returning, trapping,
      with the loop fuel spent, or in a way validation would have ruled out. */
  datatype Outcome =
    | Next(locals: seq<Val>, stack: seq<Val>)
    | Branch(n: nat, locals: seq<Val>)
    | Returned(locals: seq<Val>, value: Option<Val>)
    | Trap | Spent | Stuck

  function Pop(stack: seq<Val>): seq<Val>
    requires stack != []
  {
    stack[..|stack| - 1]
  }

  function TopVal(stack: seq<Val>): Val
    requires stack != []
  {
    stack[|stack| - 1]
  }

  predicate TopIs(stack: seq<Val>, k: Kind) {
    stack != [] && TopVal(stack).k == k
  }

  // An instruction that neither branches nor contains others.
  function Step(ins: Instr, locals: seq<Val>, stack: seq<Val>): Outcome
    requires !ins.If? && !ins.Block? && !ins.Loop?
  {
    match ins
    case Const(v) => Next(locals, stack + [v])
    case LocalGet(i) => if i < |locals| then Next(locals, stack + [locals[i]]) else Stuck
    case LocalSet(i) => if i < |locals| && stack != [] then Next(locals[i := TopVal(stack)], Pop(stack)) else Stuck
    case LocalTee(i) => if i < |locals| && stack != [] then Next(locals[i := TopVal(stack)], stack) else Stuck
    case Binary(k, op) =>
      if !TopIs(stack, k) || !TopIs(Pop(stack), k) then Stuck
      else (match Compute(k, op, TopVal(Pop(stack)).x, TopVal(stack).x)
            case None => Trap
            case Some(z) => Next(locals, Pop(Pop(stack)) + [Val(if IsComparison(op) then K32 else k, z)]))
    case Eqz(k) => if TopIs(stack, k) then Next(locals, Pop(stack) + [Val(K32, Truth(TopVal(stack).x == 0))]) else Stuck
    case WrapI64 => if TopIs(stack, K64) then Next(locals, Pop(stack) + [Val(K32, PatternOf(K32, TopVal(stack).x))]) else Stuck
    case ExtendS => if TopIs(stack, K32) then Next(locals, Pop(stack) + [Val(K64, PatternOf(K64, SignedOf(K32, TopVal(stack).x)))]) else Stuck
    case ExtendU => if TopIs(stack, K32) then Next(locals, Pop(stack) + [Val(K64, TopVal(stack).x)]) else Stuck
    case Drop => if stack != [] then Next(locals, Pop(stack)) else Stuck
    case Return => Returned(locals, if stack == [] then None else Some(TopVal(stack)))
    case Br(n) => Branch(n, locals)
    case BrIf(n) =>
      if !TopIs(stack, K32) then Stuck
      else if TopVal(stack).x != 0 then Branch(n, locals) else Next(locals, Pop(stack))
    case Unreachable => Trap
  }

  /** Leaving a block: its results go on the operand stack around it, and a branch to its label ends there. */
  function Leave(inner: Outcome, stack: seq<Val>, result: Option<Kind>): Outcome {
    match inner
    case Next(l, s) =>
      if result.None? then (if s == [] then Next(l, stack) else Stuck)
      else if |s| == 1 && s[0].k == result.value then Next(l, stack + s) else Stuck
    case Branch(n, l) => if n > 0 then Branch(n - 1, l) else if result.None? then Next(l, stack) else Stuck
    case _ => inner
  }

  function Exec(code: seq<Instr>, locals: seq<Val>, stack: seq<Val>, fuel: nat): Outcome
    decreases fuel, code, 1
  {
    if code == [] then Next(locals, stack)
    else
      match ExecOne(code[0], locals, stack, fuel)
      case Next(l, s) => Exec(code[1..], l, s, fuel)
      case other => other
  }

  function ExecOne(ins: Instr, locals: seq<Val>, stack: seq<Val>, fuel: nat): Outcome
    decreases fuel, ins, 0
  {
    match ins
    case If(result, yes, hasElse, no) =>
      if !TopIs(stack, K32) then Stuck
      else if TopVal(stack).x != 0 then Leave(Exec(yes, locals, [], fuel), Pop(stack), result)
      else if hasElse then Leave(Exec(no, locals, [], fuel), Pop(stack), result)
      else if result.None? then Next(locals, Pop(stack)) else Stuck
    case Block(body) => Leave(Exec(body, locals, [], fuel), stack, None)
    case Loop(body) => Leave(ExecLoop(body, locals, fuel), stack, None)
    case _ => Step(ins, locals, stack)
  }

  // A branch to a loop's own label starts it again; each round uses up fuel.
  function ExecLoop(body: seq<Instr>, locals: seq<Val>, fuel: nat): Outcome
    decreases fuel, body, 2
  {
    if fuel == 0 then Spent
    else
      match Exec(body, locals, [], fuel - 1)
      case Branch(n, l) => if n == 0 then ExecLoop(body, l, fuel - 1) else Branch(n, l)
      case other => other
  }

  lemma {:induction false} ExecAppend(a: seq<Instr>, b: seq<Instr>, locals: seq<Val>, stack: seq<Val>, fuel: nat)
    ensures Exec(a + b, locals, stack, fuel) ==
            match Exec(a, locals, stack, fuel)
            case Next(l, s) => Exec(b, l, s, fuel)
            case other => other
    decreases |a|
  {
    hide ExecOne;
    if a == [] {
      assert a + b == b;
    } else {
      assert (a + b)[0] == a[0] && (a + b)[1..] == a[1..] + b;
      match ExecOne(a[0], locals, stack, fuel)
      case Next(l, s) => ExecAppend(a[1..], b, l, s, fuel);
      case _ =>
    }
  }

  lemma ExecSingle(ins: Instr, locals: seq<Val>, stack: seq<Val>, fuel: nat)
    ensures Exec([ins], locals, stack, fuel) == ExecOne(ins, locals, stack, fuel)
  {
    hide ExecOne;
    assert [ins][1..] == [];
  }
}
