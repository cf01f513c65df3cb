/** Emitted expressions compute what they mean, in whatever slots their variables live. */
module Compiled {
  import opened Options
  import opened Slots
  import opened Words
  import opened Wasm
  import opened Cpp
  import opened Emission
  import opened Refinement

  // ----- the variables in scope and where they live -----

  // The open declarations, outermost first.
  function Opens(declared: seq<Entry>): seq<Entry> {
    if declared == [] then []
    else
      var d := declared[|declared| - 1];
      Opens(declared[..|declared| - 1]) + (if d.closed then [] else [d])
  }

  function VarsOf(declared: seq<Entry>): (vars: seq<Variable>)
    ensures |vars| == |Opens(declared)|
    ensures forall k | 0 <= k < |vars| :: vars[k] == Variable(Opens(declared)[k].name, Opens(declared)[k].local.wtype)
  {
    if declared == [] then []
    else
      var d := declared[|declared| - 1];
      VarsOf(declared[..|declared| - 1]) + (if d.closed then [] else [Variable(d.name, d.local.wtype)])
  }

  // The value is in its slot.
  predicate Holds(locals: seq<Val>, l: Local, v: int) {
    InRange(l.wtype, v) && l.index < |locals| && locals[l.index] == Val(KindOf(l.wtype), Enc(l.wtype, v))
  }

  /** Every variable in scope has its value in its slot. */
  ghost predicate Agrees(declared: seq<Entry>, vals: seq<int>, locals: seq<Val>) {
    |vals| == |Opens(declared)| && forall k | 0 <= k < |vals| :: Holds(locals, Opens(declared)[k].local, vals[k])
  }

  ghost predicate Apart(declared: seq<Entry>) {
    forall i, j | 0 <= i < j < |Opens(declared)| :: Opens(declared)[i].local.index != Opens(declared)[j].local.index
  }

  /** The binding the compiler looks up is the variable the program means. */
  lemma {:induction false} LookupIsFind(declared: seq<Entry>, name: string)
    ensures Lookup(declared, name).Some? <==> Find(VarsOf(declared), name).Some?
    ensures Lookup(declared, name).Some? ==> Opens(declared)[Find(VarsOf(declared), name).value].local == Lookup(declared, name).value
  {
    if declared != [] {
      var init, d := declared[..|declared| - 1], declared[|declared| - 1];
      LookupIsFind(init, name);
      var vars, opens := VarsOf(init), Opens(init);
      if d.closed {
        assert VarsOf(declared) == vars && Opens(declared) == opens;
      } else {
        var v := Variable(d.name, d.local.wtype);
        assert VarsOf(declared) == vars + [v] && Opens(declared) == opens + [d];
        FindPushed(vars, v, name);
      }
    }
  }

  lemma FindPushed(vars: seq<Variable>, v: Variable, name: string)
    ensures Find(vars + [v], name) == if v.name == name then Some(|vars|) else Find(vars, name)
  {
    assert (vars + [v])[..|vars|] == vars;
  }

  lemma {:induction false} TypeAgrees(declared: seq<Entry>, e: Expr)
    ensures EmitExpr(declared, e).Some? <==> TypeOf(VarsOf(declared), e).Some?
    ensures EmitExpr(declared, e).Some? && ShiftsFit(VarsOf(declared), e) ==> EmitExpr(declared, e).value.t == TypeOf(VarsOf(declared), e).value
  {
    match e
    case Lit(_) =>
    case Var(x) => LookupIsFind(declared, x);
    case Bin(_, x, y) =>
      TypeAgrees(declared, x);
      TypeAgrees(declared, y);
    case Neg(x) => TypeAgrees(declared, x);
    case Not(x) => TypeAgrees(declared, x);
    case Assign(x, v) =>
      LookupIsFind(declared, x);
      TypeAgrees(declared, v);
    case Cond(c, y, n) =>
      TypeAgrees(declared, c);
      TypeAgrees(declared, y);
      TypeAgrees(declared, n);
  }

  // ----- what a piece of code leaves on the operand stack -----

  /** On any operand stack the code pushes the pattern of `v` as a `t`, taking the locals from `l` to `l'`. */
  ghost predicate Pushes(code: seq<Instr>, l: seq<Val>, l': seq<Val>, t: Scalar, v: int, fuel: nat) {
    forall st: seq<Val> {:trigger Exec(code, l, st, fuel)} :: Exec(code, l, st, fuel) == Next(l', st + [Val(KindOf(t), Enc(t, v))])
  }

  lemma PushesThen(a: seq<Instr>, b: seq<Instr>, l: seq<Val>, l1: seq<Val>, t: Scalar, v: int, st: seq<Val>, fuel: nat)
    requires Pushes(a, l, l1, t, v, fuel)
    ensures Exec(a + b, l, st, fuel) == Exec(b, l1, st + [Val(KindOf(t), Enc(t, v))], fuel)
  {
    hide Exec;
    ExecAppend(a, b, l, st, fuel);
  }

  lemma PushConst(t: Scalar, v: int, l: seq<Val>, fuel: nat)
    ensures Pushes([Const(Val(KindOf(t), Enc(t, v)))], l, l, t, v, fuel)
  {
    hide Exec, Enc;
    var ins := Const(Val(KindOf(t), Enc(t, v)));
    forall st: seq<Val> ensures Exec([ins], l, st, fuel) == Next(l, st + [Val(KindOf(t), Enc(t, v))]) {
      ExecSingle(ins, l, st, fuel);
    }
  }

  lemma PushLocal(i: nat, t: Scalar, v: int, l: seq<Val>, fuel: nat)
    requires i < |l| && l[i] == Val(KindOf(t), Enc(t, v))
    ensures Pushes([LocalGet(i)], l, l, t, v, fuel)
  {
    hide Exec, Enc;
    forall st: seq<Val> ensures Exec([LocalGet(i)], l, st, fuel) == Next(l, st + [Val(KindOf(t), Enc(t, v))]) {
      ExecSingle(LocalGet(i), l, st, fuel);
    }
  }

  lemma PushConverted(code: seq<Instr>, l: seq<Val>, l': seq<Val>, got: Scalar, want: Scalar, v: int, fuel: nat)
    requires Pushes(code, l, l', got, v, fuel) && InRange(got, v)
    ensures Pushes(code + Convert(got, want), l, l', want, Wrap(want, v), fuel)
  {
    hide Pushes, Exec, InRange, Convert;
    forall st: seq<Val> ensures Exec(code + Convert(got, want), l, st, fuel) == Next(l', st + [Val(KindOf(want), Enc(want, Wrap(want, v)))]) {
      PushesThen(code, Convert(got, want), l, l', got, v, st, fuel);
      ConvertRefines(got, want, v, l', st, fuel);
      PatternOfWrap(want, v);
    }
    PushesIntro(code + Convert(got, want), l, l', want, Wrap(want, v), fuel);
  }

  lemma PushesIntro(code: seq<Instr>, l: seq<Val>, l': seq<Val>, t: Scalar, v: int, fuel: nat)
    requires forall st: seq<Val> {:trigger Exec(code, l, st, fuel)} :: Exec(code, l, st, fuel) == Next(l', st + [Val(KindOf(t), Enc(t, v))])
    ensures Pushes(code, l, l', t, v, fuel)
  {
  }

  lemma TwoOnTop(st: seq<Val>, x: Val, y: Val)
    ensures var s := st + [x] + [y]; TopVal(s) == y && Pop(s) == st + [x] && TopVal(Pop(s)) == x && Pop(Pop(s)) == st
  {
  }

  lemma OneOnTop(st: seq<Val>, x: Val)
    ensures TopVal(st + [x]) == x && Pop(st + [x]) == st && st + [x] != []
  {
  }

  lemma PushBinary(a: seq<Instr>, b: seq<Instr>, op: BinOp, t: Scalar, x: int, y: int, l: seq<Val>, l1: seq<Val>, l2: seq<Val>, fuel: nat)
    requires Pushes(a, l, l1, t, x, fuel) && Pushes(b, l1, l2, t, y, fuel)
    requires InRange(t, x) && InRange(t, y) && Operate(op, t, x, y).Some?
    ensures Pushes(a + b + [Binary(KindOf(t), IntInstr(op, t))], l, l2, ResultType(op, t), Operate(op, t, x, y).value, fuel)
    ensures InRange(ResultType(op, t), Operate(op, t, x, y).value)
  {
    hide Pushes, Exec, InRange, Operate, Compute, Enc, IntInstr;
    var ins := Binary(KindOf(t), IntInstr(op, t));
    var r, v := ResultType(op, t), Operate(op, t, x, y).value;
    OperatorRefines(op, t, x, y);
    forall st: seq<Val> ensures Exec(a + b + [ins], l, st, fuel) == Next(l2, st + [Val(KindOf(r), Enc(r, v))]) {
      var p, q := Val(KindOf(t), Enc(t, x)), Val(KindOf(t), Enc(t, y));
      assert a + b + [ins] == a + (b + [ins]);
      PushesThen(a, b + [ins], l, l1, t, x, st, fuel);
      PushesThen(b, [ins], l1, l2, t, y, st + [p], fuel);
      ExecSingle(ins, l2, st + [p] + [q], fuel);
      TwoOnTop(st, p, q);
    }
    PushesIntro(a + b + [ins], l, l2, r, v, fuel);
  }

  // ----- truth -----

  lemma PushZeroTest(code: seq<Instr>, l: seq<Val>, l': seq<Val>, t: Scalar, v: int, fuel: nat)
    requires Pushes(code, l, l', t, v, fuel) && InRange(t, v)
    ensures Pushes(code + [Eqz(KindOf(t))], l, l', I32, Bool(v == 0), fuel)
  {
    hide Pushes, Exec, InRange, Enc;
    EncZero(t, v);
    BoolEnc(v == 0);
    forall st: seq<Val> ensures Exec(code + [Eqz(KindOf(t))], l, st, fuel) == Next(l', st + [Val(KindOf(I32), Enc(I32, Bool(v == 0)))]) {
      PushesThen(code, [Eqz(KindOf(t))], l, l', t, v, st, fuel);
      ExecSingle(Eqz(KindOf(t)), l', st + [Val(KindOf(t), Enc(t, v))], fuel);
      OneOnTop(st, Val(KindOf(t), Enc(t, v)));
    }
    PushesIntro(code + [Eqz(KindOf(t))], l, l', I32, Bool(v == 0), fuel);
  }

  // What `Truthy` leaves is an `i32` that is zero just when the value is.
  lemma PushTruth(c: Code, l: seq<Val>, l': seq<Val>, v: int, fuel: nat) returns (t: Scalar, w: int)
    requires Pushes(c.code, l, l', c.t, v, fuel) && InRange(c.t, v)
    ensures Pushes(Truthy(c), l, l', t, w, fuel) && InRange(t, w) && KindOf(t) == K32 && (w == 0 <==> v == 0)
  {
    hide Pushes, InRange;
    if KindOf(c.t) == K64 {
      PushZeroTest(c.code, l, l', c.t, v, fuel);
      BoolEnc(v == 0);
      PushZeroTest(c.code + [Eqz(K64)], l, l', I32, Bool(v == 0), fuel);
      assert c.code + [Eqz(K64)] + [Eqz(K32)] == Truthy(c);
      BoolEnc(Bool(v == 0) == 0);
      t, w := I32, Bool(Bool(v == 0) == 0);
    } else {
      assert c.code + [] == c.code;
      t, w := c.t, v;
    }
  }

  lemma EncTruth(t: Scalar, w: int)
    requires InRange(t, w) && KindOf(t) == K32
    ensures Enc(t, w) != 0 <==> w != 0
  {
    EncZero(t, w);
  }

  lemma PushChoice(test: seq<Instr>, a: seq<Instr>, b: seq<Instr>, l: seq<Val>, l1: seq<Val>, l2: seq<Val>, tt: Scalar, w: int, t: Scalar, v: int, fuel: nat)
    requires Pushes(test, l, l1, tt, w, fuel) && InRange(tt, w) && KindOf(tt) == K32
    requires Pushes(if w != 0 then a else b, l1, l2, t, v, fuel)
    ensures Pushes(test + [If(Some(KindOf(t)), a, true, b)], l, l2, t, v, fuel)
  {
    hide Pushes, Exec, InRange, Enc;
    var ins := If(Some(KindOf(t)), a, true, b);
    EncTruth(tt, w);
    forall st: seq<Val> ensures Exec(test + [ins], l, st, fuel) == Next(l2, st + [Val(KindOf(t), Enc(t, v))]) {
      var c, r := Val(K32, Enc(tt, w)), Val(KindOf(t), Enc(t, v));
      PushesThen(test, [ins], l, l1, tt, w, st, fuel);
      ExecSingle(ins, l1, st + [c], fuel);
      OneOnTop(st, c);
      PushesOn(if w != 0 then a else b, l1, l2, t, v, fuel);
      assert [] + [r] == [r];
    }
    PushesIntro(test + [ins], l, l2, t, v, fuel);
  }

  lemma PushesOn(code: seq<Instr>, l: seq<Val>, l': seq<Val>, t: Scalar, v: int, fuel: nat)
    requires Pushes(code, l, l', t, v, fuel)
    ensures Exec(code, l, [], fuel) == Next(l', [] + [Val(KindOf(t), Enc(t, v))])
  {
    hide Exec;
  }

  // ----- assignment -----

  lemma PushAssigned(code: seq<Instr>, l: seq<Val>, l': seq<Val>, t: Scalar, v: int, i: nat, fuel: nat)
    requires Pushes(code, l, l', t, v, fuel) && i < |l'|
    ensures Pushes(code + [LocalTee(i)], l, l'[i := Val(KindOf(t), Enc(t, v))], t, v, fuel)
  {
    hide Pushes, Exec, Enc;
    var x := Val(KindOf(t), Enc(t, v));
    forall st: seq<Val> ensures Exec(code + [LocalTee(i)], l, st, fuel) == Next(l'[i := x], st + [x]) {
      PushesThen(code, [LocalTee(i)], l, l', t, v, st, fuel);
      ExecSingle(LocalTee(i), l', st + [x], fuel);
      OneOnTop(st, x);
    }
    PushesIntro(code + [LocalTee(i)], l, l'[i := x], t, v, fuel);
  }

  // Writing one variable's slot leaves the others alone.
  lemma AgreesAssigned(declared: seq<Entry>, vals: seq<int>, locals: seq<Val>, k: nat, v: int)
    requires Agrees(declared, vals, locals) && Apart(declared) && k < |vals|
    requires InRange(Opens(declared)[k].local.wtype, v)
    ensures var l := Opens(declared)[k].local;
            Agrees(declared, vals[k := v], locals[l.index := Val(KindOf(l.wtype), Enc(l.wtype, v))])
  {
    hide Enc, InRange, Opens;
  }

  // ----- expressions -----

  ghost predicate Ready(declared: seq<Entry>, vals: seq<int>, l: seq<Val>) {
    Agrees(declared, vals, l) && Apart(declared)
  }

  /** Running the code of an expression pushes its value, and leaves every variable's value in its slot. */
  lemma {:induction false} ExprCorrect(declared: seq<Entry>, vals: seq<int>, e: Expr, c: Code, l: seq<Val>, fuel: nat) returns (l': seq<Val>)
    requires Ready(declared, vals, l) && EmitExpr(declared, e) == Some(c) && |vals| == |VarsOf(declared)|
    requires TypeOf(VarsOf(declared), e).Some? && Eval(VarsOf(declared), vals, e).Evaluated? && ShiftsFit(VarsOf(declared), e)
    ensures var r := Eval(VarsOf(declared), vals, e);
            && Pushes(c.code, l, l', c.t, r.v, fuel) && InRange(c.t, r.v) && c.t == TypeOf(VarsOf(declared), e).value
            && Ready(declared, r.vals, l') && |l'| == |l|
    decreases e
  {
    hide Ready, Pushes, InRange, Convert, Opens, VarsOf;
    TypeAgrees(declared, e);
    match e
    case Lit(v) =>
      LiteralRange(v);
      PushConst(I32, v, l, fuel);
      l' := l;
    case Var(x) => l' := VarCorrect(declared, vals, x, l, fuel);
    case Bin(op, x, y) => l' := BinCorrect(declared, vals, op, x, y, e, c, l, fuel);
    case Neg(x) => l' := NegCorrect(declared, vals, x, e, c, l, fuel);
    case Not(x) =>
      var a := EmitExpr(declared, x).value;
      TypeAgrees(declared, x);
      l' := ExprCorrect(declared, vals, x, a, l, fuel);
      var v := Eval(VarsOf(declared), vals, x).v;
      var t, w := PushTruth(a, l, l', v, fuel);
      PushZeroTest(Truthy(a), l, l', t, w, fuel);
      BoolEnc(v == 0);
    case Assign(x, v) => l' := AssignCorrect(declared, vals, x, v, e, c, l, fuel);
    case Cond(_, _, _) => l' := CondCorrect(declared, vals, e, c, l, fuel);
  }

  lemma LiteralRange(v: IntLiteral)
    ensures InRange(I32, v)
  {
  }

  lemma WrapInRange(t: Scalar, v: int)
    ensures InRange(t, Wrap(t, v))
  {
  }

  lemma {:induction false} VarCorrect(declared: seq<Entry>, vals: seq<int>, x: string, l: seq<Val>, fuel: nat) returns (l': seq<Val>)
    requires Ready(declared, vals, l) && Lookup(declared, x).Some?
    ensures Find(VarsOf(declared), x).Some? && |vals| == |VarsOf(declared)|
    ensures var loc, v := Lookup(declared, x).value, vals[Find(VarsOf(declared), x).value];
            && Pushes([LocalGet(loc.index)], l, l', loc.wtype, v, fuel) && InRange(loc.wtype, v)
            && l' == l
  {
    hide Pushes, InRange, Enc, Opens, VarsOf, Lookup, Find;
    LookupIsFind(declared, x);
    var k := Find(VarsOf(declared), x).value;
    var loc := Opens(declared)[k].local;
    assert Holds(l, loc, vals[k]);
    PushLocal(loc.index, loc.wtype, vals[k], l, fuel);
    l' := l;
  }

  // Bringing a count into the type of the left operand does not change it, if it is less than the width.
  lemma CountKept(op: BinOp, t: Scalar, a: int, b: int)
    requires Shifts(op) && Operate(op, t, a, b).Some?
    ensures Wrap(t, b) == b
  {
    hide Wrap, Pow2;
    ValueOfPattern(t, b);
  }

  lemma {:induction false} BinCorrect(declared: seq<Entry>, vals: seq<int>, op: BinOp, x: Expr, y: Expr, e: Expr, c: Code, l: seq<Val>, fuel: nat)
      returns (l': seq<Val>)
    requires e == Bin(op, x, y) && Ready(declared, vals, l) && EmitExpr(declared, e) == Some(c) && |vals| == |VarsOf(declared)|
    requires TypeOf(VarsOf(declared), e).Some? && Eval(VarsOf(declared), vals, e).Evaluated? && ShiftsFit(VarsOf(declared), e)
    ensures var r := Eval(VarsOf(declared), vals, e);
            && Pushes(c.code, l, l', c.t, r.v, fuel) && InRange(c.t, r.v) && c.t == TypeOf(VarsOf(declared), e).value
            && Ready(declared, r.vals, l') && |l'| == |l|
    decreases e, 0
  {
    hide Ready, Pushes, InRange, Convert, Opens, VarsOf, Operate;
    var vars := VarsOf(declared);
    TypeAgrees(declared, x);
    TypeAgrees(declared, y);
    var a, b := EmitExpr(declared, x).value, EmitExpr(declared, y).value;
    var t := Common(a.t, b.t);
    var l1 := ExprCorrect(declared, vals, x, a, l, fuel);
    var r1 := Eval(vars, vals, x);
    PushConverted(a.code, l, l1, a.t, t, r1.v, fuel);
    l' := ExprCorrect(declared, r1.vals, y, b, l1, fuel);
    var r2 := Eval(vars, r1.vals, y);
    PushConverted(b.code, l1, l', b.t, t, r2.v, fuel);
    WrapInRange(t, r1.v);
    WrapInRange(t, r2.v);
    if Shifts(op) { CountKept(op, t, Wrap(t, r1.v), r2.v); }
    PushBinary(a.code + Convert(a.t, t), b.code + Convert(b.t, t), op, t, Wrap(t, r1.v), Wrap(t, r2.v), l, l1, l', fuel);
  }

  lemma {:induction false} NegCorrect(declared: seq<Entry>, vals: seq<int>, x: Expr, e: Expr, c: Code, l: seq<Val>, fuel: nat) returns (l': seq<Val>)
    requires e == Neg(x) && Ready(declared, vals, l) && EmitExpr(declared, e) == Some(c) && |vals| == |VarsOf(declared)|
    requires TypeOf(VarsOf(declared), e).Some? && Eval(VarsOf(declared), vals, e).Evaluated? && ShiftsFit(VarsOf(declared), e)
    ensures var r := Eval(VarsOf(declared), vals, e);
            && Pushes(c.code, l, l', c.t, r.v, fuel) && InRange(c.t, r.v) && c.t == TypeOf(VarsOf(declared), e).value
            && Ready(declared, r.vals, l') && |l'| == |l|
    decreases e, 0
  {
    hide Ready, Pushes, InRange, Convert, Opens, VarsOf, Wrap;
    TypeAgrees(declared, x);
    var a := EmitExpr(declared, x).value;
    var t := Common(a.t, I32);
    l' := ExprCorrect(declared, vals, x, a, l, fuel);
    var v := Eval(VarsOf(declared), vals, x).v;
    ZeroInRange(t);
    PushConst(t, 0, l, fuel);
    PushConverted(a.code, l, l', a.t, t, v, fuel);
    WrapInRange(t, v);
    PushBinary([Const(Val(KindOf(t), 0))], a.code + Convert(a.t, t), Minus, t, 0, Wrap(t, v), l, l, l', fuel);
    assert 0 - Wrap(t, v) == -Wrap(t, v);
  }

  lemma ZeroInRange(t: Scalar)
    ensures InRange(t, 0) && Enc(t, 0) == 0
  {
  }

  lemma {:induction false} AssignCorrect(declared: seq<Entry>, vals: seq<int>, x: string, v: Expr, e: Expr, c: Code, l: seq<Val>, fuel: nat)
      returns (l': seq<Val>)
    requires e == Assign(x, v) && Ready(declared, vals, l) && EmitExpr(declared, e) == Some(c) && |vals| == |VarsOf(declared)|
    requires TypeOf(VarsOf(declared), e).Some? && Eval(VarsOf(declared), vals, e).Evaluated? && ShiftsFit(VarsOf(declared), e)
    ensures var r := Eval(VarsOf(declared), vals, e);
            && Pushes(c.code, l, l', c.t, r.v, fuel) && InRange(c.t, r.v) && c.t == TypeOf(VarsOf(declared), e).value
            && Ready(declared, r.vals, l') && |l'| == |l|
    decreases e, 0
  {
    hide Ready, Pushes, InRange, Convert, Opens, VarsOf, Wrap, Enc;
    TypeAgrees(declared, v);
    LookupIsFind(declared, x);
    var a := EmitExpr(declared, v).value;
    var l1 := ExprCorrect(declared, vals, v, a, l, fuel);
    var r := Eval(VarsOf(declared), vals, v);
    var k := Find(VarsOf(declared), x).value;
    var loc := Opens(declared)[k].local;
    var w := Wrap(loc.wtype, r.v);
    PushConverted(a.code, l, l1, a.t, loc.wtype, r.v, fuel);
    WrapInRange(loc.wtype, r.v);
    SlotThere(declared, r.vals, l1, k);
    PushAssigned(a.code + Convert(a.t, loc.wtype), l, l1, loc.wtype, w, loc.index, fuel);
    l' := l1[loc.index := Val(KindOf(loc.wtype), Enc(loc.wtype, w))];
    ReadyAssigned(declared, r.vals, l1, k, w);
  }

  lemma SlotThere(declared: seq<Entry>, vals: seq<int>, l: seq<Val>, k: nat)
    requires Ready(declared, vals, l) && k < |Opens(declared)|
    ensures Opens(declared)[k].local.index < |l| && |vals| == |Opens(declared)|
  {
    hide Opens, InRange, Enc;
    assert Holds(l, Opens(declared)[k].local, vals[k]);
  }

  lemma ReadyAssigned(declared: seq<Entry>, vals: seq<int>, l: seq<Val>, k: nat, v: int)
    requires Ready(declared, vals, l) && k < |vals| == |Opens(declared)| && InRange(Opens(declared)[k].local.wtype, v)
    requires Opens(declared)[k].local.index < |l|
    ensures var loc := Opens(declared)[k].local;
            Ready(declared, vals[k := v], l[loc.index := Val(KindOf(loc.wtype), Enc(loc.wtype, v))])
  {
    hide Opens, InRange, Enc;
    AgreesAssigned(declared, vals, l, k, v);
  }

  lemma {:induction false} CondCorrect(declared: seq<Entry>, vals: seq<int>, e: Expr, c: Code, l: seq<Val>, fuel: nat) returns (l': seq<Val>)
    requires e.Cond? && Ready(declared, vals, l) && EmitExpr(declared, e) == Some(c) && |vals| == |VarsOf(declared)|
    requires TypeOf(VarsOf(declared), e).Some? && Eval(VarsOf(declared), vals, e).Evaluated? && ShiftsFit(VarsOf(declared), e)
    ensures var r := Eval(VarsOf(declared), vals, e);
            && Pushes(c.code, l, l', c.t, r.v, fuel) && InRange(c.t, r.v) && c.t == TypeOf(VarsOf(declared), e).value
            && Ready(declared, r.vals, l') && |l'| == |l|
    decreases e, 0
  {
    hide Ready, Pushes, InRange, Convert, Opens, VarsOf, Wrap, Truthy;
    TypeAgrees(declared, e.test);
    TypeAgrees(declared, e.yes);
    TypeAgrees(declared, e.no);
    var test, a, b := EmitExpr(declared, e.test).value, EmitExpr(declared, e.yes).value, EmitExpr(declared, e.no).value;
    var t := Common(a.t, b.t);
    var l1 := ExprCorrect(declared, vals, e.test, test, l, fuel);
    var r1 := Eval(VarsOf(declared), vals, e.test);
    var tt, w := PushTruth(test, l, l1, r1.v, fuel);
    var arm, code := if r1.v != 0 then e.yes else e.no, if r1.v != 0 then a else b;
    l' := ExprCorrect(declared, r1.vals, arm, code, l1, fuel);
    var r2 := Eval(VarsOf(declared), r1.vals, arm);
    PushConverted(code.code, l1, l', code.t, t, r2.v, fuel);
    WrapInRange(t, r2.v);
    PushChoice(Truthy(test), a.code + Convert(a.t, t), b.code + Convert(b.t, t), l, l1, l', tt, w, t, Wrap(t, r2.v), fuel);
  }
}
