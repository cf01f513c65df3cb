/** The function context and the emitter, as they append to the output and update scopes and labels in
    place (src/examples/wasm-codegen.ts:275-519; src/examples/CPP/backend.ts:107-357). */
module Backend {
  import opened Options
  import opened Slots
  import opened Words
  import opened Wasm
  import opened Cpp
  import opened Emission
  import opened Compiler

  class FunctionContext {
    var declared: seq<Entry>
    var scopeStack: seq<nat>
    var slotTypes: seq<Scalar>
    var freeSlots: map<Scalar, seq<nat>>
    var out: seq<Instr>
    var depth: nat
    var breakTargets: seq<nat>
    var continueTargets: seq<nat>

    ghost function ScopeNow(): Scope
      reads this
    {
      Scope(declared, scopeStack, slotTypes, freeSlots)
    }

    ghost function LabelsNow(): Labels
      reads this
    {
      Labels(depth, breakTargets, continueTargets)
    }

    constructor ()
      ensures ScopeNow() == EMPTY && LabelsNow() == Labels(0, [], []) && out == []
    {
      declared, scopeStack, slotTypes, freeSlots := [], [], [], map[];
      out, depth, breakTargets, continueTargets := [], 0, [], [];
    }

    // Scan from the innermost declaration, skipping closed ones.
    method Lookup(name: string) returns (found: Option<Local>)
      ensures found == Slots.Lookup(declared, name)
    {
      var i := |declared|;
      assert declared[..i] == declared;
      while i > 0
        invariant 0 <= i <= |declared| && Slots.Lookup(declared, name) == Slots.Lookup(declared[..i], name)
      {
        i := i - 1;
        assert declared[..i + 1][..i] == declared[..i];
        if !declared[i].closed && declared[i].name == name {
          return Some(declared[i].local);
        }
      }
      found := None;
    }

    method AllocLocal(t: Scalar) returns (index: nat)
      modifies this`freeSlots, this`slotTypes
      ensures index == Allocated(old(ScopeNow()), t) && ScopeNow() == Allocate(old(ScopeNow()), t)
    {
      if t in freeSlots && freeSlots[t] != [] {
        var free := freeSlots[t];
        index := free[|free| - 1];
        freeSlots := freeSlots[t := free[..|free| - 1]];
      } else {
        index := |slotTypes|;
        slotTypes := slotTypes + [t];
      }
    }

    method FreeLocal(t: Scalar, index: nat)
      modifies this`freeSlots
      ensures freeSlots == Freed(old(freeSlots), Local(t, index))
    {
      if t in freeSlots {
        freeSlots := freeSlots[t := freeSlots[t] + [index]];
      } else {
        freeSlots := freeSlots[t := [] + [index]];
      }
    }

    method OpenScope()
      modifies this`scopeStack
      ensures ScopeNow() == Open(old(ScopeNow()))
    {
      scopeStack := scopeStack + [|declared|];
    }

    /** Close the innermost scope: what was declared in it is no longer visible, and its slots are free. */
    method CloseScope()
      requires scopeStack != [] && scopeStack[|scopeStack| - 1] <= |declared|
      modifies this`scopeStack, this`declared, this`freeSlots
      ensures ScopeNow() == Close(old(ScopeNow()))
    {
      hide CloseUpTo;
      ghost var before := ScopeNow();
      CloseNone(before);
      var mark := scopeStack[|scopeStack| - 1];
      scopeStack := scopeStack[..|scopeStack| - 1];
      ghost var popped := scopeStack;
      var i := mark;
      while i < |declared|
        invariant mark <= i <= |declared| == |before.declared| && scopeStack == popped && slotTypes == before.slotTypes
        invariant declared == CloseUpTo(before, mark, i - mark).declared && freeSlots == CloseUpTo(before, mark, i - mark).free
      {
        var d := declared[i];
        CloseStep(before, mark, i - mark);
        if !d.closed && !d.pinned {
          declared := declared[i := d.(closed := true)];
          FreeLocal(d.local.wtype, d.local.index);
        }
        i := i + 1;
      }
    }

    // An open declaration of this name in the innermost scope is an error.
    method DeclareLocal(name: string, t: Scalar, pinned: bool) returns (local: Option<Local>)
      modifies this`declared, this`freeSlots, this`slotTypes
      ensures match Declare(old(ScopeNow()), name, t, pinned)
              case None => local.None? && ScopeNow() == old(ScopeNow())
              case Some(sc) => ScopeNow() == sc && local == Some(Local(t, Allocated(old(ScopeNow()), t)))
    {
      var scopeStart := if scopeStack == [] then 0 else scopeStack[|scopeStack| - 1];
      var i := |declared|;
      while i > scopeStart
        invariant i <= |declared| && declared == old(declared) && ScopeNow() == old(ScopeNow())
        invariant forall k | i <= k < |declared| && scopeStart <= k :: declared[k].closed || declared[k].name != name
      {
        i := i - 1;
        if !declared[i].closed && declared[i].name == name {
          assert Redeclares(ScopeNow(), name);
          return None;
        }
      }
      var index := AllocLocal(t);
      local := Some(Local(t, index));
      declared := declared + [Entry(name, local.value, false, pinned)];
    }

    /** A scratch local: a still visible one of the same name is used again, unless its type differs. */
    method Temp(name: string, t: Scalar) returns (index: Option<nat>)
      modifies this`declared, this`freeSlots, this`slotTypes
      ensures match Slots.Lookup(old(declared), name)
              case Some(l) => ScopeNow() == old(ScopeNow()) && index == if l.wtype == t then Some(l.index) else None
              case None => ScopeNow() == Bind(old(ScopeNow()), name, t, false) && index == Some(Allocated(old(ScopeNow()), t))
    {
      var prev := Lookup(name);
      if prev.Some? {
        return if prev.value.wtype == t then Some(prev.value.index) else None;
      }
      var i := AllocLocal(t);
      declared := declared + [Entry(name, Local(t, i), false, false)];
      index := Some(i);
    }

    method SwapOut(next: seq<Instr>) returns (was: seq<Instr>)
      modifies this`out
      ensures was == old(out) && out == next
    {
      was, out := out, next;
    }

    method Emit(code: seq<Instr>)
      modifies this`out
      ensures out == old(out) + code
    {
      out := out + code;
    }

    method EnterLabel()
      modifies this`depth
      ensures depth == old(depth) + 1
    {
      depth := depth + 1;
    }

    method ExitLabel()
      requires depth > 0
      modifies this`depth
      ensures depth == old(depth) - 1
    {
      depth := depth - 1;
    }

    // A block around a loop: `break` leaves by the block, `continue` restarts at the loop.
    method EnterLoop()
      modifies this`depth, this`breakTargets, this`continueTargets
      ensures LabelsNow() == InLoop(old(LabelsNow()))
    {
      depth := depth + 1;
      breakTargets := breakTargets + [depth];
      depth := depth + 1;
      continueTargets := continueTargets + [depth];
    }

    method ExitLoop()
      requires depth >= 2 && breakTargets != [] && continueTargets != []
      modifies this`depth, this`breakTargets, this`continueTargets
      ensures breakTargets == old(breakTargets[..|breakTargets| - 1]) && continueTargets == old(continueTargets[..|continueTargets| - 1])
      ensures depth == old(depth) - 2
    {
      continueTargets := continueTargets[..|continueTargets| - 1];
      breakTargets := breakTargets[..|breakTargets| - 1];
      depth := depth - 2;
    }
  }

  lemma CloseNone(sc: Scope)
    ensures forall mark: nat | mark <= |sc.declared| :: CloseUpTo(sc, mark, 0) == sc
  {
  }

  lemma CloseStep(sc: Scope, mark: nat, n: nat)
    requires mark + n < |sc.declared|
    ensures CloseUpTo(sc, mark, n + 1) == CloseOne(CloseUpTo(sc, mark, n), mark + n)
  {
  }

  // ----- expressions -----

  method EmitConversion(got: Scalar, want: Scalar, ctx: FunctionContext)
    modifies ctx`out
    ensures ctx.out == old(ctx.out) + Convert(got, want)
  {
    var g, w := KindOf(got), KindOf(want);
    if g == w {
      return;
    }
    if g == K64 && w == K32 {
      ctx.Emit([WrapI64]);
    } else {
      ctx.Emit(if Signed(got) then [ExtendS] else [ExtendU]);
    }
  }

  // The type an expression would have, without keeping its code.
  method TypeOnly(e: Expr, ctx: FunctionContext) returns (t: Option<Scalar>)
    modifies ctx`out, ctx`depth
    ensures ctx.out == old(ctx.out) && ctx.depth == old(ctx.depth)
    ensures match EmitExpr(ctx.declared, e) case None => t.None? case Some(c) => t == Some(c.t)
    decreases e, 1
  {
    var saved := ctx.SwapOut([]);
    t := EmitExpression(e, ctx);
    var _ := ctx.SwapOut(saved);
  }

  /** Append the code of an expression; `None` where the original throws. */
  method EmitExpression(e: Expr, ctx: FunctionContext) returns (t: Option<Scalar>)
    modifies ctx`out, ctx`depth
    ensures ctx.depth == old(ctx.depth)
    ensures match EmitExpr(ctx.declared, e)
            case None => t.None?
            case Some(c) => t == Some(c.t) && ctx.out == old(ctx.out) + c.code
    decreases e, 0, 1
  {
    hide Convert;
    match e
    case Lit(v) =>
      ctx.Emit([Const(Val(K32, PatternOf(K32, v)))]);
      t := Some(I32);
    case Var(x) =>
      var local := ctx.Lookup(x);
      if local.None? { return None; }
      ctx.Emit([LocalGet(local.value.index)]);
      t := Some(local.value.wtype);
    case Bin(_, _, _) => t := EmitBinary(e, ctx);
    case Neg(_) => t := EmitNegation(e, ctx);
    case Not(x) =>
      var ok := EmitTruth(x, ctx);
      if !ok { return None; }
      ctx.Emit([Eqz(K32)]);
      t := Some(I32);
    case Assign(_, _) => t := EmitAssignment(e, ctx);
    case Cond(_, _, _) => t := EmitConditional(e, ctx);
  }

  lemma FivePieces<T>(o: seq<T>, a: seq<T>, b: seq<T>, c: seq<T>, d: seq<T>, e: seq<T>)
    ensures o + a + b + c + d + e == o + (a + b + (c + d) + e)
  {
  }

  lemma OnEmpty<T>(a: seq<T>, b: seq<T>)
    ensures [] + a + b == a + b
  {
  }

  method EmitBinary(e: Expr, ctx: FunctionContext) returns (t: Option<Scalar>)
    requires e.Bin?
    modifies ctx`out, ctx`depth
    ensures ctx.depth == old(ctx.depth)
    ensures match EmitExpr(ctx.declared, e)
            case None => t.None?
            case Some(c) => t == Some(c.t) && ctx.out == old(ctx.out) + c.code
    decreases e, 0, 0
  {
    hide Convert, IntInstr;
    var a := TypeOnly(e.left, ctx);
    if a.None? { return None; }
    var b := TypeOnly(e.right, ctx);
    if b.None? { return None; }
    var common := Common(a.value, b.value);
    a := EmitExpression(e.left, ctx);
    EmitConversion(a.value, common, ctx);
    b := EmitExpression(e.right, ctx);
    EmitConversion(b.value, common, ctx);
    ctx.Emit([Binary(KindOf(common), IntInstr(e.op, common))]);
    FivePieces(old(ctx.out), EmitExpr(ctx.declared, e.left).value.code, Convert(a.value, common),
               EmitExpr(ctx.declared, e.right).value.code, Convert(b.value, common), [Binary(KindOf(common), IntInstr(e.op, common))]);
    t := Some(if Compares(e.op) then I32 else common);
  }

  method EmitNegation(e: Expr, ctx: FunctionContext) returns (t: Option<Scalar>)
    requires e.Neg?
    modifies ctx`out, ctx`depth
    ensures ctx.depth == old(ctx.depth)
    ensures match EmitExpr(ctx.declared, e)
            case None => t.None?
            case Some(c) => t == Some(c.t) && ctx.out == old(ctx.out) + c.code
    decreases e, 0, 0
  {
    hide Convert;
    var a := TypeOnly(e.operand, ctx);
    if a.None? { return None; }
    var common := Common(a.value, I32);
    ctx.Emit([Const(Val(KindOf(common), 0))]);
    a := EmitExpression(e.operand, ctx);
    EmitConversion(a.value, common, ctx);
    ctx.Emit([Binary(KindOf(common), Sub)]);
    t := Some(common);
  }

  method EmitAssignment(e: Expr, ctx: FunctionContext) returns (t: Option<Scalar>)
    requires e.Assign?
    modifies ctx`out, ctx`depth
    ensures ctx.depth == old(ctx.depth)
    ensures match EmitExpr(ctx.declared, e)
            case None => t.None?
            case Some(c) => t == Some(c.t) && ctx.out == old(ctx.out) + c.code
    decreases e, 0, 0
  {
    hide Convert;
    var local := ctx.Lookup(e.target);
    if local.None? { return None; }
    var a := EmitExpression(e.value, ctx);
    if a.None? { return None; }
    EmitConversion(a.value, local.value.wtype, ctx);
    ctx.Emit([LocalTee(local.value.index)]);
    t := Some(local.value.wtype);
  }

  // Each arm is built into its own list, so neither can run before the test.
  method EmitConditional(e: Expr, ctx: FunctionContext) returns (t: Option<Scalar>)
    requires e.Cond?
    modifies ctx`out, ctx`depth
    ensures ctx.depth == old(ctx.depth)
    ensures match EmitExpr(ctx.declared, e)
            case None => t.None?
            case Some(c) => t == Some(c.t) && ctx.out == old(ctx.out) + c.code
    decreases e, 0, 0
  {
    hide Convert, Truthy;
    var a := TypeOnly(e.yes, ctx);
    if a.None? { return None; }
    var b := TypeOnly(e.no, ctx);
    if b.None? { return None; }
    var common := Common(a.value, b.value);
    var ok := EmitTruth(e.test, ctx);
    if !ok { return None; }
    var outer := ctx.SwapOut([]);
    ctx.EnterLabel();
    a := EmitExpression(e.yes, ctx);
    EmitConversion(a.value, common, ctx);
    var yes := ctx.SwapOut([]);
    OnEmpty(EmitExpr(ctx.declared, e.yes).value.code, Convert(a.value, common));
    b := EmitExpression(e.no, ctx);
    EmitConversion(b.value, common, ctx);
    ctx.ExitLabel();
    var no := ctx.SwapOut(outer);
    OnEmpty(EmitExpr(ctx.declared, e.no).value.code, Convert(b.value, common));
    ArmThere(e.no, ctx.declared);
    ctx.Emit([If(Some(KindOf(common)), yes, no != [], no)]);
    t := Some(common);
  }

  // An expression's code is never empty.
  lemma {:induction false} ArmThere(e: Expr, declared: seq<Entry>)
    ensures EmitExpr(declared, e).Some? ==> EmitExpr(declared, e).value.code != []
  {
  }

  method EmitTruth(e: Expr, ctx: FunctionContext) returns (ok: bool)
    modifies ctx`out, ctx`depth
    ensures ctx.depth == old(ctx.depth)
    ensures ok <==> EmitExpr(ctx.declared, e).Some?
    ensures ok ==> ctx.out == old(ctx.out) + Truthy(EmitExpr(ctx.declared, e).value)
    decreases e, 1
  {
    var t := EmitExpression(e, ctx);
    if t.None? { return false; }
    if KindOf(t.value) == K64 {
      ctx.Emit([Eqz(K64), Eqz(K32)]);
    }
    ok := true;
  }

  // ----- statements -----

  // The context now is as compiling `s` from the scope and labels before leaves it.
  ghost predicate EmittedNow(sc: Scope, labels: Labels, s: Stmt, result: Scalar, before: seq<Instr>, ok: bool, scopeNow: Scope, labelsNow: Labels, now: seq<Instr>)
    requires LabelsOk(labels)
  {
    match EmitStmt(sc, labels, s, result)
    case None => !ok
    case Some(r) => ok && now == before + r.code && scopeNow == r.scope && labelsNow == labels
  }

  method EmitDeclared(s: Stmt, ctx: FunctionContext) returns (ok: bool)
    requires s.Declaration?
    modifies ctx
    ensures ok ==> ctx.LabelsNow() == old(ctx.LabelsNow())
    ensures match EmitDeclaration(old(ctx.ScopeNow()), s)
            case None => !ok
            case Some(r) => ok && ctx.out == old(ctx.out) + r.code && ctx.ScopeNow() == r.scope
  {
    hide Convert, Declare, EmitExpr, Allocated;
    if s.hasInit {
      var t := EmitExpression(s.init, ctx);
      if t.None? { return false; }
      EmitConversion(t.value, s.t, ctx);
    } else {
      ctx.Emit([Const(Val(KindOf(s.t), 0))]);
      SameTypeConverts(s.t);
    }
    var local := ctx.DeclareLocal(s.name, s.t, false);
    if local.None? { return false; }
    ctx.Emit([LocalSet(local.value.index)]);
    ok := true;
  }

  lemma SameTypeConverts(t: Scalar)
    ensures Convert(t, t) == []
  {
  }

  /** Append the code of a statement and update the scope; false where the original throws. */
  method EmitStatement(s: Stmt, ctx: FunctionContext, result: Scalar) returns (ok: bool)
    requires LabelsOk(ctx.LabelsNow())
    modifies ctx
    ensures EmittedNow(old(ctx.ScopeNow()), old(ctx.LabelsNow()), s, result, old(ctx.out), ok, ctx.ScopeNow(), ctx.LabelsNow(), ctx.out)
    decreases s, 1
  {
    hide LabelsOk, Convert, EmitExpr, EmitDeclaration, Close;
    match s
    case Empty => ok := true;
    case Compound(body) => ok := EmitBlock(s, ctx, result);
    case Declaration(_, _, _, _) => ok := EmitDeclared(s, ctx);
    case Expression(e) =>
      var t := EmitExpression(e, ctx);
      if t.None? { return false; }
      ctx.Emit([Drop]);
      ok := true;
    case Conditional(_, _, _, _) => ok := EmitConditionalStatement(s, ctx, result);
    case While(_, _) => ok := EmitWhile(s, ctx, result);
    case Break => ok := EmitJump(ctx.breakTargets, s, ctx, result);
    case Continue => ok := EmitJump(ctx.continueTargets, s, ctx, result);
    case Result(e) => ok := EmitReturn(s, ctx, result);
  }

  method EmitJump(targets: seq<nat>, s: Stmt, ctx: FunctionContext, result: Scalar) returns (ok: bool)
    requires LabelsOk(ctx.LabelsNow())
    requires (s.Break? && targets == ctx.breakTargets) || (s.Continue? && targets == ctx.continueTargets)
    modifies ctx`out
    ensures EmittedNow(old(ctx.ScopeNow()), old(ctx.LabelsNow()), s, result, old(ctx.out), ok, ctx.ScopeNow(), ctx.LabelsNow(), ctx.out)
  {
    hide LabelsOk;
    if targets == [] { return false; }
    if s.Break? { BreakInside(ctx.LabelsNow()); } else { ContinueInside(ctx.LabelsNow()); }
    ctx.Emit([Br(ctx.depth - targets[|targets| - 1])]);
    ok := true;
  }

  method EmitReturn(s: Stmt, ctx: FunctionContext, result: Scalar) returns (ok: bool)
    requires LabelsOk(ctx.LabelsNow()) && s.Result?
    modifies ctx`out, ctx`depth
    ensures EmittedNow(old(ctx.ScopeNow()), old(ctx.LabelsNow()), s, result, old(ctx.out), ok, ctx.ScopeNow(), ctx.LabelsNow(), ctx.out)
  {
    hide LabelsOk, Convert, EmitExpr;
    var t := EmitExpression(s.e, ctx);
    if t.None? { return false; }
    EmitConversion(t.value, result, ctx);
    ctx.Emit([Return]);
    ok := true;
  }

  lemma BreakInside(labels: Labels)
    requires LabelsOk(labels) && labels.breaks != []
    ensures labels.breaks[|labels.breaks| - 1] <= labels.depth
  {
  }

  lemma ContinueInside(labels: Labels)
    requires LabelsOk(labels) && labels.continues != []
    ensures labels.continues[|labels.continues| - 1] <= labels.depth
  {
  }

  method EmitBlock(s: Stmt, ctx: FunctionContext, result: Scalar) returns (ok: bool)
    requires LabelsOk(ctx.LabelsNow()) && s.Compound?
    modifies ctx
    ensures EmittedNow(old(ctx.ScopeNow()), old(ctx.LabelsNow()), s, result, old(ctx.out), ok, ctx.ScopeNow(), ctx.LabelsNow(), ctx.out)
    decreases s, 0
  {
    hide LabelsOk, EmitAll, Close;
    ctx.OpenScope();
    ok := EmitSequence(s.body, ctx, result);
    if !ok { return; }
    ctx.CloseScope();
  }

  method EmitSequence(body: seq<Stmt>, ctx: FunctionContext, result: Scalar) returns (ok: bool)
    requires LabelsOk(ctx.LabelsNow())
    modifies ctx
    ensures match EmitAll(old(ctx.ScopeNow()), old(ctx.LabelsNow()), body, result)
            case None => !ok
            case Some(r) => ok && ctx.out == old(ctx.out) + r.code && ctx.ScopeNow() == r.scope && ctx.LabelsNow() == old(ctx.LabelsNow())
    decreases body, 0
  {
    hide LabelsOk, EmitStmt;
    if body == [] { return true; }
    ok := EmitStatement(body[0], ctx, result);
    if !ok { return; }
    ok := EmitSequence(body[1..], ctx, result);
  }

  // What `EmittedNow` tells.
  lemma EmittedIs(sc: Scope, labels: Labels, s: Stmt, result: Scalar, before: seq<Instr>, ok: bool, scopeNow: Scope, labelsNow: Labels, now: seq<Instr>)
    requires LabelsOk(labels) && EmittedNow(sc, labels, s, result, before, ok, scopeNow, labelsNow, now)
    ensures ok <==> EmitStmt(sc, labels, s, result).Some?
    ensures ok ==> now == before + EmitStmt(sc, labels, s, result).value.code && labelsNow == labels
    ensures ok ==> EmitStmt(sc, labels, s, result) == Some(Emitted(EmitStmt(sc, labels, s, result).value.code, scopeNow))
  {
    hide EmitStmt, LabelsOk;
  }

  // What the two arms compile to, in this scope and under these labels.
  ghost predicate ArmsAre(sc: Scope, labels: Labels, s: Stmt, result: Scalar, ok: bool, yes: seq<Instr>, no: seq<Instr>, scopeNow: Scope)
    requires LabelsOk(labels) && s.Conditional?
  {
    match EmitStmt(sc, labels, s.yes, result)
    case None => !ok
    case Some(a) =>
      if !s.hasElse then ok && yes == a.code && no == [] && scopeNow == a.scope
      else
        match EmitStmt(a.scope, labels, s.no, result)
        case None => !ok
        case Some(b) => ok && yes == a.code && no == b.code && scopeNow == b.scope
  }

  lemma ConditionalFails(sc: Scope, labels: Labels, s: Stmt, result: Scalar, before: seq<Instr>, yes: seq<Instr>, no: seq<Instr>, arms: Scope,
      scopeNow: Scope, labelsNow: Labels, now: seq<Instr>)
    requires LabelsOk(labels) && LabelsOk(Deeper(labels)) && s.Conditional?
    requires EmitExpr(sc.declared, s.test).None? || ArmsAre(sc, Deeper(labels), s, result, false, yes, no, arms)
    ensures EmittedNow(sc, labels, s, result, before, false, scopeNow, labelsNow, now)
  {
    hide EmitExpr, Truthy, LabelsOk;
  }

  lemma ConditionalEmits(sc: Scope, labels: Labels, s: Stmt, result: Scalar, before: seq<Instr>, yes: seq<Instr>, no: seq<Instr>, arms: Scope)
    requires LabelsOk(labels) && LabelsOk(Deeper(labels)) && s.Conditional? && EmitExpr(sc.declared, s.test).Some?
    requires ArmsAre(sc, Deeper(labels), s, result, true, yes, no, arms)
    ensures EmittedNow(sc, labels, s, result, before, true, arms, labels,
              before + Truthy(EmitExpr(sc.declared, s.test).value) + [If(None, yes, no != [], no)])
  {
    hide EmitExpr, Truthy, LabelsOk;
  }

  method EmitConditionalStatement(s: Stmt, ctx: FunctionContext, result: Scalar) returns (ok: bool)
    requires LabelsOk(ctx.LabelsNow()) && s.Conditional?
    modifies ctx
    ensures EmittedNow(old(ctx.ScopeNow()), old(ctx.LabelsNow()), s, result, old(ctx.out), ok, ctx.ScopeNow(), ctx.LabelsNow(), ctx.out)
    decreases s, 0, 1
  {
    hide LabelsOk, EmitExpr, Truthy, EmitStmt, EmittedNow, ArmsAre;
    ghost var sc, labels := ctx.ScopeNow(), ctx.LabelsNow();
    DeeperLabels(labels);
    ok := EmitTruth(s.test, ctx);
    if !ok {
      ConditionalFails(sc, labels, s, result, old(ctx.out), [], [], sc, ctx.ScopeNow(), ctx.LabelsNow(), ctx.out);
      return;
    }
    var outer := ctx.SwapOut([]);
    ctx.EnterLabel();
    var yes, no;
    ok, yes, no := EmitArms(s, ctx, result);
    if !ok {
      ConditionalFails(sc, labels, s, result, old(ctx.out), yes, no, ctx.ScopeNow(), ctx.ScopeNow(), ctx.LabelsNow(), ctx.out);
      return;
    }
    ctx.ExitLabel();
    no := ctx.SwapOut(outer);
    ctx.Emit([If(None, yes, no != [], no)]);
    ConditionalEmits(sc, labels, s, result, old(ctx.out), yes, no, ctx.ScopeNow());
  }

  // Each arm is built into its own list; that of `else` is still the output.
  method EmitArms(s: Stmt, ctx: FunctionContext, result: Scalar) returns (ok: bool, yes: seq<Instr>, no: seq<Instr>)
    requires LabelsOk(ctx.LabelsNow()) && s.Conditional? && ctx.out == []
    modifies ctx
    ensures ArmsAre(old(ctx.ScopeNow()), old(ctx.LabelsNow()), s, result, ok, yes, no, ctx.ScopeNow())
    ensures ok ==> ctx.LabelsNow() == old(ctx.LabelsNow()) && ctx.out == no
    decreases s, 0, 0
  {
    hide LabelsOk, EmitStmt, EmittedNow;
    ghost var sc, labels := ctx.ScopeNow(), ctx.LabelsNow();
    yes, no := [], [];
    ok := EmitStatement(s.yes, ctx, result);
    EmittedIs(sc, labels, s.yes, result, [], ok, ctx.ScopeNow(), ctx.LabelsNow(), ctx.out);
    if !ok { return; }
    ghost var first := ctx.ScopeNow();
    yes := ctx.SwapOut([]);
    if s.hasElse {
      ok := EmitStatement(s.no, ctx, result);
      EmittedIs(first, labels, s.no, result, [], ok, ctx.ScopeNow(), ctx.LabelsNow(), ctx.out);
      if !ok { return; }
    }
    no := ctx.out;
  }

  lemma DeeperLabels(labels: Labels)
    requires LabelsOk(labels)
    ensures LabelsOk(Deeper(labels))
  {
  }

  lemma LoopLabels(labels: Labels)
    requires LabelsOk(labels)
    ensures LabelsOk(InLoop(labels))
  {
  }

  lemma NothingBefore<T>(a: seq<T>)
    ensures [] + a == a
  {
  }

  lemma LastAway<T>(s: seq<T>, x: T)
    ensures (s + [x])[..|s + [x]| - 1] == s
  {
  }

  lemma LoopPieces(test: Code, body: seq<Instr>)
    ensures [] + Truthy(test) + [Eqz(K32), BrIf(1)] + body + [Br(0)] == LoopBody(test, body)
  {
    NothingBefore(Truthy(test));
  }

  lemma WhileFails(sc: Scope, labels: Labels, s: Stmt, result: Scalar, before: seq<Instr>, scopeNow: Scope, labelsNow: Labels, now: seq<Instr>)
    requires LabelsOk(labels) && LabelsOk(InLoop(labels)) && s.While?
    requires EmitExpr(sc.declared, s.test).None? || EmitStmt(sc, InLoop(labels), s.inner, result).None?
    ensures EmittedNow(sc, labels, s, result, before, false, scopeNow, labelsNow, now)
  {
    hide EmitExpr, Truthy, LabelsOk;
  }

  lemma WhileEmits(sc: Scope, labels: Labels, s: Stmt, result: Scalar, before: seq<Instr>, a: Emitted)
    requires LabelsOk(labels) && LabelsOk(InLoop(labels)) && s.While?
    requires EmitExpr(sc.declared, s.test).Some? && EmitStmt(sc, InLoop(labels), s.inner, result) == Some(a)
    ensures EmittedNow(sc, labels, s, result, before, true, a.scope, labels,
              before + [Block([Loop(LoopBody(EmitExpr(sc.declared, s.test).value, a.code))])])
  {
    hide EmitExpr, Truthy, LabelsOk, LoopBody;
  }

  method EmitWhile(s: Stmt, ctx: FunctionContext, result: Scalar) returns (ok: bool)
    requires LabelsOk(ctx.LabelsNow()) && s.While?
    modifies ctx
    ensures EmittedNow(old(ctx.ScopeNow()), old(ctx.LabelsNow()), s, result, old(ctx.out), ok, ctx.ScopeNow(), ctx.LabelsNow(), ctx.out)
    decreases s, 0
  {
    hide LabelsOk, EmitExpr, Truthy, EmitStmt, EmittedNow, LoopBody;
    ghost var sc, labels := ctx.ScopeNow(), ctx.LabelsNow();
    LoopLabels(labels);
    var outer := ctx.SwapOut([]);
    ctx.EnterLoop();
    ok := EmitTruth(s.test, ctx);
    if !ok {
      WhileFails(sc, labels, s, result, old(ctx.out), ctx.ScopeNow(), ctx.LabelsNow(), ctx.out);
      return;
    }
    ctx.Emit([Eqz(K32), BrIf(1)]);
    ghost var test := ctx.out;
    ok := EmitStatement(s.inner, ctx, result);
    EmittedIs(sc, InLoop(labels), s.inner, result, test, ok, ctx.ScopeNow(), ctx.LabelsNow(), ctx.out);
    if !ok {
      WhileFails(sc, labels, s, result, old(ctx.out), ctx.ScopeNow(), ctx.LabelsNow(), ctx.out);
      return;
    }
    ctx.Emit([Br(0)]);
    LastAway(old(ctx.breakTargets), old(ctx.depth) + 1);
    LastAway(old(ctx.continueTargets), old(ctx.depth) + 2);
    ctx.ExitLoop();
    var body := ctx.SwapOut(outer);
    ctx.Emit([Block([Loop(body)])]);
    ghost var inner := EmitStmt(sc, InLoop(labels), s.inner, result).value;
    LoopPieces(EmitExpr(sc.declared, s.test).value, inner.code);
    WhileEmits(sc, labels, s, result, old(ctx.out), inner);
  }

  /** Compile a function: its parameters take the first slots, its body is a block, and an `unreachable`
      ends it. Returns the code and how many locals it needs, or nothing where the original throws. */
  method CompileFunction(params: seq<Variable>, body: seq<Stmt>, result: Scalar) returns (code: Option<seq<Instr>>, locals: nat)
    ensures match EmitFunction(params, body, result)
            case None => code.None?
            case Some(r) => code == Some(r.code) && locals == |r.scope.slotTypes|
  {
    hide EmitStmt, Declare;
    var ctx := new FunctionContext();
    locals := 0;
    for i := 0 to |params|
      invariant DeclareAll(EMPTY, params[..i]) == Some(ctx.ScopeNow()) && ctx.LabelsNow() == Labels(0, [], []) && ctx.out == []
    {
      assert params[..i + 1][..i] == params[..i];
      var local := ctx.DeclareLocal(params[i].name, params[i].t, false);
      if local.None? {
        DeclareAllFails(EMPTY, params, i + 1);
        return None, 0;
      }
    }
    assert params[..|params|] == params;
    ghost var sc := ctx.ScopeNow();
    NoLabels();
    var ok := EmitStatement(Compound(body), ctx, result);
    if !ok { return None, 0; }
    NothingBefore(EmitStmt(sc, Labels(0, [], []), Compound(body), result).value.code);
    ctx.Emit([Unreachable]);
    code, locals := Some(ctx.out), |ctx.slotTypes|;
  }

  lemma NoLabels()
    ensures LabelsOk(Labels(0, [], []))
  {
  }

  // A parameter that cannot be declared stops the rest.
  lemma {:induction false} DeclareAllFails(sc: Scope, params: seq<Variable>, n: nat)
    requires n <= |params| && DeclareAll(sc, params[..n]).None?
    ensures DeclareAll(sc, params).None?
    decreases |params|
  {
    if n < |params| {
      assert params[..|params| - 1][..n] == params[..n];
      DeclareAllFails(sc, params[..|params| - 1], n);
    } else {
      assert params[..n] == params;
    }
  }
}
