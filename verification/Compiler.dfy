/** Running what the back end emits does what the program means (src/examples/CPP/backend.ts:287-357). */
module Compiler {
  import opened Options
  import opened Slots
  import opened Words
  import opened Wasm
  import opened Cpp
  import opened Emission
  import opened Refinement
  import opened Compiled
  import opened ScopesAfter

  // The outer variables of `vals` are in their slots.
  ghost predicate OuterAgrees(sc: Scope, vals: seq<int>, l: seq<Val>) {
    var n := |Opens(sc.declared)|;
    n <= |vals| && Agrees(sc.declared, vals[..n], l)
  }

  /** The code ends as the statement does: falling through with every variable then in scope in its slot;
      branching to the label its `break` or `continue` means, the variables of the scope in theirs;
      returning the value; or out of fuel together. */
  ghost predicate Matches(end: Ending, out: Outcome, sc: Scope, sc': Scope, labels: Labels, result: Scalar, size: nat)
    requires LabelsOk(labels)
  {
    match end
    case Falls(vals) => out.Next? && out.stack == [] && Agrees(sc'.declared, vals, out.locals) && |out.locals| == size
    case Breaks(vals) =>
      labels.breaks != [] && out.Branch? && out.n == ToBreak(labels) && OuterAgrees(sc, vals, out.locals) && |out.locals| == size
    case Continues(vals) =>
      labels.continues != [] && out.Branch? && out.n == ToContinue(labels) && OuterAgrees(sc, vals, out.locals) && |out.locals| == size
    case Returns(v) => out.Returned? && out.value == Some(Val(KindOf(result), Enc(result, v)))
    case Undetermined => true
    case Unfinished => out == Spent
  }

  // Enough locals for every slot the code uses, and every variable in its own.
  ghost predicate Set(sc: Scope, sc': Scope, vals: seq<int>, l: seq<Val>) {
    ScopeOk(sc) && Agrees(sc.declared, vals, l) && |sc'.slotTypes| <= |l|
  }

  // ----- the pieces -----

  lemma ReadyWhenSet(sc: Scope, sc': Scope, vals: seq<int>, l: seq<Val>)
    requires Set(sc, sc', vals, l)
    ensures Ready(sc.declared, vals, l) && |vals| == |VarsOf(sc.declared)| == |Opens(sc.declared)|
  {
    hide Opens, VarsOf, Unpinned, Holds;
    SlotsApart(sc);
  }

  lemma AgreesWhenReady(declared: seq<Entry>, vals: seq<int>, l: seq<Val>)
    requires Ready(declared, vals, l)
    ensures Agrees(declared, vals, l) && |vals| == |Opens(declared)| == |VarsOf(declared)|
  {
    hide Opens, VarsOf, Holds;
  }

  lemma DropCode(code: seq<Instr>, l: seq<Val>, l': seq<Val>, t: Scalar, v: int, fuel: nat)
    requires Pushes(code, l, l', t, v, fuel)
    ensures Exec(code + [Drop], l, [], fuel) == Next(l', [])
  {
    hide Pushes, Exec, Enc;
    var x := Val(KindOf(t), Enc(t, v));
    PushesThen(code, [Drop], l, l', t, v, [], fuel);
    ExecSingle(Drop, l', [] + [x], fuel);
    OneOnTop([], x);
  }

  lemma ReturnCode(code: seq<Instr>, l: seq<Val>, l': seq<Val>, t: Scalar, v: int, fuel: nat)
    requires Pushes(code, l, l', t, v, fuel)
    ensures Exec(code + [Return], l, [], fuel) == Returned(l', Some(Val(KindOf(t), Enc(t, v))))
  {
    hide Pushes, Exec, Enc;
    var x := Val(KindOf(t), Enc(t, v));
    PushesThen(code, [Return], l, l', t, v, [], fuel);
    ExecSingle(Return, l', [] + [x], fuel);
    OneOnTop([], x);
  }

  lemma SetCode(code: seq<Instr>, l: seq<Val>, l': seq<Val>, t: Scalar, v: int, i: nat, fuel: nat)
    requires Pushes(code, l, l', t, v, fuel) && i < |l'|
    ensures Exec(code + [LocalSet(i)], l, [], fuel) == Next(l'[i := Val(KindOf(t), Enc(t, v))], [])
  {
    hide Pushes, Exec, Enc;
    var x := Val(KindOf(t), Enc(t, v));
    PushesThen(code, [LocalSet(i)], l, l', t, v, [], fuel);
    ExecSingle(LocalSet(i), l', [] + [x], fuel);
    OneOnTop([], x);
  }

  // ----- declarations -----

  lemma AgreesDeclared(sc: Scope, d: Entry, vals: seq<int>, v: int, l: seq<Val>)
    requires Agrees(sc.declared, vals, l) && Apart(sc.declared + [d]) && !d.closed && d.local.index < |l| && InRange(d.local.wtype, v)
    requires Opens(sc.declared + [d]) == Opens(sc.declared) + [d]
    ensures Agrees(sc.declared + [d], vals + [v], l[d.local.index := Val(KindOf(d.local.wtype), Enc(d.local.wtype, v))])
  {
    hide Opens, InRange, Enc;
    var n := |vals|;
    var l' := l[d.local.index := Val(KindOf(d.local.wtype), Enc(d.local.wtype, v))];
    forall k | 0 <= k < n ensures Holds(l', Opens(sc.declared)[k].local, vals[k]) {
      assert Holds(l, Opens(sc.declared)[k].local, vals[k]);
      assert Opens(sc.declared + [d])[k] == Opens(sc.declared)[k] && Opens(sc.declared + [d])[n] == d;
    }
  }

  lemma DeclarationCorrect(sc: Scope, s: Stmt, r: Emitted, labels: Labels, result: Scalar, vals: seq<int>, l: seq<Val>, fuel: nat)
    requires LabelsOk(labels) && s.Declaration? && EmitDeclaration(sc, s) == Some(r) && Set(sc, r.scope, vals, l)
    requires |vals| == |VarsOf(sc.declared)| && Known(VarsOf(sc.declared), s) && Fits(VarsOf(sc.declared), s)
    ensures Matches(Run(VarsOf(sc.declared), vals, s, result, fuel), Exec(r.code, l, [], fuel), sc, r.scope, labels, result, |l|)
  {
    hide ScopeOk, Agrees, Opens, VarsOf, Exec, EmitExpr, Pushes, Enc, InRange, Convert, Wrap, Allocated, Declare;
    ReadyWhenSet(sc, r.scope, vals, l);
    DeclaredAfter(sc, s, r);
    DeclaredApart(r.scope);
    var d := Entry(s.name, Local(s.t, Allocated(sc, s.t)), false, false);
    if s.hasInit {
      TypeAgrees(sc.declared, s.init);
      var c := EmitExpr(sc.declared, s.init).value;
      var e := Eval(VarsOf(sc.declared), vals, s.init);
      if e.Evaluated? {
        var l' := ExprCorrect(sc.declared, vals, s.init, c, l, fuel);
        PushConverted(c.code, l, l', c.t, s.t, e.v, fuel);
        WrapInRange(s.t, e.v);
        SetCode(c.code + Convert(c.t, s.t), l, l', s.t, Wrap(s.t, e.v), d.local.index, fuel);
        AgreesWhenReady(sc.declared, e.vals, l');
        AgreesDeclared(sc, d, e.vals, Wrap(s.t, e.v), l');
      }
    } else {
      ZeroInRange(s.t);
      PushConst(s.t, 0, l, fuel);
      SameConvert(s.t, [Const(Val(KindOf(s.t), 0))]);
      SetCode([Const(Val(KindOf(s.t), 0))], l, l, s.t, 0, d.local.index, fuel);
      AgreesDeclared(sc, d, vals, 0, l);
    }
  }

  lemma DeclaredApart(sc: Scope)
    requires ScopeOk(sc)
    ensures Apart(sc.declared)
  {
    hide SlotsOk;
    SlotsApart(sc);
  }

  lemma SameConvert(t: Scalar, code: seq<Instr>)
    ensures code + Convert(t, t) == code
  {
  }

  // ----- blocks and labels -----

  // What an arm of an `if`, or the body of a loop, looks like from outside its label.
  lemma LeaveMatches(end: Ending, out: Outcome, sc: Scope, sc': Scope, labels: Labels, result: Scalar, size: nat)
    requires LabelsOk(labels) && LabelsOk(Deeper(labels)) && Matches(end, out, sc, sc', Deeper(labels), result, size)
    ensures Matches(end, Leave(out, [], None), sc, sc', labels, result, size)
  {
    hide Agrees, OuterAgrees, Enc;
  }

  lemma AgreesPrefix(a: seq<Entry>, b: seq<Entry>, vals: seq<int>, l: seq<Val>)
    requires Agrees(b, vals, l) && Opens(a) <= Opens(b)
    ensures |Opens(a)| <= |vals| && Agrees(a, vals[..|Opens(a)|], l)
  {
    hide Opens, Holds;
    forall k | 0 <= k < |Opens(a)| ensures Holds(l, Opens(a)[k].local, vals[k]) {
      assert Holds(l, Opens(b)[k].local, vals[k]);
    }
  }

  lemma OuterWider(sc: Scope, sc1: Scope, vals: seq<int>, l: seq<Val>)
    requires OuterAgrees(sc1, vals, l) && Opens(sc.declared) <= Opens(sc1.declared)
    ensures OuterAgrees(sc, vals, l)
  {
    hide Opens, Agrees;
    var n, n1 := |Opens(sc.declared)|, |Opens(sc1.declared)|;
    AgreesPrefix(sc.declared, sc1.declared, vals[..n1], l);
    assert vals[..n1][..n] == vals[..n];
  }

  lemma SameAgrees(a: seq<Entry>, b: seq<Entry>, vals: seq<int>, l: seq<Val>)
    requires Agrees(a, vals, l) && Opens(a) == Opens(b)
    ensures Agrees(b, vals, l)
  {
    hide Opens, Holds;
  }

  lemma AgreesCut(sc: Scope, vals: seq<int>, l: seq<Val>)
    requires OuterAgrees(sc, vals, l)
    ensures var n := |Opens(sc.declared)|; n <= |vals| && OuterAgrees(sc, vals[..n], l)
  {
    hide Opens, Agrees;
    var n := |Opens(sc.declared)|;
    assert vals[..n][..n] == vals[..n];
  }

  /** Leaving a block: its own variables go, those of the scope around it are still in their slots. */
  lemma CutMatches(end: Ending, out: Outcome, sc: Scope, sc1: Scope, sc2: Scope, sc': Scope, labels: Labels, result: Scalar, size: nat)
    requires LabelsOk(labels) && Matches(end, out, sc1, sc2, labels, result, size)
    requires Opens(sc1.declared) == Opens(sc.declared) == Opens(sc'.declared) && Opens(sc.declared) <= Opens(sc2.declared)
    ensures Matches(Cut(end, |Opens(sc.declared)|), out, sc, sc', labels, result, size)
  {
    hide Opens, Agrees, Enc;
    match end
    case Falls(vals) =>
      AgreesPrefix(sc.declared, sc2.declared, vals, out.locals);
      SameAgrees(sc.declared, sc'.declared, vals[..|Opens(sc.declared)|], out.locals);
    case Breaks(vals) =>
      OuterWider(sc, sc1, vals, out.locals);
      AgreesCut(sc, vals, out.locals);
    case Continues(vals) =>
      OuterWider(sc, sc1, vals, out.locals);
      AgreesCut(sc, vals, out.locals);
    case _ =>
  }

  // After the first statement of a sequence, the rest goes on in the scope it left.
  lemma SequenceMatches(end: Ending, out: Outcome, sc: Scope, sc1: Scope, sc2: Scope, labels: Labels, result: Scalar, size: nat)
    requires LabelsOk(labels) && Matches(end, out, sc1, sc2, labels, result, size) && Opens(sc.declared) <= Opens(sc1.declared)
    ensures Matches(end, out, sc, sc2, labels, result, size)
  {
    hide Opens, Agrees, OuterAgrees, Enc;
    match end
    case Breaks(vals) => OuterWider(sc, sc1, vals, out.locals);
    case Continues(vals) => OuterWider(sc, sc1, vals, out.locals);
    case _ =>
  }

  // ----- tests -----

  lemma IfCode(test: seq<Instr>, ins: Instr, l: seq<Val>, l1: seq<Val>, t: Scalar, w: int, fuel: nat)
    requires Pushes(test, l, l1, t, w, fuel) && InRange(t, w) && KindOf(t) == K32 && ins.If? && ins.result.None?
    ensures Exec(test + [ins], l, [], fuel) ==
            if w != 0 then Leave(Exec(ins.yes, l1, [], fuel), [], None)
            else if ins.hasElse then Leave(Exec(ins.no, l1, [], fuel), [], None) else Next(l1, [])
  {
    hide Pushes, Exec, InRange, Enc, Leave;
    var c := Val(K32, Enc(t, w));
    EncTruth(t, w);
    PushesThen(test, [ins], l, l1, t, w, [], fuel);
    ExecSingle(ins, l1, [] + [c], fuel);
    OneOnTop([], c);
  }

  lemma LoopHead(test: Code, body: seq<Instr>, l: seq<Val>, l1: seq<Val>, t: Scalar, w: int, fuel: nat)
    requires Pushes(Truthy(test), l, l1, t, w, fuel) && InRange(t, w) && KindOf(t) == K32
    ensures Exec(LoopBody(test, body), l, [], fuel) == if w == 0 then Branch(1, l1) else Exec(body + [Br(0)], l1, [], fuel)
  {
    hide Pushes, Exec, InRange, Enc, Truthy;
    PushZeroTest(Truthy(test), l, l1, t, w, fuel);
    BoolEnc(w == 0);
    var head, rest := Truthy(test) + [Eqz(K32)], [BrIf(1)] + (body + [Br(0)]);
    assert LoopBody(test, body) == head + rest;
    var c := Val(K32, Enc(I32, Bool(w == 0)));
    PushesThen(head, rest, l, l1, I32, Bool(w == 0), [], fuel);
    ExecAppend([BrIf(1)], body + [Br(0)], l1, [] + [c], fuel);
    ExecSingle(BrIf(1), l1, [] + [c], fuel);
    OneOnTop([], c);
  }

  lemma LoopTail(body: seq<Instr>, l: seq<Val>, fuel: nat)
    ensures Exec(body + [Br(0)], l, [], fuel) ==
            match Exec(body, l, [], fuel)
            case Next(l2, _) => Branch(0, l2)
            case other => other
  {
    hide Exec;
    ExecAppend(body, [Br(0)], l, [], fuel);
    match Exec(body, l, [], fuel)
    case Next(l2, s) => ExecSingle(Br(0), l2, s, fuel);
    case _ =>
  }

  lemma WhileCode(body: seq<Instr>, l: seq<Val>, fuel: nat)
    ensures Exec([Block([Loop(body)])], l, [], fuel) == Leave(Leave(ExecLoop(body, l, fuel), [], None), [], None)
  {
    hide Exec, ExecLoop, Leave;
    ExecSingle(Block([Loop(body)]), l, [], fuel);
    ExecSingle(Loop(body), l, [], fuel);
  }

  // The labels of a loop's body: one out to leave the loop, none to start it again.
  lemma LoopTargets(labels: Labels)
    requires LabelsOk(labels)
    ensures LabelsOk(InLoop(labels)) && InLoop(labels).breaks != [] && InLoop(labels).continues != []
    ensures ToBreak(InLoop(labels)) == 1 && ToContinue(InLoop(labels)) == 0
  {
  }

  // A test, evaluated and compiled.
  lemma TestCorrect(sc: Scope, vals: seq<int>, e: Expr, c: Code, l: seq<Val>, fuel: nat) returns (l1: seq<Val>, t: Scalar, w: int)
    requires Ready(sc.declared, vals, l) && EmitExpr(sc.declared, e) == Some(c) && |vals| == |VarsOf(sc.declared)|
    requires TypeOf(VarsOf(sc.declared), e).Some? && Eval(VarsOf(sc.declared), vals, e).Evaluated? && ShiftsFit(VarsOf(sc.declared), e)
    ensures var r := Eval(VarsOf(sc.declared), vals, e);
            && Pushes(Truthy(c), l, l1, t, w, fuel) && InRange(t, w) && KindOf(t) == K32 && (w == 0 <==> r.v == 0)
            && Agrees(sc.declared, r.vals, l1) && |l1| == |l|
  {
    hide Ready, Agrees, Pushes, InRange, Truthy, Opens, VarsOf;
    l1 := ExprCorrect(sc.declared, vals, e, c, l, fuel);
    var r := Eval(VarsOf(sc.declared), vals, e);
    t, w := PushTruth(c, l, l1, r.v, fuel);
    AgreesWhenReady(sc.declared, r.vals, l1);
  }

  // ----- statements -----

  lemma SetLater(sc: Scope, sc1: Scope, sc': Scope, vals: seq<int>, vals1: seq<int>, l: seq<Val>, l1: seq<Val>)
    requires Set(sc, sc', vals, l) && ScopeOk(sc1) && Agrees(sc1.declared, vals1, l1) && |l1| == |l|
    ensures Set(sc1, sc', vals1, l1)
  {
    hide ScopeOk, Agrees;
  }

  lemma SetSmaller(sc: Scope, sc': Scope, sc2: Scope, vals: seq<int>, l: seq<Val>)
    requires Set(sc, sc', vals, l) && |sc2.slotTypes| <= |sc'.slotTypes|
    ensures Set(sc, sc2, vals, l)
  {
    hide ScopeOk, Agrees;
  }

  lemma ExpressionCorrect(sc: Scope, labels: Labels, s: Stmt, result: Scalar, r: Emitted, vals: seq<int>, l: seq<Val>, fuel: nat)
    requires LabelsOk(labels) && s.Expression? && EmitStmt(sc, labels, s, result) == Some(r) && Set(sc, r.scope, vals, l)
    requires |vals| == |VarsOf(sc.declared)| && Known(VarsOf(sc.declared), s) && Fits(VarsOf(sc.declared), s)
    ensures Matches(Run(VarsOf(sc.declared), vals, s, result, fuel), Exec(r.code, l, [], fuel), sc, r.scope, labels, result, |l|)
  {
    hide ScopeOk, Agrees, Opens, VarsOf, EmitExpr, Pushes, Enc, InRange, Convert, OuterAgrees, Set, Ready, Eval, Exec;
    SetFacts(sc, r.scope, vals, l);
    var c := EmitExpr(sc.declared, s.e).value;
    var v := Eval(VarsOf(sc.declared), vals, s.e);
    if v.Evaluated? {
      var l1 := ExprCorrect(sc.declared, vals, s.e, c, l, fuel);
      DropCode(c.code, l, l1, c.t, v.v, fuel);
      AgreesWhenReady(sc.declared, v.vals, l1);
    }
  }

  lemma ResultCorrect(sc: Scope, labels: Labels, s: Stmt, result: Scalar, r: Emitted, vals: seq<int>, l: seq<Val>, fuel: nat)
    requires LabelsOk(labels) && s.Result? && EmitStmt(sc, labels, s, result) == Some(r) && Set(sc, r.scope, vals, l)
    requires |vals| == |VarsOf(sc.declared)| && Known(VarsOf(sc.declared), s) && Fits(VarsOf(sc.declared), s)
    ensures Matches(Run(VarsOf(sc.declared), vals, s, result, fuel), Exec(r.code, l, [], fuel), sc, r.scope, labels, result, |l|)
  {
    hide ScopeOk, Agrees, Opens, VarsOf, EmitExpr, Pushes, Enc, InRange, Convert, OuterAgrees, Set, Ready, Eval, Exec;
    SetFacts(sc, r.scope, vals, l);
    var c := EmitExpr(sc.declared, s.e).value;
    var v := Eval(VarsOf(sc.declared), vals, s.e);
    if v.Evaluated? {
      var l1 := ExprCorrect(sc.declared, vals, s.e, c, l, fuel);
      PushConverted(c.code, l, l1, c.t, result, v.v, fuel);
      ReturnCode(c.code + Convert(c.t, result), l, l1, result, Wrap(result, v.v), fuel);
    }
  }

  /** The emitted code of a statement does what the statement means, in lockstep with its loops. */
  lemma {:induction false} StmtCorrect(sc: Scope, labels: Labels, s: Stmt, result: Scalar, r: Emitted, vals: seq<int>, l: seq<Val>, fuel: nat)
    requires LabelsOk(labels) && Placed(s) && EmitStmt(sc, labels, s, result) == Some(r) && Set(sc, r.scope, vals, l)
    requires |vals| == |VarsOf(sc.declared)| && Known(VarsOf(sc.declared), s) && Fits(VarsOf(sc.declared), s)
    ensures Matches(Run(VarsOf(sc.declared), vals, s, result, fuel), Exec(r.code, l, [], fuel), sc, r.scope, labels, result, |l|)
    decreases fuel, s, 3
  {
    hide ScopeOk, Agrees, Opens, VarsOf, EmitExpr, EmitDeclaration, Pushes, Enc, InRange, Convert, OuterAgrees, Set, Ready;
    SetFacts(sc, r.scope, vals, l);
    match s
    case Empty =>
    case Compound(body) => CompoundCorrect(sc, labels, s, result, r, vals, l, fuel);
    case Declaration(_, _, _, _) => DeclarationCorrect(sc, s, r, labels, result, vals, l, fuel);
    case Expression(e) => ExpressionCorrect(sc, labels, s, result, r, vals, l, fuel);
    case Conditional(_, _, _, _) => ConditionalCorrect(sc, labels, s, result, r, vals, l, fuel);
    case While(_, _) => WhileCorrect(sc, labels, s, result, r, vals, l, fuel);
    case Break =>
      ExecSingle(Br(ToBreak(labels)), l, [], fuel);
      OuterSelf(sc, vals, l);
    case Continue =>
      ExecSingle(Br(ToContinue(labels)), l, [], fuel);
      OuterSelf(sc, vals, l);
    case Result(e) => ResultCorrect(sc, labels, s, result, r, vals, l, fuel);
  }

  lemma SetFacts(sc: Scope, sc': Scope, vals: seq<int>, l: seq<Val>)
    requires Set(sc, sc', vals, l)
    ensures ScopeOk(sc) && Agrees(sc.declared, vals, l) && Ready(sc.declared, vals, l) && |sc'.slotTypes| <= |l|
    ensures |vals| == |VarsOf(sc.declared)| == |Opens(sc.declared)|
  {
    hide ScopeOk, Agrees, Ready, Opens, VarsOf;
    ReadyWhenSet(sc, sc', vals, l);
  }

  lemma OuterSelf(sc: Scope, vals: seq<int>, l: seq<Val>)
    requires Agrees(sc.declared, vals, l)
    ensures OuterAgrees(sc, vals, l)
  {
    hide Opens, Holds;
    assert vals[..|vals|] == vals;
  }

  lemma {:induction false} CompoundCorrect(sc: Scope, labels: Labels, s: Stmt, result: Scalar, r: Emitted, vals: seq<int>, l: seq<Val>, fuel: nat)
    requires LabelsOk(labels) && s.Compound? && Placed(s) && EmitStmt(sc, labels, s, result) == Some(r) && Set(sc, r.scope, vals, l)
    requires |vals| == |VarsOf(sc.declared)| && Known(VarsOf(sc.declared), s) && Fits(VarsOf(sc.declared), s)
    ensures Matches(Run(VarsOf(sc.declared), vals, s, result, fuel), Exec(r.code, l, [], fuel), sc, r.scope, labels, result, |l|)
    decreases fuel, s, 2
  {
    hide ScopeOk, Agrees, Opens, VarsOf, Set, Exec, Matches, Close, EmitAll;
    SetFacts(sc, r.scope, vals, l);
    OpenedOk(sc);
    var c := EmitAll(Open(sc), labels, s.body, result).value;
    AllLeaves(Open(sc), labels, s.body, result, c);
    ClosedAfter(sc, c.scope);
    SetLater(sc, Open(sc), r.scope, vals, vals, l, l);
    SetSmaller(Open(sc), r.scope, c.scope, vals, l);
    AllCorrect(Open(sc), labels, s.body, result, c, vals, l, fuel);
    var end := RunAll(VarsOf(sc.declared), vals, s.body, result, fuel);
    CutMatches(end, Exec(c.code, l, [], fuel), sc, Open(sc), c.scope, r.scope, labels, result, |l|);
  }

  lemma {:induction false} AllCorrect(sc: Scope, labels: Labels, body: seq<Stmt>, result: Scalar, r: Emitted, vals: seq<int>, l: seq<Val>, fuel: nat)
    requires LabelsOk(labels) && (forall i | 0 <= i < |body| :: Placed(body[i]))
    requires EmitAll(sc, labels, body, result) == Some(r) && Set(sc, r.scope, vals, l)
    requires |vals| == |VarsOf(sc.declared)| && KnownAll(VarsOf(sc.declared), body) && FitsAll(VarsOf(sc.declared), body)
    ensures Matches(RunAll(VarsOf(sc.declared), vals, body, result, fuel), Exec(r.code, l, [], fuel), sc, r.scope, labels, result, |l|)
    decreases fuel, body, 1
  {
    hide ScopeOk, Agrees, Opens, VarsOf, Set, Exec, EmitStmt, Run, Enc, OuterAgrees;
    SetFacts(sc, r.scope, vals, l);
    if body == [] {
      ExecNone(l, fuel);
    } else {
      var a := EmitStmt(sc, labels, body[0], result).value;
      var b := EmitAll(a.scope, labels, body[1..], result).value;
      StmtLeaves(sc, labels, body[0], result, a);
      AllLeaves(a.scope, labels, body[1..], result, b);
      OpensPrefix(sc.declared, a.scope.declared);
      SetSmaller(sc, r.scope, a.scope, vals, l);
      StmtCorrect(sc, labels, body[0], result, a, vals, l, fuel);
      ExecAppend(a.code, b.code, l, [], fuel);
      var first, out := Run(VarsOf(sc.declared), vals, body[0], result, fuel), Exec(a.code, l, [], fuel);
      if first.Falls? {
        SetLater(sc, a.scope, r.scope, vals, first.vals, l, out.locals);
        AllCorrect(a.scope, labels, body[1..], result, b, first.vals, out.locals, fuel);
        var end := RunAll(VarsOf(a.scope.declared), first.vals, body[1..], result, fuel);
        SequenceMatches(end, Exec(b.code, out.locals, [], fuel), sc, a.scope, b.scope, labels, result, |l|);
      }
    }
  }

  lemma ExecNone(l: seq<Val>, fuel: nat)
    ensures Exec([], l, [], fuel) == Next(l, [])
  {
  }

  lemma {:induction false} ConditionalCorrect(sc: Scope, labels: Labels, s: Stmt, result: Scalar, r: Emitted, vals: seq<int>, l: seq<Val>, fuel: nat)
    requires LabelsOk(labels) && s.Conditional? && Placed(s) && EmitStmt(sc, labels, s, result) == Some(r) && Set(sc, r.scope, vals, l)
    requires |vals| == |VarsOf(sc.declared)| && Known(VarsOf(sc.declared), s) && Fits(VarsOf(sc.declared), s)
    ensures Matches(Run(VarsOf(sc.declared), vals, s, result, fuel), Exec(r.code, l, [], fuel), sc, r.scope, labels, result, |l|)
    decreases fuel, s, 2
  {
    hide ScopeOk, Agrees, Opens, VarsOf, Set, Exec, Matches, EmitExpr, Truthy, Pushes, InRange, Leave, Ready;
    SetFacts(sc, r.scope, vals, l);
    DeeperOk(labels);
    var vars := VarsOf(sc.declared);
    var test := EmitExpr(sc.declared, s.test).value;
    var a := EmitStmt(sc, Deeper(labels), s.yes, result).value;
    StmtLeaves(sc, Deeper(labels), s.yes, result, a);
    if s.hasElse { StmtLeaves(a.scope, Deeper(labels), s.no, result, EmitStmt(a.scope, Deeper(labels), s.no, result).value); }
    var e := Eval(vars, vals, s.test);
    if e.Evaluated? {
      var l1, t, w := TestCorrect(sc, vals, s.test, test, l, fuel);
      SetLater(sc, sc, r.scope, vals, e.vals, l, l1);
      IfCode(Truthy(test), r.code[|Truthy(test)|], l, l1, t, w, fuel);
      if e.v != 0 {
        SetSmaller(sc, r.scope, a.scope, e.vals, l1);
        StmtCorrect(sc, Deeper(labels), s.yes, result, a, e.vals, l1, fuel);
        ArmMatches(Run(vars, e.vals, s.yes, result, fuel), Exec(a.code, l1, [], fuel), sc, sc, a.scope, r.scope, labels, result, |l|);
      } else if s.hasElse {
        var b := EmitStmt(a.scope, Deeper(labels), s.no, result).value;
        SameVars(sc.declared, a.scope.declared);
        SameAgrees(sc.declared, a.scope.declared, e.vals, l1);
        SetLater(sc, a.scope, r.scope, e.vals, e.vals, l1, l1);
        StmtCorrect(a.scope, Deeper(labels), s.no, result, b, e.vals, l1, fuel);
        ArmMatches(Run(vars, e.vals, s.no, result, fuel), Exec(b.code, l1, [], fuel), sc, a.scope, b.scope, r.scope, labels, result, |l|);
        NoElse(b.code, l1, fuel);
      } else {
        SameAgrees(sc.declared, a.scope.declared, e.vals, l1);
        FallsMatches(sc, r.scope, labels, result, e.vals, l1);
      }
    } else {
      AnythingMatches(Exec(r.code, l, [], fuel), sc, r.scope, labels, result, |l|);
    }
  }

  lemma FallsMatches(sc: Scope, sc': Scope, labels: Labels, result: Scalar, vals: seq<int>, l: seq<Val>)
    requires LabelsOk(labels) && Agrees(sc'.declared, vals, l)
    ensures Matches(Falls(vals), Next(l, []), sc, sc', labels, result, |l|)
  {
  }

  lemma AnythingMatches(out: Outcome, sc: Scope, sc': Scope, labels: Labels, result: Scalar, size: nat)
    requires LabelsOk(labels)
    ensures Matches(Undetermined, out, sc, sc', labels, result, size)
  {
  }

  lemma NoElse(code: seq<Instr>, l: seq<Val>, fuel: nat)
    ensures code == [] ==> Leave(Exec(code, l, [], fuel), [], None) == Next(l, [])
  {
  }

  // An arm's ending, seen from the whole statement.
  lemma ArmMatches(end: Ending, out: Outcome, sc: Scope, sc1: Scope, sc2: Scope, sc': Scope, labels: Labels, result: Scalar, size: nat)
    requires LabelsOk(labels) && LabelsOk(Deeper(labels)) && Matches(end, out, sc1, sc2, Deeper(labels), result, size)
    requires Opens(sc.declared) == Opens(sc1.declared) == Opens(sc2.declared) == Opens(sc'.declared)
    ensures Matches(Cut(end, |VarsOf(sc.declared)|), Leave(out, [], None), sc, sc', labels, result, size)
  {
    hide Opens, VarsOf, Matches, Leave;
    LeaveMatches(end, out, sc1, sc2, labels, result, size);
    CutMatches(end, Leave(out, [], None), sc, sc1, sc2, sc', labels, result, size);
    SizeOfVars(sc.declared);
  }

  lemma SizeOfVars(declared: seq<Entry>)
    ensures |VarsOf(declared)| == |Opens(declared)|
  {
  }

  // ----- loops -----

  /** How the rounds of a loop end, seen from inside its two labels. */
  ghost predicate LoopMatches(end: Ending, out: Outcome, sc: Scope, result: Scalar, size: nat) {
    match end
    case Falls(vals) => out.Branch? && out.n == 1 && Agrees(sc.declared, vals, out.locals) && |out.locals| == size
    case Returns(v) => out.Returned? && out.value == Some(Val(KindOf(result), Enc(result, v)))
    case Unfinished => out == Spent
    case Undetermined => true
    case _ => false
  }

  lemma {:induction false} WhileCorrect(sc: Scope, labels: Labels, s: Stmt, result: Scalar, r: Emitted, vals: seq<int>, l: seq<Val>, fuel: nat)
    requires LabelsOk(labels) && s.While? && Placed(s) && EmitStmt(sc, labels, s, result) == Some(r) && Set(sc, r.scope, vals, l)
    requires |vals| == |VarsOf(sc.declared)| && Known(VarsOf(sc.declared), s) && Fits(VarsOf(sc.declared), s)
    ensures Matches(Run(VarsOf(sc.declared), vals, s, result, fuel), Exec(r.code, l, [], fuel), sc, r.scope, labels, result, |l|)
    decreases fuel, s, 2
  {
    hide ScopeOk, Agrees, Opens, VarsOf, Set, Exec, EmitExpr, Truthy, ExecLoop, RunLoop, Ready, Enc;
    SetFacts(sc, r.scope, vals, l);
    InLoopOk(labels);
    var test := EmitExpr(sc.declared, s.test).value;
    var a := EmitStmt(sc, InLoop(labels), s.inner, result).value;
    StmtLeaves(sc, InLoop(labels), s.inner, result, a);
    LoopCorrect(sc, labels, s, result, test, a, vals, l, fuel);
    var body := LoopBody(test, a.code);
    WhileCode(body, l, fuel);
    var end, out := RunLoop(VarsOf(sc.declared), vals, s, result, fuel), ExecLoop(body, l, fuel);
    if end.Falls? { SameAgrees(sc.declared, r.scope.declared, end.vals, out.locals); }
  }

  lemma {:induction false} LoopCorrect(sc: Scope, labels: Labels, s: Stmt, result: Scalar, test: Code, a: Emitted, vals: seq<int>, l: seq<Val>, fuel: nat)
    requires LabelsOk(labels) && s.While? && Placed(s) && EmitExpr(sc.declared, s.test) == Some(test)
    requires LabelsOk(InLoop(labels)) && EmitStmt(sc, InLoop(labels), s.inner, result) == Some(a) && Set(sc, a.scope, vals, l)
    requires |vals| == |VarsOf(sc.declared)| && Known(VarsOf(sc.declared), s) && Fits(VarsOf(sc.declared), s) && Opens(a.scope.declared) == Opens(sc.declared)
    ensures LoopMatches(RunLoop(VarsOf(sc.declared), vals, s, result, fuel), ExecLoop(LoopBody(test, a.code), l, fuel), sc, result, |l|)
    decreases fuel, s, 1
  {
    hide ScopeOk, Agrees, Opens, VarsOf, Set, Exec, EmitExpr, EmitStmt, Truthy, Pushes, InRange, LoopBody, Run, Ready, Enc;
    if fuel > 0 {
      SetFacts(sc, a.scope, vals, l);
      var vars := VarsOf(sc.declared);
      var e := Eval(vars, vals, s.test);
      if e.Evaluated? {
        var l1, t, w := TestCorrect(sc, vals, s.test, test, l, fuel - 1);
        LoopHead(test, a.code, l, l1, t, w, fuel - 1);
        if e.v != 0 {
          SetLater(sc, sc, a.scope, vals, e.vals, l, l1);
          RoundCorrect(sc, labels, s, result, test, a, e.vals, l1, fuel);
        }
      }
    }
  }

  // One round whose test came out true, and those after it.
  lemma {:induction false} RoundCorrect(sc: Scope, labels: Labels, s: Stmt, result: Scalar, test: Code, a: Emitted, vals: seq<int>, l: seq<Val>, fuel: nat)
    requires fuel > 0 && LabelsOk(labels) && s.While? && Placed(s) && EmitExpr(sc.declared, s.test) == Some(test)
    requires LabelsOk(InLoop(labels)) && EmitStmt(sc, InLoop(labels), s.inner, result) == Some(a) && Set(sc, a.scope, vals, l)
    requires |vals| == |VarsOf(sc.declared)| && Known(VarsOf(sc.declared), s) && Fits(VarsOf(sc.declared), s) && Opens(a.scope.declared) == Opens(sc.declared)
    ensures LoopMatches(AfterRound(VarsOf(sc.declared), vals, s, result, fuel),
                        ExecRound(Exec(a.code + [Br(0)], l, [], fuel - 1), LoopBody(test, a.code), fuel), sc, result, |l|)
    decreases fuel, s, 0
  {
    hide ScopeOk, Agrees, Opens, VarsOf, Set, Exec, EmitExpr, EmitStmt, Truthy, LoopBody, Run, RunLoop, ExecLoop, Ready, Enc, Matches, OuterAgrees;
    SetFacts(sc, a.scope, vals, l);
    var vars := VarsOf(sc.declared);
    var end, out := Run(vars, vals, s.inner, result, fuel - 1), Exec(a.code, l, [], fuel - 1);
    StmtCorrect(sc, InLoop(labels), s.inner, result, a, vals, l, fuel - 1);
    SizeOfVars(sc.declared);
    LoopTargets(labels);
    LoopTail(a.code, l, fuel - 1);
    InnerMatches(end, out, sc, a.scope, labels, result, |l|);
    var cut := Cut(end, |vars|);
    if cut.Falls? || cut.Continues? {
      SetLater(sc, sc, a.scope, vals, cut.vals, l, out.locals);
      LoopCorrect(sc, labels, s, result, test, a, cut.vals, out.locals, fuel - 1);
    }
  }

  // What is left of a loop after its test came out true.
  function AfterRound(vars: seq<Variable>, vals: seq<int>, s: Stmt, result: Scalar, fuel: nat): Ending
    requires |vals| == |vars| && s.While? && Known(vars, s) && fuel > 0
  {
    match Cut(Run(vars, vals, s.inner, result, fuel - 1), |vars|)
    case Falls(vals2) => RunLoop(vars, vals2, s, result, fuel - 1)
    case Continues(vals2) => RunLoop(vars, vals2, s, result, fuel - 1)
    case Breaks(vals2) => Falls(vals2)
    case other => other
  }

  function ExecRound(out: Outcome, body: seq<Instr>, fuel: nat): Outcome
    requires fuel > 0
  {
    match out
    case Branch(n, l) => if n == 0 then ExecLoop(body, l, fuel - 1) else Branch(n, l)
    case other => other
  }

  /** The body of a loop: it falls through or continues to the loop's own label, and breaks past it. */
  lemma InnerMatches(end: Ending, out: Outcome, sc: Scope, sc': Scope, labels: Labels, result: Scalar, size: nat)
    requires LabelsOk(labels) && LabelsOk(InLoop(labels)) && Matches(end, out, sc, sc', InLoop(labels), result, size)
    requires Opens(sc'.declared) == Opens(sc.declared)
    ensures var cut := Cut(end, |Opens(sc.declared)|);
            match cut
            case Falls(vals) => out.Next? && Agrees(sc.declared, vals, out.locals) && |out.locals| == size
            case Continues(vals) => out.Branch? && out.n == 0 && Agrees(sc.declared, vals, out.locals) && |out.locals| == size
            case Breaks(vals) => out.Branch? && out.n == 1 && Agrees(sc.declared, vals, out.locals) && |out.locals| == size
            case Returns(v) => out.Returned? && out.value == Some(Val(KindOf(result), Enc(result, v)))
            case Undetermined => true
            case Unfinished => out == Spent
  {
    hide Opens, Agrees, Enc;
    LoopTargets(labels);
    if end.Falls? {
      AgreesPrefix(sc.declared, sc'.declared, end.vals, out.locals);
    }
  }

  // ----- whole functions -----

  // The value of each parameter, in its own slot.
  ghost predicate Arguments(params: seq<Variable>, args: seq<int>) {
    |args| == |params| && forall i | 0 <= i < |params| :: InRange(params[i].t, args[i])
  }

  function DeclareAll(sc: Scope, params: seq<Variable>): Option<Scope>
    decreases |params|
  {
    if params == [] then Some(sc)
    else
      match DeclareAll(sc, params[..|params| - 1])
      case None => None
      case Some(sc1) => Declare(sc1, params[|params| - 1].name, params[|params| - 1].t, false)
  }

  // Each parameter is declared and in the slot of its position.
  ghost predicate InOrder(params: seq<Variable>, sc: Scope) {
    && sc.free == map[] && sc.marks == [] && |sc.declared| == |sc.slotTypes| == |params|
    && (forall i | 0 <= i < |params| :: sc.declared[i] == Entry(params[i].name, Local(params[i].t, i), false, false))
    && Opens(sc.declared) == sc.declared && VarsOf(sc.declared) == params
  }

  lemma NextInOrder(params: seq<Variable>, p: Variable, sc: Scope)
    requires InOrder(params, sc)
    ensures InOrder(params + [p], Bind(sc, p.name, p.t, false))
  {
    var d := Entry(p.name, Local(p.t, |params|), false, false);
    assert Bind(sc, p.name, p.t, false).declared == sc.declared + [d];
    assert (sc.declared + [d])[..|params|] == sc.declared;
  }

  lemma BoundOk(sc: Scope, name: string, t: Scalar)
    requires ScopeOk(sc)
    ensures ScopeOk(Bind(sc, name, t, false))
  {
    hide SlotsOk;
    BindKeeps(sc, name, t, false);
  }

  // Parameters take the first slots, in order.
  lemma {:induction false} ParametersFirst(params: seq<Variable>, sc: Scope)
    requires DeclareAll(EMPTY, params) == Some(sc)
    ensures ScopeOk(sc) && InOrder(params, sc)
    decreases |params|
  {
    hide ScopeOk, InOrder, Bind;
    if params == [] {
      NoParameters();
    } else {
      var init, p := params[..|params| - 1], params[|params| - 1];
      var sc1 := DeclareAll(EMPTY, init).value;
      ParametersFirst(init, sc1);
      NextInOrder(init, p, sc1);
      BoundOk(sc1, p.name, p.t);
      assert params == init + [p];
    }
  }

  lemma NoParameters()
    ensures ScopeOk(EMPTY) && InOrder([], EMPTY)
  {
    EmptyOk();
  }

  /** A function's code: its body as a block, and a trailing `unreachable`. */
  function EmitFunction(params: seq<Variable>, body: seq<Stmt>, result: Scalar): Option<Emitted> {
    match DeclareAll(EMPTY, params)
    case None => None
    case Some(sc) =>
      match EmitStmt(sc, Labels(0, [], []), Compound(body), result)
      case None => None
      case Some(r) => Some(Emitted(r.code + [Unreachable], r.scope))
  }

  // The locals a call starts with: the arguments, then whatever the other slots hold.
  ghost predicate CalledWith(params: seq<Variable>, args: seq<int>, r: Emitted, l: seq<Val>) {
    && Arguments(params, args) && |params| <= |r.scope.slotTypes| == |l|
    && forall i | 0 <= i < |params| :: l[i] == Val(KindOf(params[i].t), Enc(params[i].t, args[i]))
  }

  // The body, in the scope of the parameters and with no labels around it.
  lemma BodyCorrect(params: seq<Variable>, body: seq<Stmt>, result: Scalar, r: Emitted, args: seq<int>, l: seq<Val>, fuel: nat)
      returns (sc: Scope, code: seq<Instr>)
    requires EmitFunction(params, body, result) == Some(r) && Placed(Compound(body)) && Fits(params, Compound(body)) && CalledWith(params, args, r, l)
    ensures Known(params, Compound(body)) && r.code == code + [Unreachable]
    ensures Matches(Run(params, args, Compound(body), result, fuel), Exec(code, l, [], fuel), sc, r.scope, Labels(0, [], []), result, |l|)
  {
    hide EmitStmt, Run, Exec, Enc, InRange, Agrees, Opens, VarsOf, ScopeOk, OuterAgrees, Matches;
    sc := DeclareAll(EMPTY, params).value;
    ParametersFirst(params, sc);
    var labels := Labels(0, [], []);
    var s := Compound(body);
    var c := EmitStmt(sc, labels, s, result).value;
    code := c.code;
    StmtLeaves(sc, labels, s, result, c);
    ArgumentsAgree(params, args, sc, l);
    SetNow(sc, r.scope, args, l);
    StmtCorrect(sc, labels, s, result, c, args, l, fuel);
  }

  /** A call of the compiled function returns what its body means, runs as long as it does, and traps
      where it flows off the end. */
  lemma FunctionCorrect(params: seq<Variable>, body: seq<Stmt>, result: Scalar, r: Emitted, args: seq<int>, l: seq<Val>, fuel: nat)
    requires EmitFunction(params, body, result) == Some(r) && Placed(Compound(body)) && Fits(params, Compound(body)) && CalledWith(params, args, r, l)
    ensures Known(params, Compound(body))
    ensures match Run(params, args, Compound(body), result, fuel)
            case Returns(v) => Exec(r.code, l, [], fuel).Returned? && Exec(r.code, l, [], fuel).value == Some(Val(KindOf(result), Enc(result, v)))
            case Falls(_) => Exec(r.code, l, [], fuel) == Trap
            case Unfinished => Exec(r.code, l, [], fuel) == Spent
            case Undetermined => true
            case _ => false
  {
    hide EmitFunction, Run, Exec, Enc, InRange, Agrees, VarsOf, OuterAgrees, CalledWith, Placed;
    var sc, code := BodyCorrect(params, body, result, r, args, l, fuel);
    ExecAppend(code, [Unreachable], l, [], fuel);
    var out := Exec(code, l, [], fuel);
    if out.Next? { ExecSingle(Unreachable, out.locals, out.stack, fuel); }
  }

  lemma SetNow(sc: Scope, sc': Scope, vals: seq<int>, l: seq<Val>)
    requires ScopeOk(sc) && Agrees(sc.declared, vals, l) && |sc'.slotTypes| <= |l|
    ensures Set(sc, sc', vals, l)
  {
  }

  lemma ArgumentsAgree(params: seq<Variable>, args: seq<int>, sc: Scope, l: seq<Val>)
    requires Arguments(params, args) && |params| <= |l| && |sc.declared| == |params| && Opens(sc.declared) == sc.declared
    requires forall i | 0 <= i < |params| :: sc.declared[i] == Entry(params[i].name, Local(params[i].t, i), false, false)
    requires forall i | 0 <= i < |params| :: l[i] == Val(KindOf(params[i].t), Enc(params[i].t, args[i]))
    ensures Agrees(sc.declared, args, l)
  {
    hide Opens, Enc, InRange;
  }
}
