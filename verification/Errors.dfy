/** Exactly which programs the back end refuses (src/examples/CPP/backend.ts:201, 240, 321, 343-351;
    src/examples/wasm-codegen.ts:409-415). */
module Errors {
  import opened Options
  import opened Slots
  import opened Words
  import opened Cpp
  import opened Wasm
  import opened Emission
  import opened Compiled
  import opened ScopesAfter

  /** Every name is known, no block declares a name twice, and `break` and `continue` are inside loops.
      The variables from `start` on are those of the innermost block. */
  predicate Legal(vars: seq<Variable>, start: nat, inLoop: bool, s: Stmt)
    decreases s, 1
  {
    match s
    case Empty => true
    case Compound(body) => LegalAll(vars, |vars|, inLoop, body)
    case Declaration(x, _, hasInit, init) => (hasInit ==> TypeOf(vars, init).Some?) && !DeclaredFrom(vars, start, x)
    case Expression(e) => TypeOf(vars, e).Some?
    case Conditional(c, y, hasElse, n) =>
      TypeOf(vars, c).Some? && Legal(vars, start, inLoop, y) && (hasElse ==> Legal(vars, start, inLoop, n))
    case While(c, b) => TypeOf(vars, c).Some? && Legal(vars, start, true, b)
    case Break => inLoop
    case Continue => inLoop
    case Result(e) => TypeOf(vars, e).Some?
  }

  predicate LegalAll(vars: seq<Variable>, start: nat, inLoop: bool, body: seq<Stmt>)
    decreases body, 0
  {
    body == [] || (Legal(vars, start, inLoop, body[0]) && LegalAll(After(vars, body[0]), start, inLoop, body[1..]))
  }

  predicate DeclaredFrom(vars: seq<Variable>, start: nat, name: string) {
    exists k :: start <= k < |vars| && vars[k].name == name
  }

  // How many variables were in scope when the innermost block began.
  function Start(sc: Scope): nat {
    if ScopeStart(sc) <= |sc.declared| then |Opens(sc.declared[..ScopeStart(sc)])| else 0
  }

  lemma {:induction false} OpenPosition(declared: seq<Entry>, i: nat) returns (k: nat)
    requires i < |declared| && !declared[i].closed
    ensures k == |Opens(declared[..i])| && k < |Opens(declared)| && Opens(declared)[k] == declared[i]
  {
    k := |Opens(declared[..i])|;
    assert declared == declared[..i] + declared[i..] && declared[i..] == [declared[i]] + declared[i + 1..];
    OpensAppend(declared[..i], declared[i..]);
    OpensAppend([declared[i]], declared[i + 1..]);
    assert [declared[i]][..0] == [];
    assert Opens([declared[i]]) == [declared[i]];
  }

  lemma OpensMonotone(declared: seq<Entry>, i: nat, j: nat)
    requires i <= j <= |declared|
    ensures |Opens(declared[..i])| <= |Opens(declared[..j])|
  {
    assert declared[..j] == declared[..i] + declared[i..j];
    OpensAppend(declared[..i], declared[i..j]);
  }

  lemma OpensStrict(declared: seq<Entry>, i: nat, j: nat)
    requires i < j <= |declared| && !declared[i].closed
    ensures |Opens(declared[..i])| < |Opens(declared[..j])|
  {
    assert declared[..i + 1][..i] == declared[..i];
    OpensMonotone(declared, i + 1, j);
  }

  /** The back end calls a name redeclared just when a variable of the innermost block has it. */
  lemma RedeclaredExactly(sc: Scope, name: string)
    requires ScopeStart(sc) <= |sc.declared|
    ensures Redeclares(sc, name) <==> DeclaredFrom(VarsOf(sc.declared), Start(sc), name)
  {
    hide Opens, VarsOf;
    var vars, m := VarsOf(sc.declared), ScopeStart(sc);
    if Redeclares(sc, name) {
      var i :| m <= i < |sc.declared| && !sc.declared[i].closed && sc.declared[i].name == name;
      var k := OpenPosition(sc.declared, i);
      OpensMonotone(sc.declared, m, i);
      assert vars[k].name == name;
    }
    if DeclaredFrom(vars, Start(sc), name) {
      var k: nat :| Start(sc) <= k < |vars| && vars[k].name == name;
      var i := OpenIndex(sc.declared, k);
      if i < m { OpensStrict(sc.declared, i, m); }
    }
  }

  // The innermost block began where it did, however much was declared since.
  lemma StartStays(sc: Scope, sc': Scope)
    requires sc.declared <= sc'.declared && sc'.marks == sc.marks && ScopeStart(sc) <= |sc.declared|
    ensures Start(sc') == Start(sc) && ScopeStart(sc') == ScopeStart(sc)
  {
    assert sc'.declared[..ScopeStart(sc)] == sc.declared[..ScopeStart(sc)];
  }

  lemma MarksInside(sc: Scope)
    requires ScopeOk(sc)
    ensures ScopeStart(sc) <= |sc.declared|
  {
    hide Typed, OneOwner, AllOwned;
  }

  lemma OpenStart(sc: Scope)
    ensures Start(Open(sc)) == |VarsOf(sc.declared)| && VarsOf(Open(sc).declared) == VarsOf(sc.declared)
  {
    assert sc.declared[..|sc.declared|] == sc.declared;
  }

  // Both targets are there, or neither.
  predicate BothOrNeither(labels: Labels) {
    labels.breaks == [] <==> labels.continues == []
  }

  // ----- every statement -----

  /** The variables in scope after a statement was compiled: a declaration that is a whole arm or body stays. */
  function Left(vars: seq<Variable>, s: Stmt): seq<Variable>
    decreases s
  {
    match s
    case Declaration(x, t, _, _) => vars + [Variable(x, t)]
    case Conditional(_, y, hasElse, n) => if hasElse then Left(Left(vars, y), n) else Left(vars, y)
    case While(_, b) => Left(vars, b)
    case _ => vars
  }

  /** What the back end asks of a statement. */
  predicate Accepted(vars: seq<Variable>, start: nat, inLoop: bool, s: Stmt)
    decreases s, 1
  {
    match s
    case Empty => true
    case Compound(body) => AcceptedAll(vars, |vars|, inLoop, body)
    case Declaration(x, _, hasInit, init) => (hasInit ==> TypeOf(vars, init).Some?) && !DeclaredFrom(vars, start, x)
    case Expression(e) => TypeOf(vars, e).Some?
    case Conditional(c, y, hasElse, n) =>
      TypeOf(vars, c).Some? && Accepted(vars, start, inLoop, y) && (hasElse ==> Accepted(Left(vars, y), start, inLoop, n))
    case While(c, b) => TypeOf(vars, c).Some? && Accepted(vars, start, true, b)
    case Break => inLoop
    case Continue => inLoop
    case Result(e) => TypeOf(vars, e).Some?
  }

  predicate AcceptedAll(vars: seq<Variable>, start: nat, inLoop: bool, body: seq<Stmt>)
    decreases body, 0
  {
    body == [] || (Accepted(vars, start, inLoop, body[0]) && AcceptedAll(Left(vars, body[0]), start, inLoop, body[1..]))
  }

  // Where declarations stand directly inside blocks, nothing else stays in scope.
  lemma {:induction false} PlacedLeft(vars: seq<Variable>, s: Stmt)
    requires Placed(s)
    ensures Left(vars, s) == After(vars, s)
  {
    match s
    case Conditional(_, y, hasElse, n) =>
      PlacedLeft(vars, y);
      if hasElse { PlacedLeft(vars, n); }
    case While(_, b) => PlacedLeft(vars, b);
    case _ =>
  }

  /** Then the back end accepts just the legal statements. */
  lemma {:induction false} PlacedAccepted(vars: seq<Variable>, start: nat, inLoop: bool, s: Stmt)
    requires Placed(s)
    ensures Accepted(vars, start, inLoop, s) <==> Legal(vars, start, inLoop, s)
    decreases s, 1
  {
    match s
    case Compound(body) => AllPlacedAccepted(vars, |vars|, inLoop, body);
    case Conditional(_, y, hasElse, n) =>
      PlacedAccepted(vars, start, inLoop, y);
      PlacedLeft(vars, y);
      if hasElse { PlacedAccepted(vars, start, inLoop, n); }
    case While(_, b) => PlacedAccepted(vars, start, true, b);
    case _ =>
  }

  lemma {:induction false} AllPlacedAccepted(vars: seq<Variable>, start: nat, inLoop: bool, body: seq<Stmt>)
    requires forall i | 0 <= i < |body| :: Placed(body[i])
    ensures AcceptedAll(vars, start, inLoop, body) <==> LegalAll(vars, start, inLoop, body)
    decreases body, 0
  {
    if body != [] {
      PlacedAccepted(vars, start, inLoop, body[0]);
      PlacedLeft(vars, body[0]);
      AllPlacedAccepted(After(vars, body[0]), start, inLoop, body[1..]);
    }
  }

  // What compiling leaves of the scope, wherever declarations stand.
  ghost predicate Stays(sc: Scope, vars: seq<Variable>, sc': Scope) {
    ScopeOk(sc') && sc.declared <= sc'.declared && VarsOf(sc'.declared) == vars
  }

  lemma {:induction false} StmtStays(sc: Scope, labels: Labels, s: Stmt, result: Scalar, r: Emitted)
    requires ScopeOk(sc) && LabelsOk(labels) && EmitStmt(sc, labels, s, result) == Some(r)
    ensures Stays(sc, Left(VarsOf(sc.declared), s), r.scope)
    decreases s, 1
  {
    hide ScopeOk, LabelsOk, EmitExpr, Close, Opens, VarsOf, EmitDeclaration;
    match s
    case Compound(body) =>
      var c := EmitAll(Open(sc), labels, body, result).value;
      OpenedOk(sc);
      AllStays(Open(sc), labels, body, result, c);
      ClosedAfter(sc, c.scope);
      SameVars(sc.declared, Close(c.scope).declared);
    case Declaration(_, _, _, _) => DeclaredAfter(sc, s, r);
    case Conditional(_, y, hasElse, n) =>
      DeeperOk(labels);
      var a := EmitStmt(sc, Deeper(labels), y, result).value;
      StmtStays(sc, Deeper(labels), y, result, a);
      if hasElse {
        var b := EmitStmt(a.scope, Deeper(labels), n, result).value;
        StmtStays(a.scope, Deeper(labels), n, result, b);
        PrefixTwice(sc.declared, a.scope.declared, b.scope.declared);
      }
    case While(_, b) =>
      InLoopOk(labels);
      StmtStays(sc, InLoop(labels), b, result, EmitStmt(sc, InLoop(labels), b, result).value);
    case _ =>
  }

  lemma {:induction false} AllStays(sc: Scope, labels: Labels, body: seq<Stmt>, result: Scalar, r: Emitted)
    requires ScopeOk(sc) && LabelsOk(labels) && EmitAll(sc, labels, body, result) == Some(r)
    ensures ScopeOk(r.scope) && sc.declared <= r.scope.declared
    decreases body, 0
  {
    hide ScopeOk, LabelsOk, Opens, VarsOf, EmitStmt, Left;
    if body != [] {
      var a := EmitStmt(sc, labels, body[0], result).value;
      StmtStays(sc, labels, body[0], result, a);
      var b := EmitAll(a.scope, labels, body[1..], result).value;
      AllStays(a.scope, labels, body[1..], result, b);
      PrefixTwice(sc.declared, a.scope.declared, b.scope.declared);
    }
  }

  lemma DeclarationEmitsExactly(sc: Scope, s: Stmt)
    requires ScopeOk(sc) && s.Declaration?
    ensures EmitDeclaration(sc, s).Some? <==> Accepted(VarsOf(sc.declared), Start(sc), false, s)
  {
    hide ScopeOk, VarsOf, EmitExpr, Redeclares, Start, DeclaredFrom;
    MarksInside(sc);
    RedeclaredExactly(sc, s.name);
    if s.hasInit { TypeAgrees(sc.declared, s.init); }
  }

  /** The back end compiles a statement just when it accepts it so; every other statement makes it throw. */
  lemma {:induction false} EmitsExactly(sc: Scope, labels: Labels, s: Stmt, result: Scalar)
    requires ScopeOk(sc) && LabelsOk(labels) && BothOrNeither(labels)
    ensures EmitStmt(sc, labels, s, result).Some? <==> Accepted(VarsOf(sc.declared), Start(sc), labels.breaks != [], s)
    decreases s, 1
  {
    hide ScopeOk, LabelsOk, VarsOf, Opens, EmitExpr, EmitDeclaration, Start, DeclaredFrom, Left;
    match s
    case Compound(body) =>
      OpenedOk(sc);
      OpenStart(sc);
      AllEmitsExactly(Open(sc), labels, body, result);
    case Declaration(_, _, _, _) => DeclarationEmitsExactly(sc, s);
    case Expression(e) => TypeAgrees(sc.declared, e);
    case Conditional(c, y, hasElse, n) =>
      TypeAgrees(sc.declared, c);
      DeeperOk(labels);
      EmitsExactly(sc, Deeper(labels), y, result);
      ElseEmitsExactly(sc, labels, s, result);
    case While(c, b) =>
      TypeAgrees(sc.declared, c);
      InLoopOk(labels);
      EmitsExactly(sc, InLoop(labels), b, result);
    case Result(e) => TypeAgrees(sc.declared, e);
    case _ =>
  }

  // The other arm, in the scope the first one leaves.
  lemma {:induction false} ElseEmitsExactly(sc: Scope, labels: Labels, s: Stmt, result: Scalar)
    requires ScopeOk(sc) && LabelsOk(labels) && LabelsOk(Deeper(labels)) && BothOrNeither(labels) && s.Conditional?
    ensures var a := EmitStmt(sc, Deeper(labels), s.yes, result);
      a.Some? && s.hasElse ==>
        (EmitStmt(a.value.scope, Deeper(labels), s.no, result).Some?
         <==> Accepted(Left(VarsOf(sc.declared), s.yes), Start(sc), labels.breaks != [], s.no))
    decreases s, 0
  {
    hide ScopeOk, LabelsOk, VarsOf, Opens, EmitStmt, Start, Left;
    var a := EmitStmt(sc, Deeper(labels), s.yes, result);
    if a.Some? && s.hasElse {
      DeeperOk(labels);
      StmtStays(sc, Deeper(labels), s.yes, result, a.value);
      MarksInside(sc);
      StartStays(sc, a.value.scope);
      EmitsExactly(a.value.scope, Deeper(labels), s.no, result);
    }
  }

  lemma {:induction false} AllEmitsExactly(sc: Scope, labels: Labels, body: seq<Stmt>, result: Scalar)
    requires ScopeOk(sc) && LabelsOk(labels) && BothOrNeither(labels)
    ensures EmitAll(sc, labels, body, result).Some? <==> AcceptedAll(VarsOf(sc.declared), Start(sc), labels.breaks != [], body)
    decreases body, 0
  {
    hide ScopeOk, LabelsOk, VarsOf, Opens, EmitStmt, Accepted, Start, Left;
    if body != [] {
      EmitsExactly(sc, labels, body[0], result);
      var a := EmitStmt(sc, labels, body[0], result);
      if a.Some? {
        StmtStays(sc, labels, body[0], result, a.value);
        MarksInside(sc);
        StartStays(sc, a.value.scope);
        AllEmitsExactly(a.value.scope, labels, body[1..], result);
      }
    }
  }

  /** A declaration that is the whole arm of an `if` gets no scope of its own: it compiles, and so does a use
      of its name after the `if`, where the name means nothing. */
  lemma ArmDeclarationLeaks() returns (s: Stmt)
    ensures !Placed(s) && EmitStmt(EMPTY, Labels(0, [], []), s, I32).Some? && !Legal([], 0, false, s)
  {
    hide EmitStmt;
    var d, use := Declaration("y", I32, false, Lit(0)), Expression(Var("y"));
    var arm := Conditional(Lit(1), d, false, Stmt.Empty);
    var body := [arm, use];
    s := Compound(body);
    assert body[1..] == [use] && [use][1..] == [] && !Placed(body[0]);
    LeakAccepted(d, arm, use);
    EmptyOk();
    EmitsExactly(EMPTY, Labels(0, [], []), s, I32);
    assert !Legal([], 0, false, use) && !LegalAll([], 0, false, [use]);
  }

  lemma EmptyOk()
    ensures ScopeOk(EMPTY) && VarsOf(EMPTY.declared) == [] && LabelsOk(Labels(0, [], []))
  {
  }

  lemma LeakAccepted(d: Stmt, arm: Stmt, use: Stmt)
    requires d == Declaration("y", I32, false, Lit(0)) && use == Expression(Var("y")) && arm == Conditional(Lit(1), d, false, Stmt.Empty)
    ensures forall start: nat :: Accepted([], start, false, Compound([arm, use]))
  {
    var y := [Variable("y", I32)];
    assert [arm, use][1..] == [use] && [use][1..] == [] && [] + y == y;
    assert Left([], arm) == y && Accepted([], 0, false, arm);
    assert TypeOf(y, Var("y")).Some?;
    assert AcceptedAll(y, 0, false, [use]);
    assert AcceptedAll([], 0, false, [arm, use]);
  }
}
