/** What compiling a statement does to the scope: what was open stays open in its slot, and a block gives
    back everything it declared. */
module ScopesAfter {
  import opened Options
  import opened Slots
  import opened Words
  import opened Cpp
  import opened Wasm
  import opened Emission
  import opened Refinement
  import opened Compiled

  predicate Unpinned(declared: seq<Entry>) {
    forall i | 0 <= i < |declared| :: !declared[i].pinned
  }

  ghost predicate ScopeOk(sc: Scope) {
    SlotsOk(sc) && Unpinned(sc.declared)
  }

  // ----- open declarations -----

  lemma {:induction false} OpensAppend(a: seq<Entry>, b: seq<Entry>)
    ensures Opens(a + b) == Opens(a) + Opens(b)
    decreases |b|
  {
    if b == [] {
      assert a + b == a;
    } else {
      assert (a + b)[..|a + b| - 1] == a + b[..|b| - 1];
      OpensAppend(a, b[..|b| - 1]);
    }
  }

  lemma {:induction false} NoneOpen(declared: seq<Entry>)
    requires forall i | 0 <= i < |declared| :: declared[i].closed
    ensures Opens(declared) == []
  {
    if declared != [] { NoneOpen(declared[..|declared| - 1]); }
  }

  // The index of an open declaration.
  lemma {:induction false} OpenIndex(declared: seq<Entry>, k: nat) returns (i: nat)
    requires k < |Opens(declared)|
    ensures i < |declared| && !declared[i].closed && declared[i] == Opens(declared)[k] && |Opens(declared[..i])| == k
  {
    var n := |declared| - 1;
    if k < |Opens(declared[..n])| {
      i := OpenIndex(declared[..n], k);
      assert declared[..n][..i] == declared[..i];
    } else {
      i := n;
    }
  }

  /** No two variables in scope share a slot. */
  lemma SlotsApart(sc: Scope)
    requires SlotsOk(sc)
    ensures Apart(sc.declared)
  {
    hide Typed, AllOwned, MarksOk;
    forall i, j | 0 <= i < j < |Opens(sc.declared)|
      ensures Opens(sc.declared)[i].local.index != Opens(sc.declared)[j].local.index
    {
      var p := OpenIndex(sc.declared, i);
      var q := OpenIndex(sc.declared, j);
      DifferentOwners(sc, p, q);
    }
  }

  lemma DifferentOwners(sc: Scope, p: nat, q: nat)
    requires OneOwner(sc) && p < |sc.declared| && q < |sc.declared| && p != q && !sc.declared[p].closed && !sc.declared[q].closed
    ensures sc.declared[p].local.index != sc.declared[q].local.index
  {
    var s := sc.declared[p].local.index;
    assert Owns(sc, Declared(p), s);
    if sc.declared[q].local.index == s { assert Owns(sc, Declared(q), s); }
  }

  // ----- declarations -----

  lemma DeclaredAfter(sc: Scope, s: Stmt, r: Emitted)
    requires ScopeOk(sc) && s.Declaration? && EmitDeclaration(sc, s) == Some(r)
    ensures ScopeOk(r.scope) && r.scope == Bind(sc, s.name, s.t, false)
    ensures r.scope.declared == sc.declared + [Entry(s.name, Local(s.t, Allocated(sc, s.t)), false, false)]
    ensures Opens(r.scope.declared) == Opens(sc.declared) + [Entry(s.name, Local(s.t, Allocated(sc, s.t)), false, false)]
    ensures VarsOf(r.scope.declared) == After(VarsOf(sc.declared), s)
    ensures Allocated(sc, s.t) < |r.scope.slotTypes| && sc.slotTypes <= r.scope.slotTypes
  {
    hide SlotsOk;
    BindKeeps(sc, s.name, s.t, false);
    var d := Entry(s.name, Local(s.t, Allocated(sc, s.t)), false, false);
    assert (sc.declared + [d])[..|sc.declared|] == sc.declared;
    AllocatedThere(sc, s.t);
  }

  lemma AllocatedThere(sc: Scope, t: Scalar)
    requires SlotsOk(sc)
    ensures Allocated(sc, t) < |Allocate(sc, t).slotTypes| && sc.slotTypes <= Allocate(sc, t).slotTypes
  {
    hide OneOwner, AllOwned, MarksOk;
    var free := FreeOf(sc.free, t);
    if free != [] { assert Owns(sc, InFree(t, |free| - 1), free[|free| - 1]); }
  }

  // ----- blocks -----

  lemma ClosedAfter(sc: Scope, sc2: Scope)
    requires ScopeOk(sc) && ScopeOk(sc2) && sc2.marks == sc.marks + [|sc.declared|] && sc.declared <= sc2.declared
    ensures ScopeOk(Close(sc2)) && sc.declared <= Close(sc2).declared && Close(sc2).slotTypes == sc2.slotTypes
    ensures Opens(Close(sc2).declared) == Opens(sc.declared)
  {
    hide SlotsOk, Close;
    var n := |sc.declared|;
    CloseKeeps(sc2);
    var after := Close(sc2).declared;
    assert after == after[..n] + after[n..];
    forall i | 0 <= i < n ensures after[..n][i] == sc.declared[i] {}
    assert after[..n] == sc.declared;
    NoneOpen(after[n..]);
    OpensAppend(after[..n], after[n..]);
  }

  /** What compiling a statement leaves of the scope. */
  ghost predicate Leaves(sc: Scope, s: Stmt, sc': Scope) {
    && ScopeOk(sc') && sc.declared <= sc'.declared && sc.slotTypes <= sc'.slotTypes
    && VarsOf(sc'.declared) == After(VarsOf(sc.declared), s)
    && (!s.Declaration? ==> Opens(sc'.declared) == Opens(sc.declared))
  }

  ghost predicate LeavesAll(sc: Scope, body: seq<Stmt>, sc': Scope) {
    && ScopeOk(sc') && sc.declared <= sc'.declared && sc.slotTypes <= sc'.slotTypes
    && VarsOf(sc'.declared) == AfterAll(VarsOf(sc.declared), body)
    && Opens(sc.declared) <= Opens(sc'.declared)
  }

  // The same declarations are open, so the same variables are in scope.
  lemma SameVars(a: seq<Entry>, b: seq<Entry>)
    requires Opens(a) == Opens(b)
    ensures VarsOf(a) == VarsOf(b)
  {
  }

  lemma {:induction false} StmtLeaves(sc: Scope, labels: Labels, s: Stmt, result: Scalar, r: Emitted)
    requires ScopeOk(sc) && LabelsOk(labels) && EmitStmt(sc, labels, s, result) == Some(r) && Placed(s)
    ensures Leaves(sc, s, r.scope) && Known(VarsOf(sc.declared), s)
    decreases s, 1
  {
    hide ScopeOk, LabelsOk, EmitExpr, Close, Opens, VarsOf, EmitDeclaration;
    match s
    case Compound(body) =>
      var c := EmitAll(Open(sc), labels, body, result).value;
      OpenedOk(sc);
      AllLeaves(Open(sc), labels, body, result, c);
      ClosedAfter(sc, c.scope);
      SameVars(sc.declared, Close(c.scope).declared);
    case Declaration(_, _, _, _) =>
      DeclaredAfter(sc, s, r);
      DeclaredKnown(sc, s, r);
    case Expression(e) => TypeAgrees(sc.declared, e);
    case Conditional(c, y, hasElse, n) =>
      TypeAgrees(sc.declared, c);
      DeeperOk(labels);
      var a := EmitStmt(sc, Deeper(labels), y, result).value;
      StmtLeaves(sc, Deeper(labels), y, result, a);
      if hasElse {
        var b := EmitStmt(a.scope, Deeper(labels), n, result).value;
        StmtLeaves(a.scope, Deeper(labels), n, result, b);
        PrefixTwice(sc.declared, a.scope.declared, b.scope.declared);
      }
    case While(c, b) =>
      TypeAgrees(sc.declared, c);
      InLoopOk(labels);
      StmtLeaves(sc, InLoop(labels), b, result, EmitStmt(sc, InLoop(labels), b, result).value);
    case Result(e) => TypeAgrees(sc.declared, e);
    case _ =>
  }

  lemma DeeperOk(labels: Labels)
    requires LabelsOk(labels)
    ensures LabelsOk(Deeper(labels))
  {
  }

  lemma InLoopOk(labels: Labels)
    requires LabelsOk(labels)
    ensures LabelsOk(InLoop(labels))
  {
  }

  lemma PrefixTwice<T>(a: seq<T>, b: seq<T>, c: seq<T>)
    requires a <= b && b <= c
    ensures a <= c
  {
  }

  lemma OpenedOk(sc: Scope)
    requires ScopeOk(sc)
    ensures ScopeOk(Open(sc)) && Open(sc).declared == sc.declared && Open(sc).marks == sc.marks + [|sc.declared|] && Open(sc).slotTypes == sc.slotTypes
  {
    hide SlotsOk;
    OpenKeeps(sc);
  }

  lemma DeclaredKnown(sc: Scope, s: Stmt, r: Emitted)
    requires s.Declaration? && EmitDeclaration(sc, s) == Some(r)
    ensures Known(VarsOf(sc.declared), s)
  {
    hide VarsOf, EmitExpr;
    if s.hasInit { TypeAgrees(sc.declared, s.init); }
  }

  lemma {:induction false} AllLeaves(sc: Scope, labels: Labels, body: seq<Stmt>, result: Scalar, r: Emitted)
    requires ScopeOk(sc) && LabelsOk(labels) && EmitAll(sc, labels, body, result) == Some(r)
    requires forall i | 0 <= i < |body| :: Placed(body[i])
    ensures LeavesAll(sc, body, r.scope) && KnownAll(VarsOf(sc.declared), body)
    decreases body, 0
  {
    hide ScopeOk, LabelsOk, Opens, VarsOf, EmitStmt;
    if body != [] {
      var a := EmitStmt(sc, labels, body[0], result).value;
      StmtLeaves(sc, labels, body[0], result, a);
      var b := EmitAll(a.scope, labels, body[1..], result).value;
      AllLeaves(a.scope, labels, body[1..], result, b);
      PrefixTwice(sc.declared, a.scope.declared, b.scope.declared);
      OpensPrefix(sc.declared, a.scope.declared);
    }
  }

  lemma OpensPrefix(a: seq<Entry>, b: seq<Entry>)
    requires a <= b
    ensures Opens(a) <= Opens(b)
  {
    OpensAppend(a, b[|a|..]);
    assert b == a + b[|a|..];
  }
}
