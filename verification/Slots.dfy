/** Lexical scopes and the reuse of wasm local slots (src/examples/wasm-codegen.ts:280-289, 318-372, 396-420). */
module Slots {
  import opened Options

  // Every type the C++ back end can store; its key is the type itself.
  datatype Scalar = I32 | U32 | I64 | U64

  datatype Local = Local(wtype: Scalar, index: nat)

  datatype Entry = Entry(name: string, local: Local, closed: bool, pinned: bool)

  /** Declarations in order, watermarks of the open scopes, one type per slot, and the free slots by type. */
  datatype Scope = Scope(declared: seq<Entry>, marks: seq<nat>, slotTypes: seq<Scalar>, free: map<Scalar, seq<nat>>)

  const EMPTY := Scope([], [], [], map[])

  function FreeOf(free: map<Scalar, seq<nat>>, t: Scalar): seq<nat> {
    if t in free then free[t] else []
  }

  // ----- the operations -----

  // The innermost binding that is still open.
  function Lookup(declared: seq<Entry>, name: string): Option<Local> {
    if declared == [] then None
    else
      var d := declared[|declared| - 1];
      if !d.closed && d.name == name then Some(d.local) else Lookup(declared[..|declared| - 1], name)
  }

  // A free slot of the type if there is one (the last freed), or a new one.
  function Allocated(sc: Scope, t: Scalar): nat {
    var free := FreeOf(sc.free, t);
    if free != [] then free[|free| - 1] else |sc.slotTypes|
  }

  function Allocate(sc: Scope, t: Scalar): Scope {
    var free := FreeOf(sc.free, t);
    if free != [] then sc.(free := sc.free[t := free[..|free| - 1]]) else sc.(slotTypes := sc.slotTypes + [t])
  }

  function Freed(free: map<Scalar, seq<nat>>, l: Local): map<Scalar, seq<nat>> {
    free[l.wtype := FreeOf(free, l.wtype) + [l.index]]
  }

  function ScopeStart(sc: Scope): nat {
    if sc.marks == [] then 0 else sc.marks[|sc.marks| - 1]
  }

  // Declared and still open in the innermost scope.
  predicate Redeclares(sc: Scope, name: string) {
    exists i :: ScopeStart(sc) <= i < |sc.declared| && !sc.declared[i].closed && sc.declared[i].name == name
  }

  function Bind(sc: Scope, name: string, t: Scalar, pinned: bool): Scope {
    var sc' := Allocate(sc, t);
    sc'.(declared := sc'.declared + [Entry(name, Local(t, Allocated(sc, t)), false, pinned)])
  }

  // `None` when the name is already declared in the innermost scope.
  function Declare(sc: Scope, name: string, t: Scalar, pinned: bool): Option<Scope> {
    if Redeclares(sc, name) then None else Some(Bind(sc, name, t, pinned))
  }

  function Open(sc: Scope): Scope {
    sc.(marks := sc.marks + [|sc.declared|])
  }

  // Close the first `n` declarations from `mark` on.
  function CloseUpTo(sc: Scope, mark: nat, n: nat): (sc': Scope)
    requires mark + n <= |sc.declared|
    ensures |sc'.declared| == |sc.declared| && sc'.marks == sc.marks && sc'.slotTypes == sc.slotTypes
    decreases n
  {
    if n == 0 then sc
    else
      var sc' := CloseUpTo(sc, mark, n - 1);
      CloseOne(sc', mark + n - 1)
  }

  function CloseOne(sc: Scope, i: nat): (sc': Scope)
    ensures |sc'.declared| == |sc.declared| && sc'.marks == sc.marks && sc'.slotTypes == sc.slotTypes
  {
    if i < |sc.declared| && !sc.declared[i].closed && !sc.declared[i].pinned then
      sc.(declared := sc.declared[i := sc.declared[i].(closed := true)], free := Freed(sc.free, sc.declared[i].local))
    else sc
  }

  function Close(sc: Scope): (sc': Scope)
    requires sc.marks != [] && sc.marks[|sc.marks| - 1] <= |sc.declared|
    ensures |sc'.declared| == |sc.declared| && sc'.marks == sc.marks[..|sc.marks| - 1]
  {
    var mark := sc.marks[|sc.marks| - 1];
    var sc' := CloseUpTo(sc, mark, |sc.declared| - mark);
    sc'.(marks := sc.marks[..|sc.marks| - 1])
  }

  // ----- what every operation keeps -----

  // Who a slot belongs to: an open declaration, or a place in the free list of a type.
  datatype Owner = Declared(i: nat) | InFree(t: Scalar, k: nat)

  predicate Owns(sc: Scope, o: Owner, s: nat) {
    match o
    case Declared(i) => i < |sc.declared| && !sc.declared[i].closed && sc.declared[i].local.index == s
    case InFree(t, k) => k < |FreeOf(sc.free, t)| && FreeOf(sc.free, t)[k] == s
  }

  function OwnerType(sc: Scope, o: Owner): Scalar {
    match o
    case Declared(i) => if i < |sc.declared| then sc.declared[i].local.wtype else I32
    case InFree(t, _) => t
  }

  ghost predicate Typed(sc: Scope) {
    forall o, s: nat | Owns(sc, o, s) :: s < |sc.slotTypes| && sc.slotTypes[s] == OwnerType(sc, o)
  }

  ghost predicate OneOwner(sc: Scope) {
    forall o, o', s: nat {:trigger Owns(sc, o, s), Owns(sc, o', s)} | Owns(sc, o, s) && Owns(sc, o', s) :: o == o'
  }

  ghost predicate Owned(sc: Scope, s: nat) {
    exists o :: Owns(sc, o, s)
  }

  ghost predicate AllOwned(sc: Scope) {
    forall s: nat | s < |sc.slotTypes| :: Owned(sc, s)
  }

  ghost predicate MarksOk(sc: Scope) {
    && (forall i | 0 <= i < |sc.marks| :: sc.marks[i] <= |sc.declared|)
    && (forall i, j | 0 <= i <= j < |sc.marks| :: sc.marks[i] <= sc.marks[j])
  }

  /** Each slot is in exactly one open declaration or in exactly one free list, always of its own type. */
  ghost predicate SlotsOk(sc: Scope) {
    Typed(sc) && OneOwner(sc) && AllOwned(sc) && MarksOk(sc)
  }

  lemma EmptyOk()
    ensures SlotsOk(EMPTY)
  {
  }

  // Every slot goes on with the owner it had, except `s`, whose owner `was` (if it had one) gives way to `now`.
  ghost predicate HandsOver(sc: Scope, sc': Scope, s: nat, was: Option<Owner>, now: Owner) {
    && (forall o, x: nat :: Owns(sc', o, x) <==> (o == now && x == s) || (Owns(sc, o, x) && was != Some(o)))
    && (forall o, x: nat | Owns(sc, o, x) && was != Some(o) :: OwnerType(sc', o) == OwnerType(sc, o))
    && if was.Some? then
         Owns(sc, was.value, s) && sc'.slotTypes == sc.slotTypes && OwnerType(sc', now) == OwnerType(sc, was.value)
       else
         s == |sc.slotTypes| && sc'.slotTypes == sc.slotTypes + [OwnerType(sc', now)]
  }

  lemma HandOverKeeps(sc: Scope, sc': Scope, s: nat, was: Option<Owner>, now: Owner)
    requires Typed(sc) && OneOwner(sc) && AllOwned(sc) && HandsOver(sc, sc', s, was, now)
    requires forall x: nat :: !Owns(sc, now, x)
    ensures Typed(sc') && OneOwner(sc') && AllOwned(sc')
  {
    forall o, x: nat | Owns(sc', o, x) ensures x < |sc'.slotTypes| && sc'.slotTypes[x] == OwnerType(sc', o) {
      if !(o == now && x == s) { assert Owns(sc, o, x); }
    }
    forall o, o', x: nat | Owns(sc', o, x) && Owns(sc', o', x) ensures o == o' {
      if x == s && was.Some? { assert Owns(sc, was.value, s); }
    }
    forall x: nat | x < |sc'.slotTypes| ensures Owned(sc', x) {
      if x == s {
        assert Owns(sc', now, s);
      } else {
        assert Owned(sc, x);
        var o :| Owns(sc, o, x);
        assert Owns(sc', o, x);
      }
    }
  }

  // ----- declaring -----

  // The owner an allocation takes the slot from.
  function TakenFrom(sc: Scope, t: Scalar): Option<Owner> {
    var free := FreeOf(sc.free, t);
    if free != [] then Some(InFree(t, |free| - 1)) else None
  }

  lemma BindHandsOver(sc: Scope, name: string, t: Scalar, pinned: bool)
    requires Typed(sc)
    ensures HandsOver(sc, Bind(sc, name, t, pinned), Allocated(sc, t), TakenFrom(sc, t), Declared(|sc.declared|))
    ensures forall x: nat :: !Owns(sc, Declared(|sc.declared|), x)
  {
    hide Typed;
    var sc', free := Bind(sc, name, t, pinned), FreeOf(sc.free, t);
    if free != [] {
      forall u ensures FreeOf(sc'.free, u) == if u == t then free[..|free| - 1] else FreeOf(sc.free, u) {}
    }
  }

  /** Declaring hands a free slot of the type, or a new one, to the declaration. */
  lemma BindKeeps(sc: Scope, name: string, t: Scalar, pinned: bool)
    requires SlotsOk(sc)
    ensures SlotsOk(Bind(sc, name, t, pinned))
  {
    hide Bind, Typed, OneOwner, AllOwned, HandsOver, Owns;
    BindHandsOver(sc, name, t, pinned);
    HandOverKeeps(sc, Bind(sc, name, t, pinned), Allocated(sc, t), TakenFrom(sc, t), Declared(|sc.declared|));
    BindMarks(sc, name, t, pinned);
  }

  lemma BindMarks(sc: Scope, name: string, t: Scalar, pinned: bool)
    requires MarksOk(sc)
    ensures MarksOk(Bind(sc, name, t, pinned))
  {
    forall i | 0 <= i < |sc.marks| ensures sc.marks[i] <= |sc.declared| {}
  }

  // ----- closing -----

  lemma CloseHandsOver(sc: Scope, i: nat)
    requires i < |sc.declared| && !sc.declared[i].closed && !sc.declared[i].pinned
    ensures var l := sc.declared[i].local; var now := InFree(l.wtype, |FreeOf(sc.free, l.wtype)|);
            HandsOver(sc, CloseOne(sc, i), l.index, Some(Declared(i)), now) && forall x: nat :: !Owns(sc, now, x)
  {
    var l, sc' := sc.declared[i].local, CloseOne(sc, i);
    forall u ensures FreeOf(sc'.free, u) == if u == l.wtype then FreeOf(sc.free, u) + [l.index] else FreeOf(sc.free, u) {}
  }

  lemma CloseOneKeeps(sc: Scope, i: nat)
    requires SlotsOk(sc)
    ensures SlotsOk(CloseOne(sc, i))
  {
    hide Typed, OneOwner, AllOwned, HandsOver, Owns;
    if i < |sc.declared| && !sc.declared[i].closed && !sc.declared[i].pinned {
      CloseHandsOver(sc, i);
      var l := sc.declared[i].local;
      HandOverKeeps(sc, CloseOne(sc, i), l.index, Some(Declared(i)), InFree(l.wtype, |FreeOf(sc.free, l.wtype)|));
    }
  }

  lemma {:induction false} CloseUpToKeeps(sc: Scope, mark: nat, n: nat)
    requires SlotsOk(sc) && mark + n <= |sc.declared|
    ensures SlotsOk(CloseUpTo(sc, mark, n)) && |CloseUpTo(sc, mark, n).declared| == |sc.declared|
    ensures CloseUpTo(sc, mark, n).marks == sc.marks && CloseUpTo(sc, mark, n).slotTypes == sc.slotTypes
  {
    hide SlotsOk;
    if n > 0 {
      CloseUpToKeeps(sc, mark, n - 1);
      CloseOneKeeps(CloseUpTo(sc, mark, n - 1), mark + n - 1);
    }
  }

  // What closing does to each declaration: exactly those from the mark on, unless pinned, are closed.
  lemma {:induction false} ClosedFrom(sc: Scope, mark: nat, n: nat, i: nat)
    requires mark + n <= |sc.declared| && i < |sc.declared|
    ensures |CloseUpTo(sc, mark, n).declared| == |sc.declared|
    ensures CloseUpTo(sc, mark, n).declared[i] ==
            if mark <= i < mark + n && !sc.declared[i].pinned then sc.declared[i].(closed := true) else sc.declared[i]
  {
    if n > 0 {
      ClosedFrom(sc, mark, n - 1, i);
      ClosedFrom(sc, mark, n - 1, mark + n - 1);
    }
  }

  lemma SameOwners(sc: Scope, sc': Scope)
    requires Typed(sc) && OneOwner(sc) && AllOwned(sc)
    requires sc'.declared == sc.declared && sc'.slotTypes == sc.slotTypes && sc'.free == sc.free
    ensures Typed(sc') && OneOwner(sc') && AllOwned(sc')
  {
    forall o, s: nat ensures Owns(sc', o, s) == Owns(sc, o, s) && OwnerType(sc', o) == OwnerType(sc, o) {}
    forall s: nat | s < |sc'.slotTypes| ensures Owned(sc', s) {
      assert Owned(sc, s);
      var o :| Owns(sc, o, s);
      assert Owns(sc', o, s);
    }
  }

  lemma OpenKeeps(sc: Scope)
    requires SlotsOk(sc)
    ensures SlotsOk(Open(sc)) && Open(sc).declared == sc.declared
  {
    hide Typed, OneOwner, AllOwned;
    SameOwners(sc, Open(sc));
  }

  /** Closing a scope frees the slots of exactly what was declared in it and is not pinned. */
  lemma CloseKeeps(sc: Scope)
    requires SlotsOk(sc) && sc.marks != []
    ensures SlotsOk(Close(sc)) && |Close(sc).declared| == |sc.declared| && Close(sc).slotTypes == sc.slotTypes
    ensures Close(sc).marks == sc.marks[..|sc.marks| - 1]
    ensures forall i | 0 <= i < |sc.declared| ::
              Close(sc).declared[i] == if i >= sc.marks[|sc.marks| - 1] && !sc.declared[i].pinned then sc.declared[i].(closed := true) else sc.declared[i]
  {
    hide Typed, OneOwner, AllOwned, CloseUpTo;
    var mark := sc.marks[|sc.marks| - 1];
    var n := |sc.declared| - mark;
    var sc' := CloseUpTo(sc, mark, n);
    CloseUpToKeeps(sc, mark, n);
    SameOwners(sc', Close(sc));
    forall i | 0 <= i < |sc.declared|
      ensures Close(sc).declared[i] == if i >= mark && !sc.declared[i].pinned then sc.declared[i].(closed := true) else sc.declared[i]
    {
      ClosedFrom(sc, mark, n, i);
    }
  }

  // ----- what is visible -----

  // A binding is the innermost open one of its name.
  ghost predicate Innermost(declared: seq<Entry>, name: string, i: nat) {
    && i < |declared| && !declared[i].closed && declared[i].name == name
    && forall j | i < j < |declared| :: declared[j].closed || declared[j].name != name
  }

  /** `Lookup` finds the innermost open binding, and fails only when there is none. */
  lemma {:induction false} LookupInnermost(declared: seq<Entry>, name: string)
    ensures Lookup(declared, name).Some? ==>
              exists i: nat :: Innermost(declared, name, i) && declared[i].local == Lookup(declared, name).value
    ensures Lookup(declared, name).None? ==> forall i | 0 <= i < |declared| :: declared[i].closed || declared[i].name != name
  {
    if declared != [] {
      var n := |declared| - 1;
      var d := declared[n];
      if !d.closed && d.name == name {
        assert Innermost(declared, name, n);
      } else {
        LookupInnermost(declared[..n], name);
        if Lookup(declared[..n], name).Some? {
          var i: nat :| Innermost(declared[..n], name, i) && declared[..n][i].local == Lookup(declared[..n], name).value;
          assert Innermost(declared, name, i);
        }
      }
    }
  }
}
