/** LALR(1) lookaheads by propagation over the LR(0) automaton, and FOLLOW sets (src/lalr.ts:155-261). */
module Lookaheads {
  import opened Options
  import opened Grammars
  import opened FirstSets
  import opened Automata

  type Table = seq<map<Item, set<Terminal>>>   // indexed by state

  function At(la: Table, s: nat, it: Item): set<Terminal> {
    if s < |la| && it in la[s] then la[s][it] else {}
  }

  // What follows the symbol after the dot.
  function Rest(g: Grammar, it: Item): seq<Symbol> {
    if it.rule < |g| && it.dot < |g[it.rule].rhs| then g[it.rule].rhs[it.dot + 1..] else []
  }

  // The state reached from state 0 along `path`.
  function StateAfter(a: Automaton, path: seq<Symbol>): Option<nat> {
    if path == [] then Some(0)
    else
      var x := path[|path| - 1];
      match StateAfter(a, path[..|path| - 1])
      case Some(s) => if s < |a.trans| && x in a.trans[s] then Some(a.trans[s][x]) else None
      case None => None
  }

  // ----- canonical LR(1) items -----

  /** How an item comes to be valid for a viable prefix: the start item, a production called for by
      an item (`ahead` is the lookahead it is given), or an item moved over its next symbol. */
  datatype Origin = Initial | Called(caller: Origin, rule: nat, ahead: Terminal) | Moved(from: Origin)

  function PathOf(g: Grammar, o: Origin): seq<Symbol> {
    match o
    case Initial => []
    case Called(caller, _, _) => PathOf(g, caller)
    case Moved(from) =>
      var n := Next(g, ItemOf(o.from));
      PathOf(g, from) + (if n.Some? then [n.value] else [])
  }

  function ItemOf(o: Origin): Item {
    match o
    case Initial => Item(0, 0)
    case Called(_, r, _) => Item(r, 0)
    case Moved(from) => Advance(ItemOf(from))
  }

  function AheadOf(o: Origin): Terminal {
    match o
    case Initial => End
    case Called(_, _, t) => t
    case Moved(from) => AheadOf(from)
  }

  /** Closure and goto of the canonical LR(1) construction: a called production's lookahead is in
      FIRST of what follows the call and then the caller's lookahead. */
  ghost predicate Legal(g: Grammar, fm: FirstMap, o: Origin) {
    match o
    case Initial => true
    case Called(caller, r, t) =>
      Legal(g, fm, caller) && Calls(g, ItemOf(caller), r) && t in FirstOf(fm, Rest(g, ItemOf(caller)) + [Term(AheadOf(caller))])
    case Moved(from) => Legal(g, fm, from) && Next(g, ItemOf(from)).Some?
  }

  /** The LR(1) item [it, t] is valid for the viable prefix `path`. */
  ghost predicate ValidItem(g: Grammar, fm: FirstMap, path: seq<Symbol>, it: Item, t: Terminal) {
    exists o :: Legal(g, fm, o) && PathOf(g, o) == path && ItemOf(o) == it && AheadOf(o) == t
  }

  /** Merging the canonical LR(1) items over every viable prefix that reaches `s`. */
  ghost predicate Merged(g: Grammar, fm: FirstMap, a: Automaton, s: nat, it: Item, t: Terminal) {
    exists path :: StateAfter(a, path) == Some(s) && ValidItem(g, fm, path, it, t)
  }

  // ----- what propagation establishes -----

  // The lookaheads of `it` have reached the productions it calls for and the item it moves to.
  ghost predicate Propagated(g: Grammar, fm: FirstMap, a: Automaton, la: Table, s: nat, it: Item)
    requires s < |a.trans|
  {
    && (forall r | Calls(g, it, r) :: Given(g, fm, la, s, it, r))
    && (Next(g, it).Some? && Next(g, it).value in a.trans[s] ==>
          At(la, s, it) <= At(la, a.trans[s][Next(g, it).value], Advance(it)))
  }

  ghost predicate Given(g: Grammar, fm: FirstMap, la: Table, s: nat, it: Item, r: nat) {
    && FirstOf(fm, Rest(g, it)) <= At(la, s, Item(r, 0))
    && (NullableSeq(fm, Rest(g, it)) ==> At(la, s, it) <= At(la, s, Item(r, 0)))
  }

  // Every item that has lookaheads has propagated them.
  ghost predicate LaClosed(g: Grammar, fm: FirstMap, a: Automaton, la: Table) {
    && End in At(la, 0, Item(0, 0))
    && forall s, it | 0 <= s < |a.states| && s < |a.trans| && it in a.states[s] && At(la, s, it) != {} ::
         Propagated(g, fm, a, la, s, it)
  }

  // ----- completeness: every valid LR(1) item is there -----

  lemma FirstOfEnding(fm: FirstMap, b: seq<Symbol>, t: Terminal)
    requires Term(t) in fm ==> fm[Term(t)] == First({t}, false)
    ensures FirstOf(fm, b + [Term(t)]) <= FirstOf(fm, b) + (if NullableSeq(fm, b) then {t} else {})
  {
    FirstOfAppend(fm, b, [Term(t)]);
    assert [Term(t)][1..] == [];
  }

  // The item of a valid origin is in the state its prefix reaches.
  lemma {:induction false} OriginInState(g: Grammar, fm: FirstMap, a: Automaton, o: Origin)
    requires AutomatonOk(g, a) && Legal(g, fm, o)
    ensures StateAfter(a, PathOf(g, o)).Some?
    ensures var s := StateAfter(a, PathOf(g, o)).value; s < |a.states| && ItemOf(o) in a.states[s]
  {
    match o
    case Initial =>
      assert Item(0, 0) in Items(a.states[0]);
    case Called(caller, r, _) =>
      OriginInState(g, fm, a, caller);
      var s := StateAfter(a, PathOf(g, o)).value;
      CallInState(g, a, s, ItemOf(caller), r);
    case Moved(from) =>
      OriginInState(g, fm, a, from);
      var s := StateAfter(a, PathOf(g, from)).value;
      var x := Next(g, ItemOf(from)).value;
      MoveInState(g, a, s, ItemOf(from), x);
      assert PathOf(g, o)[..|PathOf(g, o)| - 1] == PathOf(g, from);
  }

  lemma StateClosed(g: Grammar, a: Automaton, s: nat)
    requires AutomatonOk(g, a) && s < |a.states|
    ensures ClosedUnder(g, Items(a.states[s]))
  {
    if s > 0 {
      assert Discovered(a.trans, s);
      var p: nat :| p < |a.trans| && p < s && Leads(a.trans[p], s);
      var x :| LeadsTo(a.trans[p], x, s);
      assert RowOk(g, a.states, a.trans[p], p);
      assert MoveOk(g, a.states, p, x, s);
    }
  }

  lemma CallInState(g: Grammar, a: Automaton, s: nat, it: Item, r: nat)
    requires AutomatonOk(g, a) && s < |a.states| && it in a.states[s] && Calls(g, it, r)
    ensures Item(r, 0) in a.states[s]
  {
    StateClosed(g, a, s);
    assert it in Items(a.states[s]);
    assert Item(r, 0) in Items(a.states[s]);
  }

  lemma MoveInState(g: Grammar, a: Automaton, s: nat, it: Item, x: Symbol)
    requires AutomatonOk(g, a) && s < |a.states| && it in a.states[s] && Next(g, it) == Some(x)
    ensures x in a.trans[s] && a.trans[s][x] < |a.states| && Advance(it) in a.states[a.trans[s][x]]
  {
    assert RowOk(g, a.states, a.trans[s], s);
    assert it in Items(a.states[s]);
    assert MovesOver(g, Items(a.states[s]), x);
    assert MoveOk(g, a.states, s, x, a.trans[s][x]);
    assert Advance(it) in Kernel(g, Items(a.states[s]), x);
    assert Advance(it) in Items(a.states[a.trans[s][x]]);
  }

  /** No valid LR(1) item is missed. */
  lemma {:induction false} ValidItemsFound(g: Grammar, fm: FirstMap, a: Automaton, la: Table, o: Origin)
    requires AutomatonOk(g, a) && Closed(g, fm) && LaClosed(g, fm, a, la) && Legal(g, fm, o)
    ensures StateAfter(a, PathOf(g, o)).Some?
    ensures AheadOf(o) in At(la, StateAfter(a, PathOf(g, o)).value, ItemOf(o))
  {
    OriginInState(g, fm, a, o);
    match o
    case Initial =>
    case Called(caller, r, t) =>
      OriginInState(g, fm, a, caller);
      ValidItemsFound(g, fm, a, la, caller);
      var s := StateAfter(a, PathOf(g, caller)).value;
      assert Propagated(g, fm, a, la, s, ItemOf(caller));
      assert Given(g, fm, la, s, ItemOf(caller), r);
      FirstOfEnding(fm, Rest(g, ItemOf(caller)), AheadOf(caller));
    case Moved(from) =>
      OriginInState(g, fm, a, from);
      ValidItemsFound(g, fm, a, la, from);
      var s := StateAfter(a, PathOf(g, from)).value;
      var x := Next(g, ItemOf(from)).value;
      MoveInState(g, a, s, ItemOf(from), x);
      assert Propagated(g, fm, a, la, s, ItemOf(from));
      assert PathOf(g, o)[..|PathOf(g, o)| - 1] == PathOf(g, from);
  }

  // ----- leastness: nothing is there without a reason -----

  // An item of the table has called its productions and moved on, taking its lookaheads along.
  ghost predicate Handed(g: Grammar, fm: FirstMap, a: Automaton, la: Table, s: nat, it: Item)
    requires s < |la| && s < |a.trans|
  {
    && (forall r | Calls(g, it, r) :: Item(r, 0) in la[s] && Given(g, fm, la, s, it, r))
    && (Next(g, it).Some? && Next(g, it).value in a.trans[s] ==>
          var t := a.trans[s][Next(g, it).value];
          t < |la| && Advance(it) in la[t] && At(la, s, it) <= At(la, t, Advance(it)))
  }

  ghost predicate SelfContained(g: Grammar, fm: FirstMap, a: Automaton, la: Table) {
    && |la| == |a.states| == |a.trans| && |la| > 0
    && Item(0, 0) in la[0] && End in la[0][Item(0, 0)]
    && forall s, it | 0 <= s < |la| && it in la[s] :: Handed(g, fm, a, la, s, it)
  }

  ghost predicate Below(la: Table, la': Table) {
    |la| <= |la'| && forall s, it | 0 <= s < |la| && it in la[s] :: it in la'[s] && At(la, s, it) <= At(la', s, it)
  }

  ghost predicate Least(g: Grammar, fm: FirstMap, a: Automaton, la: Table) {
    forall la' | SelfContained(g, fm, a, la') :: Below(la, la')
  }

  // ----- one update -----

  function Put(la: Table, s: nat, it: Item, terms: set<Terminal>): (la': Table)
    requires s < |la|
    ensures |la'| == |la|
    ensures forall t: nat, x: Item :: At(la', t, x) == if t == s && x == it then At(la, s, it) + terms else At(la, t, x)
  {
    la[s := la[s][it := At(la, s, it) + terms]]
  }

  lemma PutBelow(la: Table, la': Table, s: nat, it: Item, terms: set<Terminal>)
    requires Below(la, la') && s < |la| && it in la'[s] && terms <= At(la', s, it)
    ensures Below(Put(la, s, it, terms), la')
  {
  }

  // What an item hands to a production it calls for.
  function Handout(fm: FirstMap, rest: seq<Symbol>, ahead: set<Terminal>): set<Terminal> {
    FirstOf(fm, rest) + (if NullableSeq(fm, rest) then ahead else {})
  }

  lemma CallLeast(g: Grammar, fm: FirstMap, a: Automaton, la: Table, s: nat, it: Item, r: nat, ahead: set<Terminal>)
    requires |la| == |a.states| == |a.trans| && Least(g, fm, a, la)
    requires s < |la| && it in la[s] && Calls(g, it, r) && ahead <= At(la, s, it)
    ensures Least(g, fm, a, Put(la, s, Item(r, 0), Handout(fm, Rest(g, it), ahead)))
  {
    forall la' | SelfContained(g, fm, a, la') ensures Below(Put(la, s, Item(r, 0), Handout(fm, Rest(g, it), ahead)), la') {
      assert Below(la, la');
      assert Handed(g, fm, a, la', s, it);
      assert Given(g, fm, la', s, it, r);
      PutBelow(la, la', s, Item(r, 0), Handout(fm, Rest(g, it), ahead));
    }
  }

  lemma MoveLeast(g: Grammar, fm: FirstMap, a: Automaton, la: Table, s: nat, it: Item)
    requires |la| == |a.states| == |a.trans| && Least(g, fm, a, la)
    requires s < |la| && it in la[s] && Next(g, it).Some? && Next(g, it).value in a.trans[s]
    requires a.trans[s][Next(g, it).value] < |la|
    ensures Least(g, fm, a, Put(la, a.trans[s][Next(g, it).value], Advance(it), At(la, s, it)))
  {
    var t := a.trans[s][Next(g, it).value];
    forall la' | SelfContained(g, fm, a, la') ensures Below(Put(la, t, Advance(it), At(la, s, it)), la') {
      assert Below(la, la');
      assert Handed(g, fm, a, la', s, it);
      PutBelow(la, la', t, Advance(it), At(la, s, it));
    }
  }

  // ----- the facts a table records, for termination and the pass count -----

  ghost function Facts(la: Table): set<(nat, Item, Terminal)> {
    set s, it, t | 0 <= s < |la| && it in la[s] && t in la[s][it] :: (s, it, t)
  }

  ghost function FactSpace(g: Grammar, a: Automaton): set<(nat, Item, Terminal)> {
    set s, it, t | 0 <= s < |a.states| && it in AllItems(g) && t in TerminalsOf(g) + {End} :: (s, it, t)
  }

  lemma PutFacts(la: Table, s: nat, it: Item, terms: set<Terminal>)
    requires s < |la|
    ensures Facts(la) <= Facts(Put(la, s, it, terms))
    ensures terms <= At(la, s, it) ==> Facts(Put(la, s, it, terms)) == Facts(la)
    ensures !(terms <= At(la, s, it)) ==> Facts(la) < Facts(Put(la, s, it, terms))
    ensures Facts(Put(la, s, it, terms)) <= Facts(la) + set t | t in terms :: (s, it, t)
  {
    var la' := Put(la, s, it, terms);
    forall f | f in Facts(la) ensures f in Facts(la') {
      assert f.2 in At(la', f.0, f.1);
    }
    forall f | f in Facts(la') ensures f in Facts(la) + set t | t in terms :: (s, it, t) {
      assert f.2 in At(la', f.0, f.1);
      if f.2 in At(la, f.0, f.1) { assert f in Facts(la); }
    }
    if !(terms <= At(la, s, it)) {
      var t :| t in terms && t !in At(la, s, it);
      assert t in At(la', s, it);
      assert (s, it, t) in Facts(la') && (s, it, t) !in Facts(la);
    }
  }

  lemma SmallerSet<T>(x: set<T>, y: set<T>)
    requires x <= y
    ensures |x| <= |y| && (x < y ==> |x| < |y|)
  {
    assert y == x + (y - x);
  }

  // ----- the propagation -----

  ghost predicate Inv(g: Grammar, fm: FirstMap, a: Automaton, la: Table) {
    && |la| == |a.states| == |a.trans| && |la| > 0
    && End in At(la, 0, Item(0, 0))
    && Least(g, fm, a, la) && Facts(la) <= FactSpace(g, a)
  }

  ghost predicate Same(la: Table, la': Table) {
    forall s: nat, it: Item :: At(la, s, it) == At(la', s, it)
  }

  ghost predicate Gained(la: Table, la': Table, changed: bool) {
    if changed then Facts(la) < Facts(la') else Same(la, la')
  }

  lemma SameFacts(la: Table, la': Table)
    requires Same(la, la')
    ensures Facts(la) == Facts(la')
  {
    forall f ensures f in Facts(la) <==> f in Facts(la') {
      assert f in Facts(la) <==> f.2 in At(la, f.0, f.1);
      assert f in Facts(la') <==> f.2 in At(la', f.0, f.1);
    }
  }

  lemma GainedTransitive(la0: Table, la1: Table, la2: Table, c: bool, d: bool)
    requires Gained(la0, la1, c) && Gained(la1, la2, d)
    ensures Gained(la0, la2, c || d)
  {
    if !c { SameFacts(la0, la1); }
    if !d { SameFacts(la1, la2); }
  }

  lemma PropagatedSame(g: Grammar, fm: FirstMap, a: Automaton, la: Table, la': Table, s: nat, it: Item)
    requires s < |a.trans| && Same(la, la') && Propagated(g, fm, a, la, s, it)
    ensures Propagated(g, fm, a, la', s, it)
  {
    forall r | Calls(g, it, r) ensures Given(g, fm, la', s, it, r) {
      assert Given(g, fm, la, s, it, r);
    }
  }

  ghost predicate GivenUpTo(g: Grammar, fm: FirstMap, la: Table, s: nat, it: Item, n: nat) {
    forall r | 0 <= r < n && Calls(g, it, r) :: Given(g, fm, la, s, it, r)
  }

  lemma GivenSame(g: Grammar, fm: FirstMap, la: Table, la': Table, s: nat, it: Item, n: nat)
    requires Same(la, la') && GivenUpTo(g, fm, la, s, it, n)
    ensures GivenUpTo(g, fm, la', s, it, n)
  {
    forall r | 0 <= r < n && Calls(g, it, r) ensures Given(g, fm, la', s, it, r) {
      assert Given(g, fm, la, s, it, r);
    }
  }

  // The items of the first `n` states that have lookaheads have propagated them.
  ghost predicate DoneUpTo(g: Grammar, fm: FirstMap, a: Automaton, la: Table, n: nat) {
    n <= |a.states| == |a.trans| && forall s | 0 <= s < n :: DoneInState(g, fm, a, la, s, |a.states[s]|)
  }

  ghost predicate DoneInState(g: Grammar, fm: FirstMap, a: Automaton, la: Table, s: nat, n: nat)
    requires s < |a.states| == |a.trans|
  {
    n <= |a.states[s]| && forall i | 0 <= i < n :: DoneItem(g, fm, a, la, s, a.states[s][i])
  }

  ghost predicate DoneItem(g: Grammar, fm: FirstMap, a: Automaton, la: Table, s: nat, it: Item)
    requires s < |a.trans|
  {
    At(la, s, it) != {} ==> Propagated(g, fm, a, la, s, it)
  }

  lemma DoneItemSame(g: Grammar, fm: FirstMap, a: Automaton, la: Table, la': Table, s: nat, it: Item)
    requires s < |a.trans| && Same(la, la') && DoneItem(g, fm, a, la, s, it)
    ensures DoneItem(g, fm, a, la', s, it)
  {
    if At(la, s, it) != {} { PropagatedSame(g, fm, a, la, la', s, it); }
  }

  // What is done stays done while no lookahead changes, and one more item is done.
  lemma DoneOneMore(g: Grammar, fm: FirstMap, a: Automaton, la: Table, la': Table, s: nat, n: nat)
    requires Same(la, la') && DoneUpTo(g, fm, a, la, s) && s < |a.states| && n < |a.states[s]|
    requires DoneInState(g, fm, a, la, s, n) && DoneItem(g, fm, a, la', s, a.states[s][n])
    ensures DoneUpTo(g, fm, a, la', s) && DoneInState(g, fm, a, la', s, n + 1)
  {
    forall q | 0 <= q < s ensures DoneInState(g, fm, a, la', q, |a.states[q]|) {
      assert DoneInState(g, fm, a, la, q, |a.states[q]|);
      forall i | 0 <= i < |a.states[q]| ensures DoneItem(g, fm, a, la', q, a.states[q][i]) {
        DoneItemSame(g, fm, a, la, la', q, a.states[q][i]);
      }
    }
    forall i | 0 <= i < n + 1 ensures DoneItem(g, fm, a, la', s, a.states[s][i]) {
      if i < n { DoneItemSame(g, fm, a, la, la', s, a.states[s][i]); }
    }
  }

  lemma DoneStateMore(g: Grammar, fm: FirstMap, a: Automaton, la: Table, s: nat)
    requires DoneUpTo(g, fm, a, la, s) && s < |a.states| && DoneInState(g, fm, a, la, s, |a.states[s]|)
    ensures DoneUpTo(g, fm, a, la, s + 1)
  {
  }

  lemma AllDone(g: Grammar, fm: FirstMap, a: Automaton, la: Table)
    requires DoneUpTo(g, fm, a, la, |a.states|) && End in At(la, 0, Item(0, 0))
    ensures LaClosed(g, fm, a, la)
  {
    forall s, it | 0 <= s < |a.states| && it in a.states[s] && At(la, s, it) != {} ensures Propagated(g, fm, a, la, s, it) {
      var i :| 0 <= i < |a.states[s]| && a.states[s][i] == it;
      assert DoneInState(g, fm, a, la, s, |a.states[s]|);
      assert DoneItem(g, fm, a, la, s, a.states[s][i]);
    }
  }

  // FIRST of a known sequence stays within the grammar's terminals.
  lemma {:induction false} FirstOfBounded(g: Grammar, fm: FirstMap, b: seq<Symbol>)
    requires Shape(g, fm)
    ensures FirstOf(fm, b) <= TerminalsOf(g)
  {
    if b != [] { FirstOfBounded(g, fm, b[1..]); }
  }

  lemma AheadBounded(g: Grammar, a: Automaton, la: Table, s: nat, it: Item)
    requires Facts(la) <= FactSpace(g, a) && s < |la|
    ensures At(la, s, it) <= TerminalsOf(g) + {End}
  {
    forall t | t in At(la, s, it) ensures t in TerminalsOf(g) + {End} {
      assert (s, it, t) in Facts(la);
    }
  }

  lemma PutBounded(g: Grammar, a: Automaton, la: Table, s: nat, it: Item, terms: set<Terminal>)
    requires Facts(la) <= FactSpace(g, a) && s < |la| == |a.states|
    requires it in AllItems(g) && terms <= TerminalsOf(g) + {End}
    ensures Facts(Put(la, s, it, terms)) <= FactSpace(g, a)
  {
    PutFacts(la, s, it, terms);
  }

  // The tripwire on the number of passes.
  function MaxPasses(states: nat): nat {
    states * 8 + 1000
  }

  class Propagator {
    const rules: Grammar
    const first: FirstMap
    const automaton: Automaton
    var la: Table

    ghost predicate Valid()
      reads this
    {
      && AutomatonOk(rules, automaton) && Shape(rules, first)
      && Inv(rules, first, automaton, la)
    }

    constructor (g: Grammar, fm: FirstMap, a: Automaton)
      requires WellFormed(g) && Shape(g, fm) && AutomatonOk(g, a)
      ensures rules == g && first == fm && automaton == a
      ensures Valid() && |Facts(la)| > 0
    {
      rules, first, automaton := g, fm, a;
      new;
      var empty := seq(|a.states|, _ => map[]);
      la := Put(empty, 0, Item(0, 0), {End});
      forall la' | SelfContained(g, fm, a, la') ensures Below(la, la') {
        PutBelow(empty, la', 0, Item(0, 0), {End});
      }
      assert (0, Item(0, 0), End) in Facts(la) by { assert End in At(la, 0, Item(0, 0)); }
      assert Facts(empty) == {};
      PutBounded(g, a, empty, 0, Item(0, 0), {End});
    }

    // Add terminals to an item's lookaheads; an item's entry appears even when there is nothing to add.
    method AddLA(s: nat, it: Item, terms: set<Terminal>) returns (added: bool)
      requires s < |la|
      modifies this`la
      ensures la == Put(old(la), s, it, terms)
      ensures Gained(old(la), la, added) && terms <= At(la, s, it)
    {
      PutFacts(la, s, it, terms);
      added := !(terms <= At(la, s, it));
      la := Put(la, s, it, terms);
    }

    // FIRST of what follows the symbol after the dot, and whether it can vanish.
    method FirstOfRest(it: Item) returns (terms: set<Terminal>, restNullable: bool)
      ensures terms == FirstOf(first, Rest(rules, it))
      ensures restNullable == NullableSeq(first, Rest(rules, it))
    {
      var rest := Rest(rules, it);
      terms, restNullable := {}, true;
      var j := 0;
      while j < |rest| && restNullable
        invariant 0 <= j <= |rest|
        invariant restNullable ==> FirstOf(first, rest) == terms + FirstOf(first, rest[j..])
        invariant restNullable ==> forall k | 0 <= k < j :: NullableSym(first, rest[k])
        invariant !restNullable ==> FirstOf(first, rest) == terms && !NullableSeq(first, rest)
      {
        assert rest[j..][1..] == rest[j + 1..];
        terms := terms + TermsOf(first, rest[j]);
        restNullable := NullableSym(first, rest[j]);
        j := j + 1;
      }
    }

    // Give one production `it` calls for what `it` hands out.
    method CallOne(s: nat, it: Item, r: nat, forClosure: set<Terminal>, ghost ahead: set<Terminal>) returns (added: bool)
      requires Valid() && s < |la| && it in la[s] && ahead <= At(la, s, it)
      requires Calls(rules, it, r) && forClosure == Handout(first, Rest(rules, it), ahead) <= TerminalsOf(rules) + {End}
      modifies this`la
      ensures Valid() && Gained(old(la), la, added) && it in la[s] && ahead <= At(la, s, it)
      ensures At(la, s, it) == ahead ==> Given(rules, first, la, s, it, r)
    {
      CallLeast(rules, first, automaton, la, s, it, r, ahead);
      PutBounded(rules, automaton, la, s, Item(r, 0), forClosure);
      added := AddLA(s, Item(r, 0), forClosure);
    }

    // Closure: give the productions of `it`'s next symbol what can follow them.
    method Call(s: nat, it: Item) returns (changed: bool)
      requires Valid() && s < |la| && it in la[s]
      modifies this`la
      ensures Valid() && Gained(old(la), la, changed) && it in la[s]
      ensures !changed ==> GivenUpTo(rules, first, la, s, it, |rules|)
    {
      hide FirstOf, NullableSeq, Least, Facts, FactSpace, Shape;
      changed := false;
      var terms, restNullable := FirstOfRest(it);
      ghost var start, ahead := la, At(la, s, it);
      var forClosure := terms + (if restNullable then la[s][it] else {});
      assert forClosure == Handout(first, Rest(rules, it), ahead);
      FirstOfBounded(rules, first, Rest(rules, it));
      AheadBounded(rules, automaton, la, s, it);
      for r := 0 to |rules|
        invariant Valid() && s < |la| && it in la[s] && ahead <= At(la, s, it)
        invariant Gained(start, la, changed)
        invariant !changed ==> GivenUpTo(rules, first, la, s, it, r)
      {
        if Next(rules, it) == Some(NonTerm(rules[r].lhs)) {
          ghost var was, before := changed, la;
          var added := CallOne(s, it, r, forClosure, ahead);
          GainedTransitive(start, before, la, was, added);
          changed := changed || added;
          if !changed {
            GivenSame(rules, first, before, la, s, it, r);
          }
        }
      }
    }

    // Goto: an item's lookaheads carry over unchanged to the moved item.
    method Shift(s: nat, it: Item) returns (changed: bool)
      requires Valid() && s < |la| && it in la[s] && it in automaton.states[s]
      modifies this`la
      ensures Valid() && Gained(old(la), la, changed)
      ensures !changed && Next(rules, it).Some? && Next(rules, it).value in automaton.trans[s] ==>
                At(la, s, it) <= At(la, automaton.trans[s][Next(rules, it).value], Advance(it))
    {
      changed := false;
      var n := Next(rules, it);
      if n.Some? && n.value in automaton.trans[s] {
        var target := automaton.trans[s][n.value];
        MoveInState(rules, automaton, s, it, n.value);
        MoveLeast(rules, first, automaton, la, s, it);
        AheadBounded(rules, automaton, la, s, it);
        PutBounded(rules, automaton, la, target, Advance(it), la[s][it]);
        changed := AddLA(target, Advance(it), la[s][it]);
      }
    }

    method Propagate(s: nat, it: Item) returns (changed: bool)
      requires Valid() && s < |la| && it in automaton.states[s]
      modifies this`la
      ensures Valid() && Gained(old(la), la, changed)
      ensures !changed ==> DoneItem(rules, first, automaton, la, s, it)
    {
      changed := false;
      if it in la[s] {
        var c := Call(s, it);
        ghost var mid := la;
        var d := Shift(s, it);
        GainedTransitive(old(la), mid, la, c, d);
        changed := c || d;
        if !changed {
          GivenSame(rules, first, mid, la, s, it, |rules|);
        }
      }
    }

    // One pass over every item of every state.
    method Pass() returns (changed: bool)
      requires Valid()
      modifies this`la
      ensures Valid() && Gained(old(la), la, changed)
      ensures !changed ==> LaClosed(rules, first, automaton, la)
    {
      changed := false;
      ghost var start := la;
      for s := 0 to |automaton.states|
        invariant Valid() && Gained(start, la, changed)
        invariant !changed ==> DoneUpTo(rules, first, automaton, la, s)
      {
        var items := automaton.states[s];
        for i := 0 to |items|
          invariant Valid() && Gained(start, la, changed)
          invariant !changed ==> DoneUpTo(rules, first, automaton, la, s)
          invariant !changed ==> DoneInState(rules, first, automaton, la, s, i)
        {
          ghost var was, before := changed, la;
          var c := Propagate(s, items[i]);
          GainedTransitive(start, before, la, was, c);
          changed := changed || c;
          if !changed {
            DoneOneMore(rules, first, automaton, before, la, s, i);
          }
        }
        if !changed { DoneStateMore(rules, first, automaton, la, s); }
      }
      if !changed {
        AllDone(rules, first, automaton, la);
      }
    }

    /** Propagate until nothing changes. Fails only at the tripwire, and then only when the automaton
        has more possible lookahead facts than the tripwire allows passes. */
    method Run() returns (ok: bool)
      requires Valid() && |Facts(la)| > 0
      modifies this`la
      ensures Valid()
      ensures ok ==> LaClosed(rules, first, automaton, la)
      ensures !ok ==> |FactSpace(rules, automaton)| > MaxPasses(|automaton.states|)
    {
      var pass, changed := 0, true;
      while changed
        invariant Valid() && 0 <= pass <= MaxPasses(|automaton.states|)
        invariant changed ==> |Facts(la)| > pass
        invariant !changed ==> LaClosed(rules, first, automaton, la)
        decreases MaxPasses(|automaton.states|) - pass, changed
      {
        pass := pass + 1;
        if pass > MaxPasses(|automaton.states|) {
          SmallerSet(Facts(la), FactSpace(rules, automaton));
          return false;
        }
        ghost var before := la;
        changed := Pass();
        if changed {
          SmallerSet(Facts(before), Facts(la));
        }
      }
      return true;
    }
  }
}
