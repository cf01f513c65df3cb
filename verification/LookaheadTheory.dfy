/** What the propagated lookaheads mean: the merge of the canonical LR(1) items (src/lalr.ts:195-261). */
module LookaheadTheory {
  import opened Options
  import opened Grammars
  import opened FirstSets
  import opened Automata
  import opened Lookaheads

  // ----- right contexts -----

  // An origin regardless of lookaheads.
  ghost predicate Placed(g: Grammar, o: Origin) {
    match o
    case Initial => true
    case Called(caller, r, _) => Placed(g, caller) && Calls(g, ItemOf(caller), r)
    case Moved(from) => Placed(g, from) && Next(g, ItemOf(from)).Some?
  }

  // What is still to come once the item's rule is complete.
  ghost function ContextOf(g: Grammar, o: Origin): seq<Symbol> {
    match o
    case Initial => [Term(End)]
    case Called(caller, _, _) => Rest(g, ItemOf(caller)) + ContextOf(g, caller)
    case Moved(from) => ContextOf(g, from)
  }

  ghost predicate Reaches(g: Grammar, a: Automaton, o: Origin, s: nat, it: Item) {
    Placed(g, o) && StateAfter(a, PathOf(g, o)) == Some(s) && ItemOf(o) == it
  }

  /** `t` can begin what is to come after `it`, for some viable prefix that reaches `s`. */
  ghost predicate Contextual(g: Grammar, fm: FirstMap, a: Automaton, s: nat, it: Item, t: Terminal) {
    exists o :: Reaches(g, a, o, s, it) && t in FirstOf(fm, ContextOf(g, o))
  }

  ghost predicate Reached(g: Grammar, a: Automaton, s: nat, it: Item) {
    exists o :: Reaches(g, a, o, s, it)
  }

  // ----- contexts are closed under call and move -----

  lemma ReachesCall(g: Grammar, a: Automaton, o: Origin, s: nat, it: Item, r: nat)
    requires Reaches(g, a, o, s, it) && Calls(g, it, r)
    ensures Reaches(g, a, Called(o, r, End), s, Item(r, 0))
  {
  }

  lemma StateMoved(a: Automaton, path: seq<Symbol>, s: nat, x: Symbol)
    requires StateAfter(a, path) == Some(s) && s < |a.trans| && x in a.trans[s]
    ensures StateAfter(a, path + [x]) == Some(a.trans[s][x])
  {
    var more := path + [x];
    assert more[|more| - 1] == x && more[..|more| - 1] == path;
  }

  lemma PathMoved(g: Grammar, o: Origin)
    requires Next(g, ItemOf(o)).Some?
    ensures PathOf(g, Moved(o)) == PathOf(g, o) + [Next(g, ItemOf(o)).value]
  {
  }

  lemma ReachesMove(g: Grammar, a: Automaton, o: Origin, s: nat, it: Item)
    requires Reaches(g, a, o, s, it) && Next(g, it).Some? && s < |a.trans| && Next(g, it).value in a.trans[s]
    ensures Reaches(g, a, Moved(o), a.trans[s][Next(g, it).value], Advance(it))
  {
    hide StateAfter, PathOf, Next;
    StateMoved(a, PathOf(g, o), s, Next(g, it).value);
    PathMoved(g, o);
  }

  lemma {:induction false} PlacedInState(g: Grammar, a: Automaton, o: Origin)
    requires AutomatonOk(g, a) && Placed(g, o)
    ensures StateAfter(a, PathOf(g, o)).Some?
    ensures var s := StateAfter(a, PathOf(g, o)).value; s < |a.states| && ItemOf(o) in a.states[s]
  {
    hide AutomatonOk, StateAfter, Next;
    match o
    case Initial =>
      StartInState(g, a);
    case Called(caller, r, _) =>
      PlacedInState(g, a, caller);
      CallInState(g, a, StateAfter(a, PathOf(g, o)).value, ItemOf(caller), r);
    case Moved(from) =>
      PlacedInState(g, a, from);
      var s, x := StateAfter(a, PathOf(g, from)).value, Next(g, ItemOf(from)).value;
      MoveInState(g, a, s, ItemOf(from), x);
      StartInState(g, a);
      StateMoved(a, PathOf(g, from), s, x);
  }

  lemma StartInState(g: Grammar, a: Automaton)
    requires AutomatonOk(g, a)
    ensures |a.states| == |a.trans| && |a.states| > 0 && Item(0, 0) in a.states[0] && StateAfter(a, []) == Some(0)
  {
    assert Item(0, 0) in Items(a.states[0]);
  }

  lemma ContextKnown(g: Grammar, fm: FirstMap, o: Origin)
    requires Shape(g, fm)
    ensures FirstOf(fm, ContextOf(g, o)) <= TerminalsOf(g) + {End}
  {
    hide Shape, FirstOf, ContextOf;
    FirstOfBounded(g, fm, ContextOf(g, o));
  }

  lemma ReachedKnown(g: Grammar, a: Automaton, s: nat, it: Item)
    requires AutomatonOk(g, a) && Reached(g, a, s, it)
    ensures s < |a.states| && it in AllItems(g)
  {
    hide Reaches, AutomatonOk;
    var o :| Reaches(g, a, o, s, it);
    OriginItemKnown(g, a, o, s, it);
  }

  lemma OriginItemKnown(g: Grammar, a: Automaton, o: Origin, s: nat, it: Item)
    requires AutomatonOk(g, a) && Reaches(g, a, o, s, it)
    ensures s < |a.states| && it in AllItems(g)
  {
    PlacedInState(g, a, o);
    assert StateOk(g, a.states[s]) && it in Items(a.states[s]);
  }

  // ----- the table of contexts -----

  ghost function ContextRow(g: Grammar, fm: FirstMap, a: Automaton, s: nat): map<Item, set<Terminal>> {
    map it | it in AllItems(g) && Reached(g, a, s, it) :: set t | t in TerminalsOf(g) + {End} && Contextual(g, fm, a, s, it, t)
  }

  ghost function ContextTable(g: Grammar, fm: FirstMap, a: Automaton): Table {
    seq(|a.states|, s requires s >= 0 => ContextRow(g, fm, a, s))
  }

  lemma ContextTableAt(g: Grammar, fm: FirstMap, a: Automaton, o: Origin, s: nat, it: Item)
    requires WellFormed(g) && Shape(g, fm) && AutomatonOk(g, a) && Reaches(g, a, o, s, it)
    ensures s < |a.states| && it in ContextTable(g, fm, a)[s]
    ensures FirstOf(fm, ContextOf(g, o)) <= At(ContextTable(g, fm, a), s, it)
  {
    hide WellFormed, AutomatonOk, Shape, Reaches, FirstOf, ContextOf;
    ReachedKnown(g, a, s, it);
    ContextKnown(g, fm, o);
  }

  lemma ContextGives(g: Grammar, fm: FirstMap, a: Automaton, s: nat, it: Item, r: nat)
    requires WellFormed(g) && Shape(g, fm) && AutomatonOk(g, a)
    requires s < |a.states| && it in ContextTable(g, fm, a)[s] && Calls(g, it, r)
    ensures Item(r, 0) in ContextTable(g, fm, a)[s] && Given(g, fm, ContextTable(g, fm, a), s, it, r)
  {
    hide WellFormed, Shape, AutomatonOk, Calls, FirstOf, NullableSeq, Reaches;
    var la, rest := ContextTable(g, fm, a), Rest(g, it);
    var o :| Reaches(g, a, o, s, it);
    ContextCalled(g, fm, a, o, s, it, r);
    FirstOfAppend(fm, rest, ContextOf(g, o));
    if NullableSeq(fm, rest) {
      forall u | u in At(la, s, it) ensures u in At(la, s, Item(r, 0)) {
        var o' :| Reaches(g, a, o', s, it) && u in FirstOf(fm, ContextOf(g, o'));
        ContextCalled(g, fm, a, o', s, it, r);
        FirstOfAppend(fm, rest, ContextOf(g, o'));
      }
    }
  }

  lemma ContextCalled(g: Grammar, fm: FirstMap, a: Automaton, o: Origin, s: nat, it: Item, r: nat)
    requires WellFormed(g) && Shape(g, fm) && AutomatonOk(g, a) && Reaches(g, a, o, s, it) && Calls(g, it, r)
    ensures s < |a.states| && Item(r, 0) in ContextTable(g, fm, a)[s]
    ensures FirstOf(fm, Rest(g, it) + ContextOf(g, o)) <= At(ContextTable(g, fm, a), s, Item(r, 0))
  {
    hide WellFormed, Shape, AutomatonOk, Calls, FirstOf, ContextTable;
    ReachesCall(g, a, o, s, it, r);
    ContextTableAt(g, fm, a, Called(o, r, End), s, Item(r, 0));
  }

  lemma ContextMoves(g: Grammar, fm: FirstMap, a: Automaton, s: nat, it: Item)
    requires WellFormed(g) && Shape(g, fm) && AutomatonOk(g, a)
    requires s < |a.states| == |a.trans| && it in ContextTable(g, fm, a)[s] && Next(g, it).Some? && Next(g, it).value in a.trans[s]
    ensures var q := a.trans[s][Next(g, it).value];
            && q < |a.states| && Advance(it) in ContextTable(g, fm, a)[q]
            && At(ContextTable(g, fm, a), s, it) <= At(ContextTable(g, fm, a), q, Advance(it))
  {
    hide WellFormed, Shape, AutomatonOk, FirstOf, Reaches, Next;
    var la, q := ContextTable(g, fm, a), a.trans[s][Next(g, it).value];
    var o :| Reaches(g, a, o, s, it);
    ReachesMove(g, a, o, s, it);
    ContextTableAt(g, fm, a, Moved(o), q, Advance(it));
    forall u | u in At(la, s, it) ensures u in At(la, q, Advance(it)) {
      var o' :| Reaches(g, a, o', s, it) && u in FirstOf(fm, ContextOf(g, o'));
      ReachesMove(g, a, o', s, it);
      ContextTableAt(g, fm, a, Moved(o'), q, Advance(it));
    }
  }

  lemma ContextSelfContained(g: Grammar, fm: FirstMap, a: Automaton)
    requires WellFormed(g) && Shape(g, fm) && AutomatonOk(g, a)
    ensures SelfContained(g, fm, a, ContextTable(g, fm, a))
  {
    hide WellFormed, Shape, AutomatonOk, Calls, Given, Next, ContextRow;
    var la := ContextTable(g, fm, a);
    ContextStarts(g, fm, a);
    forall s, it | 0 <= s < |la| && it in la[s] ensures Handed(g, fm, a, la, s, it) {
      forall r | Calls(g, it, r) ensures Item(r, 0) in la[s] && Given(g, fm, la, s, it, r) {
        ContextGives(g, fm, a, s, it, r);
      }
      if Next(g, it).Some? && Next(g, it).value in a.trans[s] { ContextMoves(g, fm, a, s, it); }
    }
  }

  lemma ContextStarts(g: Grammar, fm: FirstMap, a: Automaton)
    requires WellFormed(g) && Shape(g, fm) && AutomatonOk(g, a)
    ensures |a.states| == |a.trans| && |a.states| > 0
    ensures Item(0, 0) in ContextTable(g, fm, a)[0] && End in At(ContextTable(g, fm, a), 0, Item(0, 0))
  {
    KnownTerminal(g, fm, End);
    assert Reaches(g, a, Initial, 0, Item(0, 0));
    ContextTableAt(g, fm, a, Initial, 0, Item(0, 0));
    assert End in FirstOf(fm, [Term(End)]);
  }

  lemma KnownTerminal(g: Grammar, fm: FirstMap, t: Terminal)
    requires WellFormed(g) && Shape(g, fm) && t in TerminalsOf(g) + {End}
    ensures fm[Term(t)] == First({t}, false)
  {
    assert g[0].rhs[1] == Term(End);
  }

  // ----- bounds on the lookaheads, for every grammar -----

  /** Whatever the grammar: every canonical LR(1) lookahead is recorded, and whatever is recorded can
      begin what is to come after the item for some viable prefix that reaches the state. */
  lemma LookaheadsBetween(g: Grammar, fm: FirstMap, a: Automaton, la: Table, s: nat, it: Item, t: Terminal)
    requires WellFormed(g) && Closed(g, fm) && Shape(g, fm) && AutomatonOk(g, a)
    requires LaClosed(g, fm, a, la) && Least(g, fm, a, la) && |la| == |a.states|
    ensures Merged(g, fm, a, s, it, t) ==> t in At(la, s, it)
    ensures t in At(la, s, it) ==> Contextual(g, fm, a, s, it, t)
  {
    hide WellFormed, Closed, Shape, AutomatonOk, LaClosed, SelfContained, Legal, Reached;
    if Merged(g, fm, a, s, it, t) {
      var path :| StateAfter(a, path) == Some(s) && ValidItem(g, fm, path, it, t);
      var o :| Legal(g, fm, o) && PathOf(g, o) == path && ItemOf(o) == it && AheadOf(o) == t;
      ValidItemsFound(g, fm, a, la, o);
    }
    if t in At(la, s, it) {
      ContextSelfContained(g, fm, a);
      assert Below(la, ContextTable(g, fm, a));
      assert t in At(ContextTable(g, fm, a), s, it);
    }
  }

  // ----- where the bounds meet -----

  // Every symbol can begin with a terminal or vanish.
  ghost predicate Fertile(g: Grammar, fm: FirstMap) {
    forall s | s in SymbolsOf(g) :: NullableSym(fm, s) || TermsOf(fm, s) != {}
  }

  lemma RestKnown(g: Grammar, it: Item)
    ensures forall i | 0 <= i < |Rest(g, it)| :: Rest(g, it)[i] in SymbolsOf(g)
  {
    forall i | 0 <= i < |Rest(g, it)| ensures Rest(g, it)[i] in SymbolsOf(g) {
      assert Rest(g, it)[i] == g[it.rule].rhs[it.dot + 1 + i];
    }
  }

  lemma {:induction false} FertileSequence(g: Grammar, fm: FirstMap, b: seq<Symbol>)
    requires Fertile(g, fm) && forall i | 0 <= i < |b| :: b[i] in SymbolsOf(g)
    ensures NullableSeq(fm, b) || FirstOf(fm, b) != {}
  {
    if b != [] {
      assert b[0] in SymbolsOf(g);
      FertileSequence(g, fm, b[1..]);
      if NullableSym(fm, b[0]) && NullableSeq(fm, b[1..]) {
        assert b == [b[0]] + b[1..];
        NullableSeqAppend(fm, [b[0]], b[1..]);
      } else if NullableSym(fm, b[0]) {
        var t :| t in FirstOf(fm, b[1..]);
        assert t in FirstOf(fm, b);
      } else {
        var t :| t in TermsOf(fm, b[0]);
        assert t in FirstOf(fm, b);
      }
    }
  }

  // Something comes after every item, be it the end of the input.
  lemma {:induction false} ContextBegins(g: Grammar, fm: FirstMap, o: Origin)
    requires WellFormed(g) && Shape(g, fm) && Fertile(g, fm)
    ensures FirstOf(fm, ContextOf(g, o)) != {}
  {
    hide WellFormed, Shape, Fertile;
    match o
    case Initial =>
      OnlyEnd(g, fm);
    case Called(caller, _, _) =>
      var rest := Rest(g, ItemOf(caller));
      ContextBegins(g, fm, caller);
      RestKnown(g, ItemOf(caller));
      FertileSequence(g, fm, rest);
      FirstOfAppend(fm, rest, ContextOf(g, caller));
    case Moved(from) => ContextBegins(g, fm, from);
  }

  /** Every terminal of a context is the lookahead of a canonical LR(1) item over the same prefix. */
  lemma {:induction false} ContextLegal(g: Grammar, fm: FirstMap, o: Origin, t: Terminal) returns (l: Origin)
    requires WellFormed(g) && Shape(g, fm) && Fertile(g, fm) && Placed(g, o) && t in FirstOf(fm, ContextOf(g, o))
    ensures Legal(g, fm, l) && PathOf(g, l) == PathOf(g, o) && ItemOf(l) == ItemOf(o) && AheadOf(l) == t
  {
    hide WellFormed, Shape, Fertile, FirstOf, NullableSeq;
    match o
    case Initial =>
      l := Initial;
      OnlyEnd(g, fm);
    case Called(caller, r, _) =>
      var rest := Rest(g, ItemOf(caller));
      FirstOfAppend(fm, rest, ContextOf(g, caller));
      ContextKnown(g, fm, caller);
      ContextBegins(g, fm, caller);
      var u :| u in FirstOf(fm, ContextOf(g, caller)) && (t in FirstOf(fm, ContextOf(g, caller)) && t !in FirstOf(fm, rest) ==> u == t);
      var c := ContextLegal(g, fm, caller, u);
      JustTerminal(g, fm, u);
      FirstOfAppend(fm, rest, [Term(u)]);
      l := Called(c, r, t);
    case Moved(from) =>
      var c := ContextLegal(g, fm, from, t);
      l := Moved(c);
  }

  lemma JustTerminal(g: Grammar, fm: FirstMap, u: Terminal)
    requires WellFormed(g) && Shape(g, fm) && u in TerminalsOf(g) + {End}
    ensures u in FirstOf(fm, [Term(u)])
  {
    KnownTerminal(g, fm, u);
  }

  lemma OnlyEnd(g: Grammar, fm: FirstMap)
    requires WellFormed(g) && Shape(g, fm)
    ensures FirstOf(fm, [Term(End)]) == {End}
  {
    KnownTerminal(g, fm, End);
    assert [Term(End)][1..] == [];
  }

  /** The propagated lookaheads are the canonical LR(1) lookaheads merged per LR(0) state: `t` is
      recorded for `it` in state `s` just when some viable prefix reaching `s` has the LR(1) item
      [it, t] valid. (`Fertile` excludes grammars with a symbol that neither vanishes nor begins
      with anything; there an item can be recorded without any lookahead of its own.) */
  lemma LookaheadsExact(g: Grammar, fm: FirstMap, a: Automaton, la: Table, s: nat, it: Item, t: Terminal)
    requires WellFormed(g) && Closed(g, fm) && Shape(g, fm) && AutomatonOk(g, a) && Fertile(g, fm)
    requires LaClosed(g, fm, a, la) && Least(g, fm, a, la) && |la| == |a.states|
    ensures t in At(la, s, it) <==> Merged(g, fm, a, s, it, t)
  {
    hide WellFormed, Closed, Shape, AutomatonOk, LaClosed, Least, Fertile, Legal, FirstOf;
    LookaheadsBetween(g, fm, a, la, s, it, t);
    if Contextual(g, fm, a, s, it, t) {
      var o :| Reaches(g, a, o, s, it) && t in FirstOf(fm, ContextOf(g, o));
      var l := ContextLegal(g, fm, o, t);
      assert ValidItem(g, fm, PathOf(g, l), it, t);
    }
  }

  // ----- exactly when they are the merge -----

  /** No item hands a terminal to what it calls for unless some valid LR(1) item does. */
  ghost predicate HandsNothingNew(g: Grammar, fm: FirstMap, a: Automaton) {
    forall s: nat, it, r: nat, t | Reached(g, a, s, it) && Calls(g, it, r) && t in FirstOf(fm, Rest(g, it)) :: Merged(g, fm, a, s, Item(r, 0), t)
  }

  // The table records the merge, no more and no less.
  ghost predicate RecordsMerge(g: Grammar, fm: FirstMap, a: Automaton, la: Table) {
    forall s: nat, it, t :: t in At(la, s, it) <==> Merged(g, fm, a, s, it, t)
  }

  // A table that propagation can stop at.
  ghost predicate Stops(g: Grammar, fm: FirstMap, a: Automaton, la: Table) {
    LaClosed(g, fm, a, la) && Least(g, fm, a, la) && |la| == |a.states|
  }

  ghost function MergedRow(g: Grammar, fm: FirstMap, a: Automaton, s: nat): map<Item, set<Terminal>> {
    map it | it in AllItems(g) && Reached(g, a, s, it) :: set t | t in TerminalsOf(g) + {End} && Merged(g, fm, a, s, it, t)
  }

  ghost function MergedTable(g: Grammar, fm: FirstMap, a: Automaton): Table {
    seq(|a.states|, s requires s >= 0 => MergedRow(g, fm, a, s))
  }

  ghost predicate ValidAt(g: Grammar, fm: FirstMap, a: Automaton, o: Origin, s: nat, it: Item, t: Terminal) {
    Legal(g, fm, o) && StateAfter(a, PathOf(g, o)) == Some(s) && ItemOf(o) == it && AheadOf(o) == t
  }

  lemma MergedOrigin(g: Grammar, fm: FirstMap, a: Automaton, s: nat, it: Item, t: Terminal) returns (o: Origin)
    requires Merged(g, fm, a, s, it, t)
    ensures ValidAt(g, fm, a, o, s, it, t)
  {
    hide Legal;
    var path :| StateAfter(a, path) == Some(s) && ValidItem(g, fm, path, it, t);
    o :| Legal(g, fm, o) && PathOf(g, o) == path && ItemOf(o) == it && AheadOf(o) == t;
  }

  lemma OriginMerged(g: Grammar, fm: FirstMap, a: Automaton, o: Origin, s: nat, it: Item, t: Terminal)
    requires ValidAt(g, fm, a, o, s, it, t)
    ensures Merged(g, fm, a, s, it, t)
  {
    hide Legal;
    assert ValidItem(g, fm, PathOf(g, o), it, t);
  }

  // What is valid passes on to what it calls for and to where it moves.
  lemma MergedCalled(g: Grammar, fm: FirstMap, a: Automaton, s: nat, it: Item, r: nat, t: Terminal)
    requires WellFormed(g) && Shape(g, fm) && t in TerminalsOf(g) + {End}
    requires Merged(g, fm, a, s, it, t) && Calls(g, it, r) && NullableSeq(fm, Rest(g, it))
    ensures Merged(g, fm, a, s, Item(r, 0), t)
  {
    hide WellFormed, Shape, Merged, FirstOf, NullableSeq;
    var o := MergedOrigin(g, fm, a, s, it, t);
    JustTerminal(g, fm, t);
    FirstOfAppend(fm, Rest(g, it), [Term(t)]);
    OriginMerged(g, fm, a, Called(o, r, t), s, Item(r, 0), t);
  }

  lemma MergedMoved(g: Grammar, fm: FirstMap, a: Automaton, s: nat, it: Item, t: Terminal)
    requires Merged(g, fm, a, s, it, t) && Next(g, it).Some? && s < |a.trans| && Next(g, it).value in a.trans[s]
    ensures Merged(g, fm, a, a.trans[s][Next(g, it).value], Advance(it), t)
  {
    hide Merged, Legal, PathOf, StateAfter;
    var o := MergedOrigin(g, fm, a, s, it, t);
    PathMoved(g, o);
    StateMoved(a, PathOf(g, o), s, Next(g, it).value);
    assert Legal(g, fm, Moved(o)) by { MovedLegal(g, fm, o); }
    OriginMerged(g, fm, a, Moved(o), a.trans[s][Next(g, it).value], Advance(it), t);
  }

  lemma MovedLegal(g: Grammar, fm: FirstMap, o: Origin)
    requires Legal(g, fm, o) && Next(g, ItemOf(o)).Some?
    ensures Legal(g, fm, Moved(o))
  {
  }

  lemma ReachedCall(g: Grammar, a: Automaton, s: nat, it: Item, r: nat)
    requires AutomatonOk(g, a) && Reached(g, a, s, it) && Calls(g, it, r)
    ensures Reached(g, a, s, Item(r, 0)) && s < |a.states| && Item(r, 0) in AllItems(g)
  {
    hide AutomatonOk, Reaches;
    var o :| Reaches(g, a, o, s, it);
    ReachesCall(g, a, o, s, it, r);
    ReachedKnown(g, a, s, Item(r, 0));
  }

  lemma ReachedMove(g: Grammar, a: Automaton, s: nat, it: Item)
    requires AutomatonOk(g, a) && Reached(g, a, s, it) && Next(g, it).Some? && s < |a.trans| && Next(g, it).value in a.trans[s]
    ensures var q := a.trans[s][Next(g, it).value]; Reached(g, a, q, Advance(it)) && q < |a.states| && Advance(it) in AllItems(g)
  {
    hide AutomatonOk, Reaches;
    var o :| Reaches(g, a, o, s, it);
    ReachesMove(g, a, o, s, it);
    ReachedKnown(g, a, a.trans[s][Next(g, it).value], Advance(it));
  }

  lemma StartReached(g: Grammar, a: Automaton)
    requires AutomatonOk(g, a)
    ensures Reached(g, a, 0, Item(0, 0)) && |a.states| == |a.trans| > 0 && Item(0, 0) in AllItems(g)
  {
    assert Reaches(g, a, Initial, 0, Item(0, 0));
    assert Item(0, 0) in Items(a.states[0]);
    assert StateOk(g, a.states[0]);
  }

  lemma MergedSelfContained(g: Grammar, fm: FirstMap, a: Automaton)
    requires WellFormed(g) && Closed(g, fm) && Shape(g, fm) && AutomatonOk(g, a) && HandsNothingNew(g, fm, a)
    ensures SelfContained(g, fm, a, MergedTable(g, fm, a))
  {
    hide WellFormed, Closed, Shape, AutomatonOk, Calls, FirstOf, NullableSeq, Merged, Reached, Next;
    var la := MergedTable(g, fm, a);
    StartReached(g, a);
    OriginMerged(g, fm, a, Initial, 0, Item(0, 0), End);
    forall s, it | 0 <= s < |la| && it in la[s] ensures Handed(g, fm, a, la, s, it) {
      forall r | Calls(g, it, r) ensures Item(r, 0) in la[s] && Given(g, fm, la, s, it, r) {
        ReachedCall(g, a, s, it, r);
        FirstOfBounded(g, fm, Rest(g, it));
        if NullableSeq(fm, Rest(g, it)) {
          forall t | t in At(la, s, it) ensures t in At(la, s, Item(r, 0)) { MergedCalled(g, fm, a, s, it, r, t); }
        }
      }
      if Next(g, it).Some? && Next(g, it).value in a.trans[s] {
        ReachedMove(g, a, s, it);
        forall t | t in At(la, s, it) ensures t in At(la, a.trans[s][Next(g, it).value], Advance(it)) { MergedMoved(g, fm, a, s, it, t); }
      }
    }
  }

  // Every item that is reached is in every self-contained table.
  lemma {:induction false} ReachedThere(g: Grammar, fm: FirstMap, a: Automaton, la: Table, o: Origin)
    requires AutomatonOk(g, a) && SelfContained(g, fm, a, la) && Placed(g, o)
    ensures StateAfter(a, PathOf(g, o)).Some?
    ensures var s := StateAfter(a, PathOf(g, o)).value; s < |la| && ItemOf(o) in la[s]
  {
    hide AutomatonOk, FirstOf, NullableSeq, StateAfter, Next, Given;
    match o
    case Initial =>
      StartInState(g, a);
    case Called(caller, r, _) =>
      ReachedThere(g, fm, a, la, caller);
      assert Handed(g, fm, a, la, StateAfter(a, PathOf(g, caller)).value, ItemOf(caller));
    case Moved(from) =>
      ReachedThere(g, fm, a, la, from);
      PlacedInState(g, a, from);
      var s, x := StateAfter(a, PathOf(g, from)).value, Next(g, ItemOf(from)).value;
      assert Handed(g, fm, a, la, s, ItemOf(from));
      MoveInState(g, a, s, ItemOf(from), x);
      StateMoved(a, PathOf(g, from), s, x);
  }

  lemma ReachedIn(g: Grammar, fm: FirstMap, a: Automaton, la: Table, s: nat, it: Item)
    requires AutomatonOk(g, a) && SelfContained(g, fm, a, la) && Reached(g, a, s, it)
    ensures s < |la| && it in la[s]
  {
    hide AutomatonOk, SelfContained, Placed;
    var o :| Reaches(g, a, o, s, it);
    ReachedThere(g, fm, a, la, o);
  }

  // In every self-contained table.
  ghost predicate Forced(g: Grammar, fm: FirstMap, a: Automaton, s: nat, it: Item, t: Terminal) {
    forall la | SelfContained(g, fm, a, la) :: t in At(la, s, it)
  }

  ghost function ForcedRow(g: Grammar, fm: FirstMap, a: Automaton, s: nat): map<Item, set<Terminal>> {
    map it | it in AllItems(g) && Reached(g, a, s, it) :: set t | t in TerminalsOf(g) + {End} && Forced(g, fm, a, s, it, t)
  }

  // The least self-contained table.
  ghost function ForcedTable(g: Grammar, fm: FirstMap, a: Automaton): Table {
    seq(|a.states|, s requires s >= 0 => ForcedRow(g, fm, a, s))
  }

  lemma ForcedCalled(g: Grammar, fm: FirstMap, a: Automaton, s: nat, it: Item, r: nat, t: Terminal)
    requires AutomatonOk(g, a) && Reached(g, a, s, it) && Calls(g, it, r)
    requires t in FirstOf(fm, Rest(g, it)) || (NullableSeq(fm, Rest(g, it)) && Forced(g, fm, a, s, it, t))
    ensures Forced(g, fm, a, s, Item(r, 0), t)
  {
    hide AutomatonOk, Calls, FirstOf, NullableSeq, Reached;
    forall la | SelfContained(g, fm, a, la) ensures t in At(la, s, Item(r, 0)) {
      ReachedIn(g, fm, a, la, s, it);
      assert Handed(g, fm, a, la, s, it);
      assert Given(g, fm, la, s, it, r);
    }
  }

  lemma ForcedMoved(g: Grammar, fm: FirstMap, a: Automaton, s: nat, it: Item, t: Terminal)
    requires AutomatonOk(g, a) && Reached(g, a, s, it) && Next(g, it).Some? && s < |a.trans| && Next(g, it).value in a.trans[s]
    requires Forced(g, fm, a, s, it, t)
    ensures Forced(g, fm, a, a.trans[s][Next(g, it).value], Advance(it), t)
  {
    hide AutomatonOk, Calls, FirstOf, NullableSeq, Reached, Next;
    forall la | SelfContained(g, fm, a, la) ensures t in At(la, a.trans[s][Next(g, it).value], Advance(it)) {
      ReachedIn(g, fm, a, la, s, it);
      assert Handed(g, fm, a, la, s, it);
    }
  }

  lemma ForcedSelfContained(g: Grammar, fm: FirstMap, a: Automaton)
    requires WellFormed(g) && Closed(g, fm) && Shape(g, fm) && AutomatonOk(g, a)
    ensures SelfContained(g, fm, a, ForcedTable(g, fm, a))
  {
    hide WellFormed, Closed, Shape, AutomatonOk, Calls, FirstOf, NullableSeq, Forced, Reached, Next;
    var la := ForcedTable(g, fm, a);
    StartReached(g, a);
    assert Forced(g, fm, a, 0, Item(0, 0), End) by { StartForced(g, fm, a); }
    forall s, it | 0 <= s < |la| && it in la[s] ensures Handed(g, fm, a, la, s, it) {
      forall r | Calls(g, it, r) ensures Item(r, 0) in la[s] && Given(g, fm, la, s, it, r) {
        ReachedCall(g, a, s, it, r);
        FirstOfBounded(g, fm, Rest(g, it));
        forall t | t in FirstOf(fm, Rest(g, it)) || (NullableSeq(fm, Rest(g, it)) && t in At(la, s, it)) ensures t in At(la, s, Item(r, 0)) {
          ForcedCalled(g, fm, a, s, it, r, t);
        }
      }
      if Next(g, it).Some? && Next(g, it).value in a.trans[s] {
        ReachedMove(g, a, s, it);
        forall t | t in At(la, s, it) ensures t in At(la, a.trans[s][Next(g, it).value], Advance(it)) { ForcedMoved(g, fm, a, s, it, t); }
      }
    }
  }

  lemma StartForced(g: Grammar, fm: FirstMap, a: Automaton)
    ensures Forced(g, fm, a, 0, Item(0, 0), End)
  {
  }

  // It is one that propagation can stop at.
  lemma ForcedStops(g: Grammar, fm: FirstMap, a: Automaton)
    requires WellFormed(g) && Closed(g, fm) && Shape(g, fm) && AutomatonOk(g, a)
    ensures Stops(g, fm, a, ForcedTable(g, fm, a))
  {
    hide WellFormed, Closed, Shape, AutomatonOk, Calls, FirstOf, NullableSeq, Reached, Next;
    var la := ForcedTable(g, fm, a);
    ForcedSelfContained(g, fm, a);
    forall la' | SelfContained(g, fm, a, la') ensures Below(la, la') {
      forall s, it | 0 <= s < |la| && it in la[s] ensures it in la'[s] && At(la, s, it) <= At(la', s, it) { ReachedIn(g, fm, a, la', s, it); }
    }
    SelfContainedCloses(g, fm, a, la);
  }

  lemma SelfContainedCloses(g: Grammar, fm: FirstMap, a: Automaton, la: Table)
    requires SelfContained(g, fm, a, la)
    ensures LaClosed(g, fm, a, la)
  {
    hide FirstOf, NullableSeq;
    forall s, it | 0 <= s < |a.states| && s < |a.trans| && it in a.states[s] && At(la, s, it) != {} ensures Propagated(g, fm, a, la, s, it) {
      assert Handed(g, fm, a, la, s, it);
    }
  }

  /** Whatever propagation stops at is the merge of the LR(1) items just when no item hands out what no valid
      LR(1) item does; where one does, some table that propagation can stop at records more. */
  lemma ExactlyWhen(g: Grammar, fm: FirstMap, a: Automaton)
    requires WellFormed(g) && Closed(g, fm) && Shape(g, fm) && AutomatonOk(g, a)
    ensures HandsNothingNew(g, fm, a) <==> forall la | Stops(g, fm, a, la) :: RecordsMerge(g, fm, a, la)
  {
    hide WellFormed, Closed, Shape, AutomatonOk, LaClosed, Least, Merged, Reached, FirstOf, ForcedTable;
    if HandsNothingNew(g, fm, a) {
      forall la | Stops(g, fm, a, la) ensures RecordsMerge(g, fm, a, la) { StopsAtMerge(g, fm, a, la); }
    }
    if forall la | Stops(g, fm, a, la) :: RecordsMerge(g, fm, a, la) {
      ForcedStops(g, fm, a);
      ForcedSelfContained(g, fm, a);
      forall s: nat, it, r: nat, t | Reached(g, a, s, it) && Calls(g, it, r) && t in FirstOf(fm, Rest(g, it))
        ensures Merged(g, fm, a, s, Item(r, 0), t)
      {
        GivenThere(g, fm, a, ForcedTable(g, fm, a), s, it, r, t);
      }
    }
  }

  lemma GivenThere(g: Grammar, fm: FirstMap, a: Automaton, la: Table, s: nat, it: Item, r: nat, t: Terminal)
    requires AutomatonOk(g, a) && SelfContained(g, fm, a, la) && Reached(g, a, s, it) && Calls(g, it, r) && t in FirstOf(fm, Rest(g, it))
    ensures t in At(la, s, Item(r, 0))
  {
    hide AutomatonOk, Reached, FirstOf;
    ReachedIn(g, fm, a, la, s, it);
    assert Handed(g, fm, a, la, s, it);
    assert Given(g, fm, la, s, it, r);
  }

  lemma StopsAtMerge(g: Grammar, fm: FirstMap, a: Automaton, la: Table)
    requires WellFormed(g) && Closed(g, fm) && Shape(g, fm) && AutomatonOk(g, a) && HandsNothingNew(g, fm, a) && Stops(g, fm, a, la)
    ensures RecordsMerge(g, fm, a, la)
  {
    hide WellFormed, Closed, Shape, AutomatonOk, LaClosed, Merged, Reached, FirstOf, SelfContained, HandsNothingNew, Contextual;
    MergedSelfContained(g, fm, a);
    assert Below(la, MergedTable(g, fm, a));
    forall s: nat, it, t ensures t in At(la, s, it) <==> Merged(g, fm, a, s, it, t) {
      LookaheadsBetween(g, fm, a, la, s, it, t);
      assert t in At(la, s, it) ==> t in At(MergedTable(g, fm, a), s, it);
    }
  }

  /** Where every symbol can begin with a terminal or vanish, no item does. */
  lemma FertileHandsNothingNew(g: Grammar, fm: FirstMap, a: Automaton)
    requires WellFormed(g) && Closed(g, fm) && Shape(g, fm) && AutomatonOk(g, a) && Fertile(g, fm)
    ensures HandsNothingNew(g, fm, a)
  {
    hide WellFormed, Closed, Shape, AutomatonOk, LaClosed, Least, Merged, Fertile, HandsNothingNew;
    forall la | Stops(g, fm, a, la) ensures RecordsMerge(g, fm, a, la) {
      forall s: nat, it, t ensures t in At(la, s, it) <==> Merged(g, fm, a, s, it, t) { LookaheadsExact(g, fm, a, la, s, it, t); }
    }
    ExactlyWhen(g, fm, a);
  }
}
