/** The LR(0) automaton (src/lalr.ts:91-153). */
module Automata {
  import opened Options
  import opened Grammars

  datatype Item = Item(rule: nat, dot: nat)

  predicate ItemOk(g: Grammar, it: Item) {
    it.rule < |g| && it.dot <= |g[it.rule].rhs|
  }

  // The symbol after the dot.
  function Next(g: Grammar, it: Item): Option<Symbol> {
    if it.rule < |g| && it.dot < |g[it.rule].rhs| then Some(g[it.rule].rhs[it.dot]) else None
  }

  function Advance(it: Item): Item {
    Item(it.rule, it.dot + 1)
  }

  function Items(its: seq<Item>): set<Item> {
    set it | it in its
  }

  predicate Distinct<T(==)>(s: seq<T>) {
    forall i, j | 0 <= i < j < |s| :: s[i] != s[j]
  }

  // ----- closures -----

  // Item `it` calls for the productions of rule `r`.
  predicate Calls(g: Grammar, it: Item, r: nat) {
    r < |g| && Next(g, it) == Some(NonTerm(g[r].lhs))
  }

  ghost predicate ClosedUnder(g: Grammar, s: set<Item>) {
    forall it, r | it in s && Calls(g, it, r) :: Item(r, 0) in s
  }

  // `it` starts a rule whose left-hand side some item of `s` has after its dot.
  ghost predicate CalledIn(g: Grammar, s: set<Item>, it: Item) {
    it.dot == 0 && exists p :: p in s && Calls(g, p, it.rule)
  }

  /** `s` is the closure of `kernel`: the least set that holds it and what its items call for. */
  ghost predicate IsClosure(g: Grammar, kernel: set<Item>, s: set<Item>) {
    && kernel <= s && ClosedUnder(g, s)
    && (forall c | kernel <= c && ClosedUnder(g, c) :: s <= c)
    && (forall it {:trigger CalledIn(g, s, it)} | it in s && it !in kernel :: CalledIn(g, s, it))
  }

  // The items of `s` that can move over `x`, moved.
  ghost function Kernel(g: Grammar, s: set<Item>, x: Symbol): set<Item> {
    set it | it in s && Next(g, it) == Some(x) :: Advance(it)
  }

  lemma ClosureUnique(g: Grammar, kernel: set<Item>, s: set<Item>, s': set<Item>)
    requires IsClosure(g, kernel, s) && IsClosure(g, kernel, s')
    ensures s == s'
  {
  }

  function AllItems(g: Grammar): set<Item> {
    set r, d | 0 <= r < |g| && 0 <= d <= |g[r].rhs| :: Item(r, d)
  }

  // A closure being built: everything queued so far belongs there.
  ghost predicate Partial(g: Grammar, items: seq<Item>, queue: seq<Item>) {
    var s := Items(queue);
    && items <= queue && Distinct(queue) && s <= AllItems(g)
    && (forall c | Items(items) <= c && ClosedUnder(g, c) :: s <= c)
    && (forall it {:trigger CalledIn(g, s, it)} | it in s && it !in Items(items) :: CalledIn(g, s, it))
  }

  // Queueing what a queued item calls for.
  lemma PartialGrows(g: Grammar, items: seq<Item>, queue: seq<Item>, it: Item, r: nat)
    requires Partial(g, items, queue) && it in queue && Calls(g, it, r) && Item(r, 0) !in queue
    ensures Partial(g, items, queue + [Item(r, 0)])
    ensures Items(queue + [Item(r, 0)]) == Items(queue) + {Item(r, 0)}
  {
    var s, s' := Items(queue), Items(queue + [Item(r, 0)]);
    assert s' == s + {Item(r, 0)};
    forall x | x in s' && x !in Items(items) ensures CalledIn(g, s', x) {
      if x in s {
        assert CalledIn(g, s, x);
        var p :| p in s && Calls(g, p, x.rule);
        assert p in s';
      } else {
        assert it in s';
      }
    }
  }

  // Everything `it` calls for among the first `upto` rules is in `s`.
  ghost predicate Handled(g: Grammar, it: Item, upto: nat, s: set<Item>) {
    forall r | 0 <= r < upto && Calls(g, it, r) :: Item(r, 0) in s
  }

  method Lr0Closure(g: Grammar, items: seq<Item>) returns (queue: seq<Item>)
    requires Distinct(items) && forall it | it in items :: ItemOk(g, it)
    ensures Distinct(queue) && Items(queue) <= AllItems(g)
    ensures items <= queue
    ensures IsClosure(g, Items(items), Items(queue))
  {
    var inSet := Items(items);
    queue := items;
    var i := 0;
    while i < |queue|
      invariant 0 <= i <= |queue| && inSet == Items(queue)
      invariant Partial(g, items, queue)
      invariant forall k | 0 <= k < i :: Handled(g, queue[k], |g|, inSet)
      decreases AllItems(g) - inSet, |queue| - i
    {
      var it := queue[i];
      ghost var was, before := inSet, queue;
      for r := 0 to |g|
        invariant inSet == Items(queue) && before <= queue && i < |before|
        invariant Partial(g, items, queue)
        invariant if queue == before then inSet == was else AllItems(g) - inSet < AllItems(g) - was
        invariant was <= inSet
        invariant it == queue[i] && Handled(g, it, r, inSet)
        invariant forall k | 0 <= k < i :: Handled(g, queue[k], |g|, inSet)
      {
        if Next(g, it) == Some(NonTerm(g[r].lhs)) {
          var ni := Item(r, 0);
          if ni !in inSet {
            PartialGrows(g, items, queue, it, r);
            assert ni in AllItems(g);
            inSet := inSet + {ni};
            queue := queue + [ni];
          }
        }
      }
      i := i + 1;
    }
  }

  // ----- the automaton -----

  /** State `s` is `states[s]`; `trans[s]` maps a symbol to the state its move leads to. */
  datatype Automaton = Automaton(states: seq<seq<Item>>, trans: seq<map<Symbol, nat>>)

  ghost predicate MovesOver(g: Grammar, s: set<Item>, x: Symbol) {
    exists it :: it in s && Next(g, it) == Some(x)
  }

  ghost predicate StatesOk(g: Grammar, states: seq<seq<Item>>) {
    && |states| > 0 && IsClosure(g, {Item(0, 0)}, Items(states[0]))
    && (forall s {:trigger StateOk(g, states[s])} | 0 <= s < |states| :: StateOk(g, states[s]))
    && (forall s, t {:trigger SameItems(states[s], states[t])} | 0 <= s < t < |states| :: !SameItems(states[s], states[t]))
  }

  ghost predicate StateOk(g: Grammar, items: seq<Item>) {
    Distinct(items) && Items(items) <= AllItems(g)
  }

  predicate SameItems(x: seq<Item>, y: seq<Item>) {
    Items(x) == Items(y)
  }

  // A state has a transition on just the symbols its items can move over, to the closure of the moved items.
  ghost predicate RowOk(g: Grammar, states: seq<seq<Item>>, row: map<Symbol, nat>, s: nat)
    requires s < |states|
  {
    && (forall x :: x in row <==> MovesOver(g, Items(states[s]), x))
    && forall x | x in row :: MoveOk(g, states, s, x, row[x])
  }

  ghost predicate MoveOk(g: Grammar, states: seq<seq<Item>>, s: nat, x: Symbol, target: nat)
    requires s < |states|
  {
    target < |states| && IsClosure(g, Kernel(g, Items(states[s]), x), Items(states[target]))
  }

  ghost predicate RowsOk(g: Grammar, states: seq<seq<Item>>, trans: seq<map<Symbol, nat>>) {
    |trans| <= |states| && forall s | 0 <= s < |trans| :: RowOk(g, states, trans[s], s)
  }

  predicate LeadsTo(row: map<Symbol, nat>, x: Symbol, s: nat) {
    x in row && row[x] == s
  }

  ghost predicate Leads(row: map<Symbol, nat>, s: nat) {
    exists x :: LeadsTo(row, x, s)
  }

  // Some earlier state has a transition to `s`.
  ghost predicate Discovered(trans: seq<map<Symbol, nat>>, s: nat) {
    exists p: nat :: p < |trans| && p < s && Leads(trans[p], s)
  }

  ghost predicate AllDiscovered(trans: seq<map<Symbol, nat>>, n: nat) {
    forall s: nat | 0 < s < n :: Discovered(trans, s)
  }

  ghost predicate LeadsToAll(row: map<Symbol, nat>, lo: nat, hi: nat) {
    forall s: nat | lo <= s < hi :: Leads(row, s)
  }

  /** The automaton is the LR(0) automaton of `g`. */
  ghost predicate AutomatonOk(g: Grammar, a: Automaton) {
    StatesOk(g, a.states) && |a.trans| == |a.states| && RowsOk(g, a.states, a.trans)
    && AllDiscovered(a.trans, |a.states|)
  }

  lemma TransitionOk(g: Grammar, a: Automaton, s: nat, x: Symbol)
    requires AutomatonOk(g, a) && s < |a.states| && x in a.trans[s]
    ensures MoveOk(g, a.states, s, x, a.trans[s][x])
  {
    assert RowOk(g, a.states, a.trans[s], s);
  }

  lemma TransitionBound(g: Grammar, a: Automaton)
    requires AutomatonOk(g, a)
    ensures forall s, x | 0 <= s < |a.states| && x in a.trans[s] :: a.trans[s][x] < |a.states|
  {
    forall s, x | 0 <= s < |a.states| && x in a.trans[s] ensures a.trans[s][x] < |a.states| {
      TransitionOk(g, a, s, x);
    }
  }

  // The items of a state that move over `x`, in the state's order.
  function Moved(g: Grammar, items: seq<Item>, x: Symbol): seq<Item> {
    if items == [] then []
    else (if Next(g, items[0]) == Some(x) then [Advance(items[0])] else []) + Moved(g, items[1..], x)
  }

  lemma KernelOfOne(g: Grammar, it: Item, s: set<Item>, x: Symbol)
    ensures Kernel(g, {it} + s, x) == (if Next(g, it) == Some(x) then {Advance(it)} else {}) + Kernel(g, s, x)
  {
  }

  lemma {:induction false} MovedItems(g: Grammar, items: seq<Item>, x: Symbol)
    ensures Items(Moved(g, items, x)) == Kernel(g, Items(items), x)
    ensures Distinct(items) ==> Distinct(Moved(g, items, x))
    ensures forall it | it in Moved(g, items, x) :: ItemOk(g, it)
  {
    if items != [] {
      MovedItems(g, items[1..], x);
      var it := items[0];
      assert items == [it] + items[1..];
      assert Items(items) == {it} + Items(items[1..]);
      if Next(g, it) == Some(x) && Distinct(items) {
        assert Advance(it) !in Items(Moved(g, items[1..], x));
      }
      KernelOfOne(g, it, Items(items[1..]), x);
    }
  }

  function PowerItems(g: Grammar): set<set<Item>> {
    set s: set<Item> | s <= AllItems(g)
  }

  // Appending states disturbs no transition already made.
  lemma RowsGrow(g: Grammar, states: seq<seq<Item>>, states': seq<seq<Item>>, trans: seq<map<Symbol, nat>>, row: map<Symbol, nat>)
    requires states <= states' && RowsOk(g, states, trans)
    requires |trans| < |states'| && RowOk(g, states', row, |trans|)
    ensures RowsOk(g, states', trans + [row])
  {
    forall s | 0 <= s < |trans + [row]| ensures RowOk(g, states', (trans + [row])[s], s) {
      if s < |trans| {
        assert RowOk(g, states, trans[s], s);
        MovesStable(g, states, states', s, trans[s]);
      }
    }
  }

  lemma DiscoveriesGrow(n: nat, n': nat, trans: seq<map<Symbol, nat>>, row: map<Symbol, nat>)
    requires |trans| < n && AllDiscovered(trans, n) && LeadsToAll(row, n, n')
    ensures AllDiscovered(trans + [row], n')
  {
    var trans' := trans + [row];
    forall s: nat | 0 < s < n' ensures Discovered(trans', s) {
      if s < n {
        assert Discovered(trans, s);
        var p: nat :| p < |trans| && p < s && Leads(trans[p], s);
        assert trans'[p] == trans[p];
      } else {
        assert Leads(trans'[|trans|], s);
      }
    }
  }

  // Adding a transition to the one state that may be new.
  lemma LeadsGrow(row: map<Symbol, nat>, x: Symbol, target: nat, lo: nat, mid: nat, hi: nat)
    requires x !in row && LeadsToAll(row, lo, mid)
    requires hi <= mid + 1 && (hi > mid ==> target == mid)
    ensures LeadsToAll(row[x := target], lo, hi)
  {
    var row' := row[x := target];
    forall s: nat | lo <= s < hi ensures Leads(row', s) {
      if s < mid {
        assert Leads(row, s);
        var y :| LeadsTo(row, y, s);
        assert LeadsTo(row', y, s);
      } else {
        assert LeadsTo(row', x, s);
      }
    }
  }

  lemma MovesStable(g: Grammar, states: seq<seq<Item>>, states': seq<seq<Item>>, s: nat, row: map<Symbol, nat>)
    requires states <= states' && s < |states|
    requires forall x | x in row :: MoveOk(g, states, s, x, row[x])
    ensures forall x | x in row :: MoveOk(g, states', s, x, row[x])
  {
    forall x | x in row ensures MoveOk(g, states', s, x, row[x]) {
      assert MoveOk(g, states, s, x, row[x]);
    }
  }

  // States and their identities after some calls to `AddState`.
  ghost predicate Extended(g: Grammar, states: seq<seq<Item>>, ids: map<set<Item>, nat>,
                           states': seq<seq<Item>>, ids': map<set<Item>, nat>) {
    && states <= states'
    && (if states' == states then ids' == ids
        else PowerItems(g) - ids'.Keys < PowerItems(g) - ids.Keys)
  }

  lemma StartItem(g: Grammar)
    requires WellFormed(g)
    ensures ItemOk(g, Item(0, 0)) && Items([Item(0, 0)]) == {Item(0, 0)}
  {
    assert Items([Item(0, 0)]) == {Item(0, 0)};
  }

  lemma NoRows(g: Grammar, states: seq<seq<Item>>)
    requires |states| == 1
    ensures RowsOk(g, states, []) && AllDiscovered([], |states|)
  {
  }

  class AutomatonBuilder {
    const rules: Grammar
    var states: seq<seq<Item>>
    var trans: seq<map<Symbol, nat>>
    var ids: map<set<Item>, nat>    // a state's item set identifies it

    ghost predicate Valid()
      reads this
    {
      && StatesOk(rules, states)
      && ids.Keys <= PowerItems(rules)
      && (forall key | key in ids :: ids[key] < |states| && Items(states[ids[key]]) == key)
      && (forall s | 0 <= s < |states| :: Items(states[s]) in ids)
    }

    // The state with these items, added if there is none yet.
    method AddState(items: seq<Item>) returns (id: nat)
      requires Valid() && Distinct(items) && Items(items) <= AllItems(rules)
      modifies this`states, this`ids
      ensures Valid() && id < |states| && Items(states[id]) == Items(items)
      ensures Extended(rules, old(states), old(ids), states, ids)
      ensures |states| <= |old(states)| + 1 && (|states| > |old(states)| ==> id == |old(states)|)
    {
      var key := Items(items);
      if key in ids {
        return ids[key];
      }
      id := |states|;
      states := states + [items];
      ids := ids[key := id];
      assert key in PowerItems(rules);
    }

    // The state reached from state `si` over `x`.
    method Move(si: nat, x: Symbol) returns (target: nat)
      requires Valid() && si < |states|
      modifies this`states, this`ids
      ensures Valid() && Extended(rules, old(states), old(ids), states, ids)
      ensures MoveOk(rules, states, si, x, target)
      ensures |states| <= |old(states)| + 1 && (|states| > |old(states)| ==> target == |old(states)|)
    {
      assert StateOk(rules, states[si]);
      MovedItems(rules, states[si], x);
      var moved := Lr0Closure(rules, Moved(rules, states[si], x));
      target := AddState(moved);
    }

    // Follow every symbol that some item of state `si` can move over.
    method Expand(si: nat) returns (row: map<Symbol, nat>)
      requires Valid() && si < |states|
      modifies this`states, this`ids
      ensures Valid() && Extended(rules, old(states), old(ids), states, ids)
      ensures RowOk(rules, states, row, si)
      ensures LeadsToAll(row, |old(states)|, |states|)
    {
      row := map[];
      var syms := set it | it in states[si] && Next(rules, it).Some? :: Next(rules, it).value;
      assert forall x :: x in syms <==> MovesOver(rules, Items(states[si]), x);
      var todo := syms;
      while todo != {}
        invariant Valid() && Extended(rules, old(states), old(ids), states, ids) && todo <= syms
        invariant forall x :: x in row <==> x in syms && x !in todo
        invariant forall x | x in row :: MoveOk(rules, states, si, x, row[x])
        invariant LeadsToAll(row, |old(states)|, |states|)
        decreases todo
      {
        var x :| x in todo;
        ghost var before := states;
        var target := Move(si, x);
        MovesStable(rules, before, states, si, row);
        LeadsGrow(row, x, target, |old(states)|, |before|, |states|);
        row := row[x := target];
        todo := todo - {x};
      }
    }

    constructor (g: Grammar)
      requires WellFormed(g)
      ensures rules == g && AutomatonOk(g, Automaton(states, trans))
    {
      hide WellFormed, ItemOk, IsClosure, AllItems, RowsOk, RowOk, LeadsToAll, AllDiscovered;
      rules := g;
      states, trans, ids := [], [], map[];
      new;
      StartItem(g);
      var items := Lr0Closure(g, [Item(0, 0)]);
      states, ids := [items], map[Items(items) := 0];
      NoRows(g, states);
      var si := 0;
      while si < |states|
        invariant Valid() && 0 <= si <= |states| && |trans| == si
        invariant RowsOk(g, states, trans)
        invariant AllDiscovered(trans, |states|)
        decreases PowerItems(g) - ids.Keys, |states| - si
      {
        ghost var before := states;
        var row := Expand(si);
        RowsGrow(g, before, states, trans, row);
        DiscoveriesGrow(|before|, |states|, trans, row);
        trans := trans + [row];
        si := si + 1;
      }
    }
  }
}
