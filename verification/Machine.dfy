/** The stack machine that runs the tables, one step at a time, and why it can only build
    derivation trees (src/lalr.ts:643-721). */
module Machine {
  import opened Options
  import opened Grammars
  import opened FirstSets
  import opened Automata
  import opened Lookaheads
  import opened Tables
  import opened Resolution

  /** `states` is one longer than `values`: the bottom entry carries no value. */
  datatype Stack = Stack(states: seq<nat>, values: seq<Tree>)

  const EMPTY := Stack([0], [])

  predicate Shaped(st: Stack) {
    |st.states| == |st.values| + 1
  }

  function Top(st: Stack): nat
    requires Shaped(st)
  {
    st.states[|st.states| - 1]
  }

  function RowAt(pt: ParseTables, s: nat): Row {
    if s < |pt.action| then pt.action[s] else map[]
  }

  function GotoAt(pt: ParseTables, s: nat, n: NonTerminal): Option<nat> {
    if s < |pt.goto| && n in pt.goto[s] then Some(pt.goto[s][n]) else None
  }

  function Choices(pt: ParseTables, s: nat, t: Terminal): seq<Action> {
    if t in RowAt(pt, s) then Alternatives(RowAt(pt, s)[t]) else []
  }

  // The lookahead at `pos`; past the input it is `$end`.
  function TokenAt(input: seq<Token>, pos: nat): Token {
    if pos < |input| then input[pos] else Token(End, 0)
  }

  function Push(st: Stack, state: nat, value: Tree): Stack {
    Stack(st.states + [state], st.values + [value])
  }

  /** Reduce by rule `r`: pop its right-hand side, read the values its action peeks at, and push what
      it builds. `None` when the stack is too short or the exposed state has no goto. */
  function Reduced(g: Grammar, pt: ParseTables, st: Stack, r: nat): Option<Stack>
    requires Shaped(st) && r < |g|
  {
    var n, p := |g[r].rhs|, g[r].peek;
    if n + p > |st.values| then None
    else
      var base := |st.values| - n;
      match GotoAt(pt, st.states[base], g[r].lhs)
      case None => None
      case Some(target) =>
        Some(Push(Stack(st.states[..base + 1], st.values[..base]), target,
                  Node(r, st.values[base - p..base], st.values[base..])))
  }

  // ----- sequences -----

  lemma TakeOneMore<T>(s: seq<T>, n: nat)
    requires n < |s|
    ensures s[..n + 1] == s[..n] + [s[n]]
  {
  }

  lemma TakeAt<T>(s: seq<T>, n: nat, k: nat)
    requires k < n <= |s|
    ensures s[..n][k] == s[k]
  {
  }

  lemma PushedBack<T>(s: seq<T>, x: T)
    ensures (s + [x])[..|s|] == s && (s + [x])[|s|] == x
  {
  }

  lemma TailAppend<T>(x: seq<T>, y: seq<T>)
    requires x != []
    ensures (x + y)[1..] == x[1..] + y && (x + y)[0] == x[0]
  {
  }

  lemma OneElement<T>(s: seq<T>)
    requires |s| == 1
    ensures s == [s[0]]
  {
  }

  // ----- the invariant -----

  // A transition of the automaton.
  ghost predicate Linked(a: Automaton, s: nat, x: Symbol, s': nat) {
    s < |a.trans| && x in a.trans[s] && a.trans[s][x] == s'
  }

  /** The states follow transitions on `syms`, and each value derives its symbol with every mid-rule
      action having read the values below it. */
  ghost predicate StackOk(g: Grammar, a: Automaton, st: Stack, syms: seq<Symbol>) {
    && Shaped(st) && |syms| == |st.values| && st.states[0] == 0
    && (forall i | 0 <= i < |syms| :: Linked(a, st.states[i], syms[i], st.states[i + 1]))
    && (forall i | 0 <= i < |syms| :: Derives(g, st.values[i], syms[i]))
    && (forall i | 0 <= i < |syms| :: ReadsLeft(st.values[i], st.values[..i]))
  }

  lemma StackSizes(g: Grammar, a: Automaton, st: Stack, syms: seq<Symbol>)
    requires StackOk(g, a, st, syms)
    ensures Shaped(st) && |syms| == |st.values|
  {
  }

  lemma StatesInRange(g: Grammar, a: Automaton, st: Stack, syms: seq<Symbol>)
    requires AutomatonOk(g, a) && StackOk(g, a, st, syms)
    ensures forall i | 0 <= i < |st.states| :: st.states[i] < |a.states|
  {
    forall i | 0 <= i < |st.states| ensures st.states[i] < |a.states| {
      if i > 0 {
        assert Linked(a, st.states[i - 1], syms[i - 1], st.states[i]);
        TransitionOk(g, a, st.states[i - 1], syms[i - 1]);
      }
    }
  }

  // An item with something before the dot came over the transition from its predecessor.
  lemma ItemCameOver(g: Grammar, a: Automaton, s: nat, x: Symbol, s': nat, it: Item)
    requires AutomatonOk(g, a) && Linked(a, s, x, s') && s' < |a.states| && it in a.states[s'] && it.dot > 0
    ensures Next(g, Item(it.rule, it.dot - 1)) == Some(x) && Item(it.rule, it.dot - 1) in a.states[s]
  {
    TransitionOk(g, a, s, x);
    KernelItem(g, Items(a.states[s]), x, Items(a.states[s']), it);
  }

  lemma NotCalled(g: Grammar, its: set<Item>, it: Item)
    requires it.dot > 0
    ensures !CalledIn(g, its, it)
  {
  }

  lemma KernelItem(g: Grammar, from: set<Item>, x: Symbol, its: set<Item>, it: Item)
    requires IsClosure(g, Kernel(g, from, x), its) && it in its && it.dot > 0
    ensures Next(g, Item(it.rule, it.dot - 1)) == Some(x) && Item(it.rule, it.dot - 1) in from
  {
    if it in its && it !in Kernel(g, from, x) {
      NotCalled(g, its, it);
    } else {
      var was :| was in from && Next(g, was) == Some(x) && Advance(was) == it;
      assert was == Item(it.rule, it.dot - 1);
    }
  }

  lemma ItemInRange(g: Grammar, a: Automaton, s: nat, it: Item)
    requires AutomatonOk(g, a) && s < |a.states| && it in a.states[s]
    ensures it.rule < |g| && it.dot <= |g[it.rule].rhs|
  {
    assert StateOk(g, a.states[s]) && it in Items(a.states[s]);
  }

  // The rule's symbols up to the dot are on top of the stack, above a state `k` that starts the rule.
  lemma {:induction false} ItemOnStack(g: Grammar, a: Automaton, st: Stack, syms: seq<Symbol>, it: Item) returns (k: nat)
    requires AutomatonOk(g, a) && StackOk(g, a, st, syms) && Top(st) < |a.states| && it in a.states[Top(st)]
    ensures it.rule < |g| && it.dot <= |g[it.rule].rhs| && k + it.dot == |syms|
    ensures st.states[k] < |a.states| && Item(it.rule, 0) in a.states[st.states[k]]
    ensures syms[k..] == g[it.rule].rhs[..it.dot]
    decreases it.dot
  {
    ItemInRange(g, a, Top(st), it);
    if it.dot == 0 {
      assert it == Item(it.rule, 0);
      k := |syms|;
    } else if |syms| == 0 {
      StartItemsOnly(g, a, it);
      assert false;
    } else {
      ItemBelow(g, a, st, syms, it);
      var n := |syms| - 1;
      UnderOk(g, a, st, syms, n);
      k := ItemOnStack(g, a, Stack(st.states[..n + 1], st.values[..n]), syms[..n], Item(it.rule, it.dot - 1));
      TakeAt(st.states, n + 1, k);
      SpelledMore(syms, k, g[it.rule].rhs, it.dot);
    }
  }

  lemma ItemBelow(g: Grammar, a: Automaton, st: Stack, syms: seq<Symbol>, it: Item)
    requires AutomatonOk(g, a) && StackOk(g, a, st, syms) && Top(st) < |a.states| && it in a.states[Top(st)]
    requires it.dot > 0 && |syms| > 0
    ensures var n := |syms| - 1;
            && st.states[n] < |a.states| && Item(it.rule, it.dot - 1) in a.states[st.states[n]]
            && Next(g, Item(it.rule, it.dot - 1)) == Some(syms[n])
  {
    var n := |syms| - 1;
    assert Linked(a, st.states[n], syms[n], st.states[n + 1]);
    ItemCameOver(g, a, st.states[n], syms[n], st.states[n + 1], it);
  }

  lemma SpelledMore(syms: seq<Symbol>, k: nat, rhs: seq<Symbol>, d: nat)
    requires 0 < d <= |rhs| && k + d == |syms|
    requires syms[..|syms| - 1][k..] == rhs[..d - 1] && syms[|syms| - 1] == rhs[d - 1]
    ensures syms[k..] == rhs[..d]
  {
    assert syms[k..] == syms[..|syms| - 1][k..] + [syms[|syms| - 1]];
    assert rhs[..d] == rhs[..d - 1] + [rhs[d - 1]];
  }

  // The first state's items all have their dot in front.
  lemma StartItemsOnly(g: Grammar, a: Automaton, it: Item)
    requires AutomatonOk(g, a) && it in a.states[0]
    ensures it.dot == 0
  {
    var its := Items(a.states[0]);
    assert it in its;
    if it !in {Item(0, 0)} { assert CalledIn(g, its, it); }
  }

  // In a state reached over a transition, the augmented rule has moved on; in the first, it calls for all others.
  lemma CallerExists(g: Grammar, a: Automaton, st: Stack, syms: seq<Symbol>, r: nat) returns (p: Item)
    requires WellFormed(g) && AutomatonOk(g, a) && StackOk(g, a, st, syms)
    requires Top(st) < |a.states| && Item(r, 0) in a.states[Top(st)] && 0 < r < |g|
    ensures p in a.states[Top(st)] && Calls(g, p, r)
  {
    var s := Top(st);
    var its, it := Items(a.states[s]), Item(r, 0);
    assert it in its;
    assert CalledIn(g, its, it) by {
      if s == 0 {
        assert it !in {Item(0, 0)};
      } else {
        var n := |syms| - 1;
        assert Linked(a, st.states[n], syms[n], s);
        TransitionOk(g, a, st.states[n], syms[n]);
        assert it !in Kernel(g, Items(a.states[st.states[n]]), syms[n]);
      }
    }
    p :| p in its && Calls(g, p, r);
  }

  lemma AcceptNeverCalled(g: Grammar, it: Item)
    requires WellFormed(g)
    ensures Next(g, it) != Some(NonTerm(Accept))
  {
    if it.rule < |g| && it.dot < |g[it.rule].rhs| {
      assert g[it.rule].rhs[it.dot] != NonTerm(Accept);
    }
  }

  lemma StartItemNotReached(g: Grammar, from: set<Item>, x: Symbol, its: set<Item>)
    requires WellFormed(g) && IsClosure(g, Kernel(g, from, x), its)
    ensures Item(0, 0) !in its
  {
    if Item(0, 0) in its {
      assert CalledIn(g, its, Item(0, 0));
      var p :| p in its && Calls(g, p, 0);
      AcceptNeverCalled(g, p);
    }
  }

  // Only the first state holds the start item.
  lemma StartItemOnlyFirst(g: Grammar, a: Automaton, st: Stack, syms: seq<Symbol>)
    requires WellFormed(g) && AutomatonOk(g, a) && StackOk(g, a, st, syms)
    requires Top(st) < |a.states| && Item(0, 0) in a.states[Top(st)]
    ensures |syms| == 0
  {
    if |syms| > 0 {
      var n := |syms| - 1;
      assert Linked(a, st.states[n], syms[n], Top(st));
      TransitionOk(g, a, st.states[n], syms[n]);
      assert Item(0, 0) in Items(a.states[Top(st)]);
      StartItemNotReached(g, Items(a.states[st.states[n]]), syms[n], Items(a.states[Top(st)]));
    }
  }

  // ----- reducing -----

  // A peeking child looks no further left than its own rule reaches.
  lemma {:induction false} ReadsWithin(g: Grammar, t: Tree, sym: Symbol, left: seq<Tree>, i: nat)
    requires Derives(g, t, sym) && ReadsLeft(t, left) && i <= |left|
    requires forall q | 0 <= q < |g| && sym == NonTerm(g[q].lhs) :: g[q].peek <= i
    ensures ReadsLeft(t, left[|left| - i..])
    decreases t
  {
    match t
    case Leaf(_) =>
    case Node(r, peeked, _) =>
      var cut := left[|left| - i..];
      assert cut[|cut| - |peeked|..] == left[|left| - |peeked|..];
    case Both(l, r) =>
      ReadsWithin(g, l, sym, left, i);
      ReadsWithin(g, r, sym, left, i);
  }

  lemma PeekFits(g: Grammar, r: nat, i: nat)
    requires WellFormed(g) && r < |g| && i < |g[r].rhs|
    ensures forall q | 0 <= q < |g| && g[r].rhs[i] == NonTerm(g[q].lhs) :: g[q].peek <= i
  {
    forall q | 0 <= q < |g| && g[r].rhs[i] == NonTerm(g[q].lhs) ensures g[q].peek <= i {
      if q > 0 && g[q].peek > 0 { assert PeekPlaced(g, q); }
    }
  }

  lemma KidsDerive(g: Grammar, a: Automaton, st: Stack, syms: seq<Symbol>, r: nat)
    requires WellFormed(g) && StackOk(g, a, st, syms) && r < |g|
    requires |g[r].rhs| <= |syms| && syms[|syms| - |g[r].rhs|..] == g[r].rhs
    ensures var kids := st.values[|syms| - |g[r].rhs|..];
            forall i | 0 <= i < |kids| :: Derives(g, kids[i], g[r].rhs[i]) && ReadsLeft(kids[i], kids[..i])
  {
    var base := |syms| - |g[r].rhs|;
    var kids := st.values[base..];
    forall i | 0 <= i < |kids| ensures Derives(g, kids[i], g[r].rhs[i]) && ReadsLeft(kids[i], kids[..i]) {
      assert kids[i] == st.values[base + i] && g[r].rhs[i] == syms[base + i];
      PeekFits(g, r, i);
      ReadsWithin(g, kids[i], g[r].rhs[i], st.values[..base + i], i);
      assert st.values[..base + i][base..] == kids[..i];
    }
  }

  /** A complete item can be reduced: the stack holds its right-hand side and whatever its action peeks
      at, the exposed state has a transition on its left-hand side, and the node built derives it. */
  lemma ReduceFits(g: Grammar, a: Automaton, st: Stack, syms: seq<Symbol>, r: nat) returns (base: nat)
    requires WellFormed(g) && AutomatonOk(g, a) && StackOk(g, a, st, syms) && 0 < r < |g|
    requires Top(st) < |a.states| && Item(r, |g[r].rhs|) in a.states[Top(st)]
    ensures base + |g[r].rhs| == |syms| && g[r].peek <= base && syms[base..] == g[r].rhs
    ensures && st.states[base] < |a.states| && NonTerm(g[r].lhs) in a.trans[st.states[base]]
            && var t := Node(r, st.values[base - g[r].peek..base], st.values[base..]);
               Derives(g, t, NonTerm(g[r].lhs)) && ReadsLeft(t, st.values[..base])
  {
    hide AutomatonOk, WellFormed, StackOk, Derives, ReadsLeft;
    StackSizes(g, a, st, syms);
    var n := |g[r].rhs|;
    base := ItemOnStack(g, a, st, syms, Item(r, n));
    assert g[r].rhs[..n] == g[r].rhs;
    var under := Stack(st.states[..base + 1], st.values[..base]);
    UnderOk(g, a, st, syms, base);
    var p := CallerExists(g, a, under, syms[..base], r);
    MoveInState(g, a, st.states[base], p, NonTerm(g[r].lhs));
    if g[r].peek > 0 {
      var _ := ItemOnStack(g, a, under, syms[..base], p);
      PeekedFrom(g, p, r);
    }
    NodeDerives(g, a, st, syms, r, base);
  }

  // The item that calls for a mid-rule action has its dot where that action peeks from.
  lemma PeekedFrom(g: Grammar, p: Item, r: nat)
    requires WellFormed(g) && 0 < r < |g| && g[r].peek > 0 && Calls(g, p, r)
    ensures p.dot == g[r].peek
  {
    assert PeekPlaced(g, r);
  }

  lemma NodeDerives(g: Grammar, a: Automaton, st: Stack, syms: seq<Symbol>, r: nat, base: nat)
    requires WellFormed(g) && StackOk(g, a, st, syms) && r < |g| && g[r].peek <= base
    requires base + |g[r].rhs| == |syms| && syms[base..] == g[r].rhs
    ensures var t := Node(r, st.values[base - g[r].peek..base], st.values[base..]);
            Derives(g, t, NonTerm(g[r].lhs)) && ReadsLeft(t, st.values[..base])
  {
    hide WellFormed;
    KidsDerive(g, a, st, syms, r);
    assert base == |syms| - |g[r].rhs|;
  }

  lemma UnderOk(g: Grammar, a: Automaton, st: Stack, syms: seq<Symbol>, base: nat)
    requires StackOk(g, a, st, syms) && base <= |syms|
    ensures StackOk(g, a, Stack(st.states[..base + 1], st.values[..base]), syms[..base])
    ensures Top(Stack(st.states[..base + 1], st.values[..base])) == st.states[base]
  {
    var under := Stack(st.states[..base + 1], st.values[..base]);
    forall i | 0 <= i < base ensures under.values[..i] == st.values[..i] {}
  }

  lemma PushOk(g: Grammar, a: Automaton, st: Stack, syms: seq<Symbol>, x: Symbol, target: nat, t: Tree)
    requires StackOk(g, a, st, syms) && Linked(a, Top(st), x, target)
    requires Derives(g, t, x) && ReadsLeft(t, st.values)
    ensures StackOk(g, a, Push(st, target, t), syms + [x])
  {
    var st' := Push(st, target, t);
    forall i | 0 <= i < |syms| + 1 ensures ReadsLeft(st'.values[i], st'.values[..i]) {
      if i < |syms| {
        assert st'.values[..i] == st.values[..i];
      } else {
        assert st'.values[..i] == st.values;
      }
    }
  }

  lemma YieldsSplit(ts: seq<Tree>, base: nat)
    requires base <= |ts|
    ensures Yields(ts) == Yields(ts[..base]) + Yields(ts[base..])
  {
    YieldsAppend(ts[..base], ts[base..]);
    assert ts == ts[..base] + ts[base..];
  }

  // A node in place of its children changes no yield.
  lemma ReduceYield(ts: seq<Tree>, base: nat, r: nat, peeked: seq<Tree>)
    requires base <= |ts|
    ensures Yields(ts[..base] + [Node(r, peeked, ts[base..])]) == Yields(ts)
  {
    var node := Node(r, peeked, ts[base..]);
    YieldsSplit(ts, base);
    YieldsAppend(ts[..base], [node]);
    YieldsOne(node);
  }

  lemma ShiftYield(ts: seq<Tree>, tok: Token)
    ensures Yields(ts + [Leaf(tok)]) == Yields(ts) + [tok]
  {
    YieldsAppend(ts, [Leaf(tok)]);
    YieldsOne(Leaf(tok));
  }

  // ----- tables that only hold what the automaton justifies -----

  ghost predicate ActionJustified(g: Grammar, a: Automaton, s: nat, t: Terminal, x: Action)
    requires s < |a.states| == |a.trans|
  {
    match x
    case ShiftTo(q) => t != End && Linked(a, s, Term(t), q)
    case ReduceBy(r) => 0 < r < |g| && Item(r, |g[r].rhs|) in a.states[s]
    case AcceptAll => t == End && Term(End) in a.trans[s]
    case _ => false
  }

  ghost predicate ActionsJustified(g: Grammar, a: Automaton, pt: ParseTables) {
    |a.states| == |a.trans| == |pt.action|
    && forall s, t, x | 0 <= s < |a.states| && x in Choices(pt, s, t) :: ActionJustified(g, a, s, t, x)
  }

  lemma TablesJustified(g: Grammar, a: Automaton, m: Mode, pt: ParseTables)
    requires AutomatonOk(g, a) && WellFormed(g) && TablesOk(g, a, m, pt)
    ensures ActionsJustified(g, a, pt)
  {
    forall s, t, x | 0 <= s < |a.states| && x in Choices(pt, s, t) ensures ActionJustified(g, a, s, t, x) {
      assert RowDone(g, a, m, s, pt.action[s]);
      var inc := Incoming(g, a, m, s, t);
      if inc != [] {
        IncomingReal(g, a, m, s, t);
        SettleFromIncoming(g, inc, ShiftPrec(g, a.states[s], t));
        assert x in inc;
        IncomingJustified(g, a, m, s, t, x);
      }
    }
  }

  lemma IncomingJustified(g: Grammar, a: Automaton, m: Mode, s: nat, t: Terminal, x: Action)
    requires AutomatonOk(g, a) && WellFormed(g) && s < |a.states| && x in Incoming(g, a, m, s, t)
    ensures ActionJustified(g, a, s, t, x)
  {
    if x in ShiftAction(a, s, t) {
    } else {
      ReducesExact(g, m, s, a.states[s], t, x);
      var it :| it in a.states[s] && ReducesOn(g, m, s, it, t) && x == ReduceBy(it.rule);
      assert StateOk(g, a.states[s]) && it in Items(a.states[s]);
      assert it == Item(it.rule, |g[it.rule].rhs|);
    }
  }

  // ----- the steps keep the invariant -----

  // Everything consumed so far is the yield of the stack.
  ghost predicate Consumed(st: Stack, input: seq<Token>, pos: nat) {
    pos <= |input| && Yields(st.values) == input[..pos]
  }

  lemma ShiftKeeps(g: Grammar, a: Automaton, pt: ParseTables, st: Stack, syms: seq<Symbol>, input: seq<Token>, pos: nat, q: nat)
    requires AutomatonOk(g, a) && ActionsJustified(g, a, pt) && StackOk(g, a, st, syms) && Consumed(st, input, pos)
    requires Kinds(input) && ShiftTo(q) in Choices(pt, Top(st), TokenAt(input, pos).kind)
    ensures pos < |input|
    ensures var st' := Push(st, q, Leaf(input[pos]));
            StackOk(g, a, st', syms + [Term(input[pos].kind)]) && Consumed(st', input, pos + 1)
  {
    ChoiceJustified(g, a, pt, st, syms, TokenAt(input, pos).kind, ShiftTo(q));
    ShiftYield(st.values, input[pos]);
    TakeOneMore(input, pos);
    PushOk(g, a, st, syms, Term(input[pos].kind), q, Leaf(input[pos]));
  }

  lemma ChoiceJustified(g: Grammar, a: Automaton, pt: ParseTables, st: Stack, syms: seq<Symbol>, t: Terminal, x: Action)
    requires AutomatonOk(g, a) && ActionsJustified(g, a, pt) && StackOk(g, a, st, syms)
    requires x in Choices(pt, Top(st), t)
    ensures Top(st) < |a.states| == |a.trans| && ActionJustified(g, a, Top(st), t, x)
  {
    StatesInRange(g, a, st, syms);
  }

  ghost predicate GotosOk(a: Automaton, pt: ParseTables) {
    |pt.goto| == |a.trans| && forall s | 0 <= s < |a.trans| :: GotoFilled(a, s, pt.goto[s])
  }

  /** A reduce never finds the stack too short nor a goto missing, and keeps the invariant. */
  lemma ReduceKeeps(g: Grammar, a: Automaton, pt: ParseTables, st: Stack, syms: seq<Symbol>, t: Terminal, r: nat)
      returns (syms': seq<Symbol>)
    requires WellFormed(g) && AutomatonOk(g, a) && ActionsJustified(g, a, pt) && StackOk(g, a, st, syms)
    requires GotosOk(a, pt) && ReduceBy(r) in Choices(pt, Top(st), t)
    ensures r < |g| && Reduced(g, pt, st, r).Some?
    ensures StackOk(g, a, Reduced(g, pt, st, r).value, syms') && Yields(Reduced(g, pt, st, r).value.values) == Yields(st.values)
  {
    hide WellFormed, AutomatonOk, ActionsJustified, StackOk, GotosOk, Derives, ReadsLeft, Reduced, Yields;
    StackSizes(g, a, st, syms);
    ChoiceJustified(g, a, pt, st, syms, t, ReduceBy(r));
    var base := ReduceFits(g, a, st, syms, r);
    assert base == |syms| - |g[r].rhs|;
    syms' := ReducedOk(g, a, pt, st, syms, r);
  }

  // The stack a reduce leaves, when there is enough on it and the exposed state has a goto.
  lemma ReducedShape(g: Grammar, a: Automaton, pt: ParseTables, st: Stack, r: nat)
    requires Shaped(st) && GotosOk(a, pt) && r < |g| && |g[r].rhs| + g[r].peek <= |st.values|
    requires var base := |st.values| - |g[r].rhs|;
             st.states[base] < |a.trans| && NonTerm(g[r].lhs) in a.trans[st.states[base]]
    ensures var base := |st.values| - |g[r].rhs|;
            Reduced(g, pt, st, r) == Some(Push(Stack(st.states[..base + 1], st.values[..base]),
                                               a.trans[st.states[base]][NonTerm(g[r].lhs)],
                                               Node(r, st.values[base - g[r].peek..base], st.values[base..])))
  {
    var s := st.states[|st.values| - |g[r].rhs|];
    assert GotoFilled(a, s, pt.goto[s]);
  }

  // Popping a right-hand side that derives, and following the transition on the left-hand side.
  lemma ReducedOk(g: Grammar, a: Automaton, pt: ParseTables, st: Stack, syms: seq<Symbol>, r: nat) returns (syms': seq<Symbol>)
    requires StackOk(g, a, st, syms) && GotosOk(a, pt) && r < |g| && |g[r].rhs| + g[r].peek <= |syms|
    requires var base := |syms| - |g[r].rhs|;
             && st.states[base] < |a.trans| && NonTerm(g[r].lhs) in a.trans[st.states[base]]
             && var t := Node(r, st.values[base - g[r].peek..base], st.values[base..]);
                Derives(g, t, NonTerm(g[r].lhs)) && ReadsLeft(t, st.values[..base])
    ensures Reduced(g, pt, st, r).Some?
    ensures StackOk(g, a, Reduced(g, pt, st, r).value, syms') && Yields(Reduced(g, pt, st, r).value.values) == Yields(st.values)
  {
    hide StackOk, Derives, ReadsLeft, Reduced, Yields;
    StackSizes(g, a, st, syms);
    var base, x := |syms| - |g[r].rhs|, NonTerm(g[r].lhs);
    var peeked := st.values[base - g[r].peek..base];
    ReducedShape(g, a, pt, st, r);
    PushReduced(g, a, st, syms, base, x, a.trans[st.states[base]][x], Node(r, peeked, st.values[base..]));
    ReduceYield(st.values, base, r, peeked);
    syms' := syms[..base] + [x];
  }

  lemma PushReduced(g: Grammar, a: Automaton, st: Stack, syms: seq<Symbol>, base: nat, x: Symbol, q: nat, t: Tree)
    requires StackOk(g, a, st, syms) && base <= |syms| && Linked(a, st.states[base], x, q)
    requires Derives(g, t, x) && ReadsLeft(t, st.values[..base])
    ensures StackOk(g, a, Push(Stack(st.states[..base + 1], st.values[..base]), q, t), syms[..base] + [x])
  {
    hide Derives, ReadsLeft, Linked;
    UnderOk(g, a, st, syms, base);
    PushOk(g, a, Stack(st.states[..base + 1], st.values[..base]), syms[..base], x, q, t);
  }

  /** Where the machine accepts, its one value is a derivation tree of the start symbol for the whole
      of what was consumed. */
  lemma AcceptDerives(g: Grammar, a: Automaton, pt: ParseTables, st: Stack, syms: seq<Symbol>, t: Terminal)
    requires WellFormed(g) && AutomatonOk(g, a) && ActionsJustified(g, a, pt) && StackOk(g, a, st, syms)
    requires AcceptAll in Choices(pt, Top(st), t)
    ensures |st.values| == 1 && Derives(g, st.values[0], StartSymbol(g)) && Yield(st.values[0]) == Yields(st.values)
    ensures t == End
  {
    ChoiceJustified(g, a, pt, st, syms, t, AcceptAll);
    EndTransition(g, a, Top(st));
    AcceptShape(g, a, st, syms);
    OneElement(st.values);
    YieldsOne(st.values[0]);
  }

  // Below the completed start symbol there is only the first state.
  lemma AcceptShape(g: Grammar, a: Automaton, st: Stack, syms: seq<Symbol>)
    requires WellFormed(g) && AutomatonOk(g, a) && StackOk(g, a, st, syms)
    requires Top(st) < |a.states| && Item(0, 1) in a.states[Top(st)]
    ensures syms == [StartSymbol(g)]
  {
    var n := ItemOnStack(g, a, st, syms, Item(0, 1));
    UnderOk(g, a, st, syms, n);
    StartItemOnlyFirst(g, a, Stack(st.states[..n + 1], st.values[..n]), syms[..n]);
    assert syms[n..][0] == g[0].rhs[..1][0];
  }

  lemma EndTransition(g: Grammar, a: Automaton, s: nat)
    requires WellFormed(g) && AutomatonOk(g, a) && s < |a.states| && Term(End) in a.trans[s]
    ensures Item(0, 1) in a.states[s]
  {
    assert RowOk(g, a.states, a.trans[s], s);
    var it :| it in Items(a.states[s]) && Next(g, it) == Some(Term(End));
    EndOnlyInStart(g, it);
  }

  lemma EndOnlyInStart(g: Grammar, it: Item)
    requires WellFormed(g) && Next(g, it) == Some(Term(End))
    ensures it == Item(0, 1)
  {
    assert g[it.rule].rhs[it.dot] == Term(End);
  }
}
