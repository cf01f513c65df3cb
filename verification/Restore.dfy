/** What a value stands for: the trees it is equal to once nodes that merely pass their child on are
    restored. Covers the tables as built and those whose gotos skip pass-through unit reductions
    (src/core.ts:268, src/lalr.ts:365-423). */
module Restore {
  import opened Options
  import opened Grammars
  import opened FirstSets
  import opened Automata
  import opened Lookaheads
  import opened Tables
  import opened Resolution
  import opened Machine

  // ----- values up to pass-through nodes -----

  // The identity action returns the first of its values.
  predicate PassesOn(g: Grammar, t: Tree) {
    t.Node? && t.rule < |g| && g[t.rule].identity && t.peeked == [] && t.kids != []
  }

  /** The value a tree denotes: every identity action returns its first value, every other action builds a node. */
  function Collapse(g: Grammar, t: Tree): Tree
    decreases t, 0
  {
    match t
    case Leaf(_) => t
    case Node(r, peeked, kids) => if PassesOn(g, t) then Collapse(g, kids[0]) else Node(r, CollapseAll(g, peeked), CollapseAll(g, kids))
    case Both(l, r) => Both(Collapse(g, l), Collapse(g, r))
  }

  function CollapseAll(g: Grammar, ts: seq<Tree>): (cs: seq<Tree>)
    ensures |cs| == |ts|
    ensures forall i | 0 <= i < |ts| :: cs[i] == Collapse(g, ts[i])
    decreases ts, 1
  {
    seq(|ts|, i requires 0 <= i < |ts| => Collapse(g, ts[i]))
  }

  /** `t` and `v` denote the same value over the same tokens; if `exact`, they are the same tree. */
  predicate Same(g: Grammar, exact: bool, t: Tree, v: Tree) {
    if exact then t == v else Collapse(g, t) == Collapse(g, v) && Yield(t) == Yield(v)
  }

  predicate SameAll(g: Grammar, exact: bool, ts: seq<Tree>, vs: seq<Tree>) {
    |ts| == |vs| && forall i | 0 <= i < |ts| :: Same(g, exact, ts[i], vs[i])
  }

  lemma {:induction false} SameYields(g: Grammar, exact: bool, ts: seq<Tree>, vs: seq<Tree>)
    requires SameAll(g, exact, ts, vs)
    ensures Yields(ts) == Yields(vs)
  {
    if ts != [] {
      var n := |ts| - 1;
      SameYields(g, exact, ts[..n], vs[..n]);
      assert Same(g, exact, ts[n], vs[n]);
    }
  }

  lemma NodeYield(r: nat, peeked: seq<Tree>, kids: seq<Tree>)
    ensures Yield(Node(r, peeked, kids)) == Yields(kids)
  {
  }

  lemma SameNode(g: Grammar, exact: bool, r: nat, peeked: seq<Tree>, kids: seq<Tree>, peeked': seq<Tree>, kids': seq<Tree>)
    requires SameAll(g, exact, peeked, peeked') && SameAll(g, exact, kids, kids')
    ensures Same(g, exact, Node(r, peeked, kids), Node(r, peeked', kids'))
  {
    hide Yield, Yields;
    SameYields(g, exact, kids, kids');
    NodeYield(r, peeked, kids);
    NodeYield(r, peeked', kids');
    if exact {
      assert peeked == peeked' && kids == kids';
    } else {
      assert CollapseAll(g, peeked) == CollapseAll(g, peeked') && CollapseAll(g, kids) == CollapseAll(g, kids');
    }
  }

  lemma SameSlice(g: Grammar, exact: bool, ts: seq<Tree>, vs: seq<Tree>, lo: nat, hi: nat)
    requires SameAll(g, exact, ts, vs) && lo <= hi <= |ts|
    ensures SameAll(g, exact, ts[lo..hi], vs[lo..hi])
  {
    hide Same;
    forall i | 0 <= i < hi - lo ensures Same(g, exact, ts[lo..hi][i], vs[lo..hi][i]) {
      assert Same(g, exact, ts[lo + i], vs[lo + i]);
    }
  }

  lemma SamePush(g: Grammar, exact: bool, ts: seq<Tree>, vs: seq<Tree>, t: Tree, v: Tree)
    requires SameAll(g, exact, ts, vs) && Same(g, exact, t, v)
    ensures SameAll(g, exact, ts + [t], vs + [v])
  {
  }

  lemma SameBoth(g: Grammar, exact: bool, t: Tree, v: Tree, t': Tree, v': Tree)
    requires Same(g, exact, t, v) && Same(g, exact, t', v')
    ensures Same(g, exact, Both(t, t'), Both(v, v'))
  {
  }

  // ----- unit rules climbed -----

  // A rule with one nonterminal on its right-hand side that passes its value on.
  predicate UnitRule(g: Grammar, u: nat, b: NonTerminal) {
    0 < u < |g| && g[u].identity && g[u].peek == 0 && g[u].rhs == [NonTerm(b)]
  }

  /** From `b` in state `s`, reducing by the unit rules `rules` one after the other ends in `target`. */
  ghost predicate Climbs(g: Grammar, a: Automaton, s: nat, b: NonTerminal, rules: seq<nat>, target: nat)
    decreases |rules|
  {
    && s < |a.trans| && NonTerm(b) in a.trans[s]
    && if rules == [] then a.trans[s][NonTerm(b)] == target
       else UnitRule(g, rules[0], b) && Climbs(g, a, s, g[rules[0]].lhs, rules[1..], target)
  }

  // The unit nodes put back on top of `t`.
  function Raise(rules: seq<nat>, t: Tree): Tree
    decreases |rules|
  {
    if rules == [] then t else Raise(rules[1..], Node(rules[0], [], [t]))
  }

  // Nothing in `t`'s action looks below it.
  ghost predicate LooksNowhere(t: Tree) {
    ReadsLeft(t, [])
  }

  lemma {:induction false} Raised(g: Grammar, a: Automaton, s: nat, b: NonTerminal, rules: seq<nat>, target: nat, t: Tree, left: seq<Tree>) returns (x: Symbol)
    requires Climbs(g, a, s, b, rules, target) && Derives(g, t, NonTerm(b)) && ReadsLeft(t, left)
    requires rules != [] ==> LooksNowhere(t)
    ensures Linked(a, s, x, target) && Derives(g, Raise(rules, t), x) && ReadsLeft(Raise(rules, t), left)
    ensures Yield(Raise(rules, t)) == Yield(t) && Collapse(g, Raise(rules, t)) == Collapse(g, t)
    decreases |rules|
  {
    if rules == [] {
      x := NonTerm(b);
    } else {
      var up := Node(rules[0], [], [t]);
      UnitNode(g, rules[0], b, t);
      x := Raised(g, a, s, g[rules[0]].lhs, rules[1..], target, up, left);
    }
  }

  lemma UnitNode(g: Grammar, u: nat, b: NonTerminal, t: Tree)
    requires UnitRule(g, u, b) && Derives(g, t, NonTerm(b)) && LooksNowhere(t)
    ensures var up := Node(u, [], [t]);
            && Derives(g, up, NonTerm(g[u].lhs)) && LooksNowhere(up) && (forall left :: ReadsLeft(up, left))
            && Yield(up) == Yield(t) && Collapse(g, up) == Collapse(g, t)
  {
    hide Yield, Derives, ReadsLeft, LooksNowhere;
    UnitDerives(g, u, b, t);
    YieldsOne(t);
    UnitYield(u, t);
    forall left: seq<Tree> ensures ReadsLeft(Node(u, [], [t]), left) { UnitReads(u, t, left); }
    UnitNowhere(u, t);
  }

  lemma UnitDerives(g: Grammar, u: nat, b: NonTerminal, t: Tree)
    requires UnitRule(g, u, b) && Derives(g, t, NonTerm(b)) && LooksNowhere(t)
    ensures Derives(g, Node(u, [], [t]), NonTerm(g[u].lhs))
  {
    var kids := [t];
    assert kids[..0] == [];
    forall i | 0 <= i < |kids| ensures Derives(g, kids[i], g[u].rhs[i]) && ReadsLeft(kids[i], kids[..i]) {
      hide Derives, ReadsLeft;
    }
  }

  lemma UnitReads(u: nat, t: Tree, left: seq<Tree>)
    ensures ReadsLeft(Node(u, [], [t]), left)
  {
    assert left[|left|..] == [];
  }

  lemma UnitNowhere(u: nat, t: Tree)
    ensures LooksNowhere(Node(u, [], [t]))
  {
  }

  lemma UnitYield(u: nat, t: Tree)
    ensures Yield(Node(u, [], [t])) == Yields([t])
  {
  }

  // ----- tables -----

  /** The automaton behind some tables, and whether their gotos are exactly its transitions or may skip unit reductions. */
  datatype Basis = Basis(auto: Automaton, exact: bool)

  ghost predicate GotoLeads(g: Grammar, b: Basis, s: nat, n: NonTerminal, target: nat) {
    exists rules :: Climbs(g, b.auto, s, n, rules, target) && (b.exact ==> rules == [])
  }

  ghost predicate GotosLead(g: Grammar, b: Basis, pt: ParseTables) {
    && |pt.goto| == |b.auto.trans|
    && (forall s, n | 0 <= s < |b.auto.trans| && NonTerm(n) in b.auto.trans[s] :: n in pt.goto[s])
    && (forall s, n | 0 <= s < |b.auto.trans| && n in pt.goto[s] :: GotoLeads(g, b, s, n, pt.goto[s][n]))
  }

  /** The tables hold what the automaton justifies. */
  ghost predicate Backed(g: Grammar, b: Basis, pt: ParseTables) {
    WellFormed(g) && AutomatonOk(g, b.auto) && ActionsJustified(g, b.auto, pt) && GotosLead(g, b, pt)
  }

  lemma ExactGotos(g: Grammar, a: Automaton, pt: ParseTables)
    requires GotosOk(a, pt)
    ensures GotosLead(g, Basis(a, true), pt)
  {
    forall s, n | 0 <= s < |a.trans| && (NonTerm(n) in a.trans[s] || n in pt.goto[s])
      ensures n in pt.goto[s] && GotoLeads(g, Basis(a, true), s, n, pt.goto[s][n])
    {
      assert GotoFilled(a, s, pt.goto[s]);
      assert Climbs(g, a, s, n, [], pt.goto[s][n]);
    }
  }

  // ----- stacks -----

  /** `shadow` is a stack the machine could have built, with the same states and values that denote the same. */
  ghost predicate Shadows(g: Grammar, b: Basis, st: Stack, shadow: Stack, syms: seq<Symbol>) {
    && Shaped(st) && shadow.states == st.states && SameAll(g, b.exact, shadow.values, st.values)
    && StackOk(g, b.auto, shadow, syms)
  }

  /** The stack is in order: it stands for one that derives what was consumed. */
  ghost predicate Fine(g: Grammar, b: Basis, input: seq<Token>, st: Stack, pos: nat) {
    exists shadow, syms :: Shadows(g, b, st, shadow, syms) && Consumed(shadow, input, pos)
  }

  lemma ShadowSizes(g: Grammar, b: Basis, st: Stack, shadow: Stack, syms: seq<Symbol>)
    requires Shadows(g, b, st, shadow, syms)
    ensures Shaped(st) && Shaped(shadow) && |st.values| == |shadow.values| == |syms| && Top(shadow) == Top(st)
  {
    hide Same;
  }

  lemma FineShape(g: Grammar, b: Basis, input: seq<Token>, st: Stack, pos: nat)
    requires Fine(g, b, input, st, pos)
    ensures Shaped(st) && pos <= |input|
  {
    hide Shadows;
    var shadow, syms :| Shadows(g, b, st, shadow, syms) && Consumed(shadow, input, pos);
    ShadowSizes(g, b, st, shadow, syms);
  }

  lemma FineStart(g: Grammar, b: Basis, input: seq<Token>)
    ensures Fine(g, b, input, EMPTY, 0)
  {
    assert Shadows(g, b, EMPTY, EMPTY, []) && Consumed(EMPTY, input, 0);
  }

  // Only what was consumed matters.
  lemma FinePrefix(g: Grammar, b: Basis, input: seq<Token>, input': seq<Token>, st: Stack, pos: nat)
    requires Fine(g, b, input, st, pos) && pos <= |input'| && (pos <= |input| ==> input[..pos] == input'[..pos])
    ensures Fine(g, b, input', st, pos)
  {
    hide Shadows;
    var shadow, syms :| Shadows(g, b, st, shadow, syms) && Consumed(shadow, input, pos);
    assert Consumed(shadow, input', pos);
  }

  lemma FineChoice(g: Grammar, b: Basis, pt: ParseTables, input: seq<Token>, st: Stack, pos: nat, t: Terminal, x: Action)
    requires Backed(g, b, pt) && Fine(g, b, input, st, pos) && Shaped(st) && x in Choices(pt, Top(st), t)
    ensures x.ShiftTo? || x.ReduceBy? || x == AcceptAll
    ensures x.ShiftTo? ==> t != End
    ensures x.AcceptAll? ==> t == End
  {
    hide WellFormed, AutomatonOk, ActionsJustified, GotosLead, StackOk, Choices, Consumed, SameAll;
    var shadow, syms :| Shadows(g, b, st, shadow, syms) && Consumed(shadow, input, pos);
    ShadowSizes(g, b, st, shadow, syms);
    ChoiceJustified(g, b.auto, pt, shadow, syms, t, x);
  }

  lemma FineShift(g: Grammar, b: Basis, pt: ParseTables, input: seq<Token>, st: Stack, pos: nat, q: nat)
    requires Backed(g, b, pt) && Kinds(input) && Fine(g, b, input, st, pos)
    requires Shaped(st) && ShiftTo(q) in Choices(pt, Top(st), TokenAt(input, pos).kind)
    ensures pos < |input| && Fine(g, b, input, Push(st, q, Leaf(TokenAt(input, pos))), pos + 1)
  {
    hide WellFormed, AutomatonOk, ActionsJustified, GotosLead, StackOk, Choices, Consumed, Kinds, SameAll;
    var shadow, syms :| Shadows(g, b, st, shadow, syms) && Consumed(shadow, input, pos);
    ShadowSizes(g, b, st, shadow, syms);
    ShiftKeeps(g, b.auto, pt, shadow, syms, input, pos, q);
    var leaf := Leaf(input[pos]);
    SamePush(g, b.exact, shadow.values, st.values, leaf, leaf);
    assert Shadows(g, b, Push(st, q, leaf), Push(shadow, q, leaf), syms + [Term(input[pos].kind)]);
  }

  // ----- reducing -----

  lemma PeekersStay(g: Grammar, a: Automaton, s: nat, r: nat, rules: seq<nat>, target: nat)
    requires WellFormed(g) && 0 < r < |g| && Climbs(g, a, s, g[r].lhs, rules, target) && rules != []
    ensures g[r].peek == 0
  {
    hide Climbs;
    ClimbsFirst(g, a, s, g[r].lhs, rules, target);
    if g[r].peek > 0 { PeekerAt(g, r, rules[0], 0); }
  }

  lemma PeekerAt(g: Grammar, r: nat, q: nat, i: nat)
    requires WellFormed(g) && 0 < r < |g| && g[r].peek > 0 && q < |g| && i < |g[q].rhs| && g[q].rhs[i] == NonTerm(g[r].lhs)
    ensures i == g[r].peek
  {
    assert PeekPlaced(g, r);
  }

  lemma ClimbsFirst(g: Grammar, a: Automaton, s: nat, b: NonTerminal, rules: seq<nat>, target: nat)
    requires Climbs(g, a, s, b, rules, target) && rules != []
    ensures UnitRule(g, rules[0], b)
  {
  }

  lemma LeavesNothing(r: nat, kids: seq<Tree>)
    ensures LooksNowhere(Node(r, [], kids))
  {
  }

  // The goto of a well-built node, climbed.
  lemma GotoStands(g: Grammar, b: Basis, s: nat, r: nat, target: nat, node: Tree, left: seq<Tree>) returns (up: Tree, x: Symbol, rules: seq<nat>)
    requires WellFormed(g) && 0 < r < |g| && GotoLeads(g, b, s, g[r].lhs, target)
    requires node.Node? && |node.peeked| == g[r].peek && Derives(g, node, NonTerm(g[r].lhs)) && ReadsLeft(node, left)
    ensures Linked(b.auto, s, x, target) && Derives(g, up, x) && ReadsLeft(up, left) && Yield(up) == Yield(node)
    ensures Same(g, b.exact, up, node) && up == Raise(rules, node)
  {
    hide WellFormed, Climbs, Derives, ReadsLeft, Yield, Collapse, LooksNowhere;
    rules :| Climbs(g, b.auto, s, g[r].lhs, rules, target) && (b.exact ==> rules == []);
    if rules != [] {
      PeekersStay(g, b.auto, s, r, rules, target);
      LeavesNothing(node.rule, node.kids);
      assert node == Node(node.rule, [], node.kids);
    }
    x := Raised(g, b.auto, s, g[r].lhs, rules, target, node, left);
    up := Raise(rules, node);
  }

  lemma ReducedTo(g: Grammar, pt: ParseTables, st: Stack, r: nat, base: nat, target: nat)
    requires Shaped(st) && r < |g| && base + |g[r].rhs| == |st.values| && g[r].peek <= base
    requires GotoAt(pt, st.states[base], g[r].lhs) == Some(target)
    ensures Reduced(g, pt, st, r) == Some(Push(Stack(st.states[..base + 1], st.values[..base]), target,
                                               Node(r, st.values[base - g[r].peek..base], st.values[base..])))
  {
    assert base == |st.values| - |g[r].rhs|;
  }

  // The stack a reduction leaves stands for one in order.
  lemma ReducedShadow(g: Grammar, b: Basis, st: Stack, shadow: Stack, syms: seq<Symbol>, base: nat, r: nat, target: nat, input: seq<Token>, pos: nat)
      returns (shadow': Stack, syms': seq<Symbol>, rules: seq<nat>)
    requires WellFormed(g) && Shadows(g, b, st, shadow, syms) && Consumed(shadow, input, pos) && base <= |syms| == |st.values| == |shadow.values|
    requires Shaped(shadow) && Shaped(st) && 0 < r < |g| && g[r].peek <= base && GotoLeads(g, b, st.states[base], g[r].lhs, target)
    requires var t := Node(r, shadow.values[base - g[r].peek..base], shadow.values[base..]);
             Derives(g, t, NonTerm(g[r].lhs)) && ReadsLeft(t, shadow.values[..base])
    ensures Shadows(g, b, Push(Stack(st.states[..base + 1], st.values[..base]), target,
                               Node(r, st.values[base - g[r].peek..base], st.values[base..])), shadow', syms') && Consumed(shadow', input, pos)
    ensures shadow'.values == shadow.values[..base] + [Raise(rules, Node(r, shadow.values[base - g[r].peek..base], shadow.values[base..]))]
  {
    hide WellFormed, GotoLeads, StackOk, Derives, ReadsLeft, Yield, Yields, Same, SameAll, Linked;
    var peek := g[r].peek;
    var peeked, kids, left := shadow.values[base - peek..base], shadow.values[base..], shadow.values[..base];
    var node := Node(r, peeked, kids);
    var up, x, climbed := GotoStands(g, b, st.states[base], r, target, node, left);
    rules := climbed;
    PushReduced(g, b.auto, shadow, syms, base, x, target, up);
    SameReduced(g, b.exact, shadow.values, st.values, base, r, peek, up);
    RaisedYield(shadow.values, base, node, up, peeked);
    shadow', syms' := Push(Stack(shadow.states[..base + 1], left), target, up), syms[..base] + [x];
  }

  lemma SliceEnds<T>(s: seq<T>, base: nat)
    requires base <= |s|
    ensures s[base..|s|] == s[base..] && s[0..base] == s[..base]
  {
  }

  lemma SameReduced(g: Grammar, exact: bool, ts: seq<Tree>, vs: seq<Tree>, base: nat, r: nat, peek: nat, up: Tree)
    requires SameAll(g, exact, ts, vs) && peek <= base <= |ts| == |vs|
    requires Same(g, exact, up, Node(r, ts[base - peek..base], ts[base..]))
    ensures SameAll(g, exact, ts[..base] + [up], vs[..base] + [Node(r, vs[base - peek..base], vs[base..])])
  {
    hide SameAll;
    SameSlice(g, exact, ts, vs, base - peek, base);
    SameSlice(g, exact, ts, vs, base, |ts|);
    SameSlice(g, exact, ts, vs, 0, base);
    SliceEnds(ts, base);
    SliceEnds(vs, base);
    SameNode(g, exact, r, ts[base - peek..base], ts[base..], vs[base - peek..base], vs[base..]);
    SamePush(g, exact, ts[..base], vs[..base], up, Node(r, vs[base - peek..base], vs[base..]));
  }

  lemma RaisedYield(ts: seq<Tree>, base: nat, node: Tree, up: Tree, peeked: seq<Tree>)
    requires base <= |ts| && node.Node? && node == Node(node.rule, peeked, ts[base..]) && Yield(up) == Yield(node)
    ensures Yields(ts[..base] + [up]) == Yields(ts)
  {
    hide Yield;
    ReduceYield(ts, base, node.rule, peeked);
    YieldsAppend(ts[..base], [node]);
    YieldsAppend(ts[..base], [up]);
    YieldsOne(node);
    YieldsOne(up);
  }

  lemma GotoOffered(g: Grammar, b: Basis, pt: ParseTables, s: nat, n: NonTerminal)
    requires GotosLead(g, b, pt) && s < |b.auto.trans| && NonTerm(n) in b.auto.trans[s]
    ensures GotoAt(pt, s, n).Some? && GotoLeads(g, b, s, n, GotoAt(pt, s, n).value)
  {
    hide GotoLeads;
  }

  /** A reduce never finds the stack too short nor a goto missing, and leaves the stack in order. */
  lemma FineReduce(g: Grammar, b: Basis, pt: ParseTables, input: seq<Token>, st: Stack, pos: nat, t: Terminal, r: nat)
    requires Backed(g, b, pt) && Fine(g, b, input, st, pos) && Shaped(st) && ReduceBy(r) in Choices(pt, Top(st), t)
    ensures r < |g| && |g[r].rhs| + g[r].peek <= |st.values|
    ensures Reduced(g, pt, st, r).Some? && Fine(g, b, input, Reduced(g, pt, st, r).value, pos)
  {
    hide WellFormed, AutomatonOk, ActionsJustified, GotosLead, StackOk, Choices, Consumed, SameAll, Derives, ReadsLeft, Fine, Reduced, GotoLeads;
    var shadow, syms := FineShadow(g, b, input, st, pos);
    ShadowSizes(g, b, st, shadow, syms);
    ChoiceJustified(g, b.auto, pt, shadow, syms, t, ReduceBy(r));
    var base := ReduceFits(g, b.auto, shadow, syms, r);
    AutomatonSizes(g, b.auto);
    GotoOffered(g, b, pt, st.states[base], g[r].lhs);
    var target := GotoAt(pt, st.states[base], g[r].lhs).value;
    ReducedTo(g, pt, st, r, base, target);
    var shadow', syms', _ := ReducedShadow(g, b, st, shadow, syms, base, r, target, input, pos);
    FineFrom(g, b, input, Push(Stack(st.states[..base + 1], st.values[..base]), target, Node(r, st.values[base - g[r].peek..base], st.values[base..])),
             shadow', syms', pos);
  }

  lemma FineFrom(g: Grammar, b: Basis, input: seq<Token>, st: Stack, shadow: Stack, syms: seq<Symbol>, pos: nat)
    requires Shadows(g, b, st, shadow, syms) && Consumed(shadow, input, pos)
    ensures Fine(g, b, input, st, pos)
  {
    hide Shadows, Consumed;
  }

  lemma FineShadow(g: Grammar, b: Basis, input: seq<Token>, st: Stack, pos: nat) returns (shadow: Stack, syms: seq<Symbol>)
    requires Fine(g, b, input, st, pos)
    ensures Shadows(g, b, st, shadow, syms) && Consumed(shadow, input, pos)
  {
    hide Shadows, Consumed;
    shadow, syms :| Shadows(g, b, st, shadow, syms) && Consumed(shadow, input, pos);
  }

  lemma AutomatonSizes(g: Grammar, a: Automaton)
    requires AutomatonOk(g, a)
    ensures |a.states| == |a.trans|
  {
  }

  // ----- accepting -----

  /** `v` denotes the value of a derivation tree of the start symbol for `tokens`; if `exact`, it is that tree. */
  ghost predicate StandsFor(g: Grammar, exact: bool, v: Tree, tokens: seq<Token>) {
    exists t :: DerivesAll(g, t, tokens) && Same(g, exact, t, v)
  }

  ghost predicate DerivesAll(g: Grammar, t: Tree, tokens: seq<Token>) {
    |g| > 0 && |g[0].rhs| > 0 && Derives(g, t, StartSymbol(g)) && Yield(t) == tokens
  }

  /** Where the machine accepts, its one value stands for a derivation tree of the start symbol for all that was consumed. */
  lemma FineAccept(g: Grammar, b: Basis, pt: ParseTables, input: seq<Token>, st: Stack, pos: nat, t: Terminal)
    requires Backed(g, b, pt) && Fine(g, b, input, st, pos) && Shaped(st) && AcceptAll in Choices(pt, Top(st), t)
    ensures |st.values| == 1 && pos <= |input| && StandsFor(g, b.exact, st.values[0], input[..pos]) && t == End
  {
    hide AutomatonOk, ActionsJustified, GotosLead, StackOk, Choices, Derives, Yield, Same;
    var shadow, syms :| Shadows(g, b, st, shadow, syms) && Consumed(shadow, input, pos);
    ShadowSizes(g, b, st, shadow, syms);
    AcceptDerives(g, b.auto, pt, shadow, syms, t);
    assert Same(g, b.exact, shadow.values[0], st.values[0]);
    assert DerivesAll(g, shadow.values[0], input[..pos]);
  }

  // ----- merging -----

  // A state is entered on one symbol only.
  lemma AccessUnique(g: Grammar, a: Automaton, s: nat, x: Symbol, y: Symbol, q: nat)
    requires AutomatonOk(g, a) && s < |a.states| && Linked(a, s, x, q) && Linked(a, s, y, q)
    ensures x == y
  {
    TransitionOk(g, a, s, x);
    TransitionOk(g, a, s, y);
    assert RowOk(g, a.states, a.trans[s], s);
    assert MovesOver(g, Items(a.states[s]), x);
    var it :| it in Items(a.states[s]) && Next(g, it) == Some(x);
    assert Advance(it) in Kernel(g, Items(a.states[s]), x);
    KernelItem(g, Items(a.states[s]), y, Items(a.states[q]), Advance(it));
    assert Item(it.rule, it.dot + 1 - 1) == it;
  }

  // ----- converging values -----

  // The same tree with whatever its action peeked at read from `left` instead.
  function Reread(t: Tree, left: seq<Tree>): Tree
    requires ReadsLeftSize(t, |left|)
  {
    match t
    case Leaf(_) => t
    case Node(r, peeked, kids) => Node(r, left[|left| - |peeked|..], kids)
    case Both(l, r) => Both(Reread(l, left), Reread(r, left))
  }

  predicate ReadsLeftSize(t: Tree, n: nat) {
    match t
    case Leaf(_) => true
    case Node(_, peeked, _) => |peeked| <= n
    case Both(l, r) => ReadsLeftSize(l, n) && ReadsLeftSize(r, n)
  }

  ghost predicate AllCollapseAlike(g: Grammar, ts: seq<Tree>, vs: seq<Tree>) {
    |ts| == |vs| && forall i | 0 <= i < |ts| :: Collapse(g, ts[i]) == Collapse(g, vs[i])
  }

  /** Reading the same values from another stack changes nothing but which trees stand for them. */
  lemma {:induction false} RereadOk(g: Grammar, t: Tree, x: Symbol, left: seq<Tree>, left': seq<Tree>)
    requires Derives(g, t, x) && ReadsLeft(t, left) && AllCollapseAlike(g, left, left')
    ensures ReadsLeftSize(t, |left'|) && Derives(g, Reread(t, left'), x) && ReadsLeft(Reread(t, left'), left')
    ensures Yield(Reread(t, left')) == Yield(t) && Collapse(g, Reread(t, left')) == Collapse(g, t)
    ensures left == left' ==> Reread(t, left') == t
    decreases t
  {
    match t
    case Leaf(_) =>
    case Node(r, peeked, kids) =>
      var peeked' := left'[|left'| - |peeked|..];
      assert CollapseAll(g, peeked) == CollapseAll(g, peeked') by {
        forall i | 0 <= i < |peeked| ensures Collapse(g, peeked[i]) == Collapse(g, peeked'[i]) {
          assert peeked[i] == left[|left| - |peeked| + i] && peeked'[i] == left'[|left'| - |peeked| + i];
        }
      }
    case Both(l, r) =>
      RereadOk(g, l, x, left, left');
      RereadOk(g, r, x, left, left');
  }

  lemma AlikeBecauseSame(g: Grammar, exact: bool, ts: seq<Tree>, us: seq<Tree>, vs: seq<Tree>)
    requires SameAll(g, exact, ts, vs) && SameAll(g, exact, us, vs)
    ensures AllCollapseAlike(g, ts, us) && (exact ==> ts == us)
  {
    forall i | 0 <= i < |ts| ensures Collapse(g, ts[i]) == Collapse(g, us[i]) && (exact ==> ts[i] == us[i]) {
      assert Same(g, exact, ts[i], vs[i]) && Same(g, exact, us[i], vs[i]);
    }
  }

  // The top of a stack in order, taken apart.
  lemma FineTop(g: Grammar, b: Basis, input: seq<Token>, st: Stack, q: nat, v: Tree, pos: nat) returns (lower: Stack, syms: seq<Symbol>, up: Tree, x: Symbol)
    requires Fine(g, b, input, Push(st, q, v), pos) && Shaped(st)
    ensures Shadows(g, b, st, lower, syms) && Linked(b.auto, Top(st), x, q)
    ensures Derives(g, up, x) && ReadsLeft(up, lower.values) && Same(g, b.exact, up, v)
    ensures pos <= |input| && Yields(lower.values) + Yield(up) == input[..pos]
  {
    hide Derives, ReadsLeft, Linked, Yield, Same;
    var shadow, all :| Shadows(g, b, Push(st, q, v), shadow, all) && Consumed(shadow, input, pos);
    var n := |st.values|;
    ShadowSizes(g, b, Push(st, q, v), shadow, all);
    PushedBack(st.states, q);
    PushedBack(st.values, v);
    UnderOk(g, b.auto, shadow, all, n);
    lower, syms, up, x := Stack(shadow.states[..n + 1], shadow.values[..n]), all[..n], shadow.values[n], all[n];
    SameSlice(g, b.exact, shadow.values, Push(st, q, v).values, 0, n);
    SliceEnds(shadow.values, n);
    SliceEnds(Push(st, q, v).values, n);
    assert Same(g, b.exact, shadow.values[n], Push(st, q, v).values[n]);
    TopOf(g, b.auto, shadow, all, n);
    assert shadow.values == lower.values + [up];
    YieldsAppend(lower.values, [up]);
    YieldsOne(up);
  }

  lemma TopOf(g: Grammar, a: Automaton, st: Stack, syms: seq<Symbol>, n: nat)
    requires StackOk(g, a, st, syms) && n < |syms|
    ensures Linked(a, st.states[n], syms[n], st.states[n + 1]) && Derives(g, st.values[n], syms[n]) && ReadsLeft(st.values[n], st.values[..n])
  {
    hide Linked, Derives, ReadsLeft;
  }

  lemma FinePush(g: Grammar, b: Basis, input: seq<Token>, st: Stack, lower: Stack, syms: seq<Symbol>, q: nat, v: Tree, up: Tree, x: Symbol, pos: nat)
    requires Shadows(g, b, st, lower, syms) && Linked(b.auto, Top(st), x, q)
    requires Derives(g, up, x) && ReadsLeft(up, lower.values) && Same(g, b.exact, up, v)
    requires pos <= |input| && Yields(lower.values) + Yield(up) == input[..pos]
    ensures Fine(g, b, input, Push(st, q, v), pos)
  {
    hide Derives, ReadsLeft, Linked, Yield, Yields, Same, SameAll, StackOk;
    ShadowSizes(g, b, st, lower, syms);
    PushOk(g, b.auto, lower, syms, x, q, up);
    SamePush(g, b.exact, lower.values, st.values, up, v);
    YieldsAppend(lower.values, [up]);
    YieldsOne(up);
    assert Shadows(g, b, Push(st, q, v), Push(lower, q, up), syms + [x]);
  }

  /** Two values that converge on the same state above the same stack can be merged: they stand for
      trees of the same symbol over the same tokens. */
  lemma FineMerge(g: Grammar, b: Basis, input: seq<Token>, st: Stack, q: nat, v: Tree, w: Tree, pos: nat)
    requires AutomatonOk(g, b.auto) && Shaped(st) && Fine(g, b, input, Push(st, q, v), pos) && Fine(g, b, input, Push(st, q, w), pos)
    ensures Fine(g, b, input, Push(st, q, Both(v, w)), pos)
  {
    hide AutomatonOk, Fine, Derives, ReadsLeft, Linked, Yield, Yields, SameAll, StackOk, Collapse;
    var lower, syms, up, x := FineTop(g, b, input, st, q, v, pos);
    var lower', syms', up', y := FineTop(g, b, input, st, q, w, pos);
    ShadowSizes(g, b, st, lower, syms);
    SymbolsAgree(g, b, st, lower, syms, x, y, q);
    AlikeBecauseSame(g, b.exact, lower'.values, lower.values, st.values);
    SameYields(g, b.exact, lower.values, st.values);
    SameYields(g, b.exact, lower'.values, st.values);
    RereadOk(g, up', y, lower'.values, lower.values);
    var up'' := Reread(up', lower.values);
    SameTail(Yields(lower.values), Yield(up), Yield(up''));
    BothDerive(g, up, up'', x, lower.values);
    SameBoth(g, b.exact, up, v, up'', w);
    FinePush(g, b, input, st, lower, syms, q, Both(v, w), Both(up, up''), x, pos);
  }

  lemma SymbolsAgree(g: Grammar, b: Basis, st: Stack, lower: Stack, syms: seq<Symbol>, x: Symbol, y: Symbol, q: nat)
    requires AutomatonOk(g, b.auto) && Shadows(g, b, st, lower, syms) && Linked(b.auto, Top(st), x, q) && Linked(b.auto, Top(st), y, q)
    ensures x == y
  {
    hide AutomatonOk, Linked, StackOk, SameAll;
    ShadowSizes(g, b, st, lower, syms);
    StatesInRange(g, b.auto, lower, syms);
    AccessUnique(g, b.auto, Top(st), x, y, q);
  }

  lemma BothDerive(g: Grammar, t: Tree, u: Tree, x: Symbol, left: seq<Tree>)
    requires Derives(g, t, x) && Derives(g, u, x) && Yield(t) == Yield(u) && ReadsLeft(t, left) && ReadsLeft(u, left)
    ensures Derives(g, Both(t, u), x) && ReadsLeft(Both(t, u), left) && Yield(Both(t, u)) == Yield(t)
  {
  }

  lemma SameTail<T>(x: seq<T>, y: seq<T>, z: seq<T>)
    requires x + y == x + z
    ensures y == z
  {
    assert (x + y)[|x|..] == y && (x + z)[|x|..] == z;
  }
}
