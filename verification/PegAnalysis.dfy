/** What a grammar is when it is read as a PEG, and the static analysis that decides whether matching it
    ends (src/peg.ts:41-84, 148-212). */
module PegAnalysis {
  import opened Options
  import opened Graphs
  import Grammars

  type Prec = Grammars.Prec

  // A predicate looks ahead without consuming: `Not` negates.
  datatype Sym = Token(t: nat) | NonTerminal(n: nat) | Predicate(negate: bool, sym: Sym)

  // `peek` is set on the empty rule of a mid-rule action.
  datatype Rule = Rule(lhs: nat, rhs: seq<Sym>, prec: Option<Prec>, peek: Option<nat>)

  // Rule 0 is the augmented rule, which matching never uses.
  type Grammar = seq<Rule>

  // ----- nullable symbols -----

  predicate Nullable(nullable: set<nat>, s: Sym) {
    match s
    case Token(_) => false
    case NonTerminal(n) => n in nullable
    case Predicate(_, _) => true
  }

  predicate AllNullable(nullable: set<nat>, rhs: seq<Sym>) {
    forall i | 0 <= i < |rhs| :: Nullable(nullable, rhs[i])
  }

  // `s` matches the empty string by a derivation of height at most `h`.
  ghost predicate EmptyIn(g: Grammar, s: Sym, h: nat)
    decreases h, 1
  {
    match s
    case Token(_) => false
    case NonTerminal(n) => exists r :: 0 <= r < |g| && g[r].lhs == n && RuleEmptyIn(g, r, h)
    case Predicate(_, _) => true
  }

  ghost predicate RuleEmptyIn(g: Grammar, r: nat, h: nat)
    requires r < |g|
    decreases h, 0
  {
    h > 0 && forall i | 0 <= i < |g[r].rhs| :: EmptyIn(g, g[r].rhs[i], h - 1)
  }

  ghost predicate DerivesEmpty(g: Grammar, n: nat) {
    exists h: nat :: EmptyIn(g, NonTerminal(n), h)
  }

  ghost predicate Closed(g: Grammar, nullable: set<nat>) {
    forall r | 0 <= r < |g| && AllNullable(nullable, g[r].rhs) :: g[r].lhs in nullable
  }

  lemma {:induction false} EmptyMonotone(g: Grammar, s: Sym, h: nat, k: nat)
    requires EmptyIn(g, s, h) && h <= k
    ensures EmptyIn(g, s, k)
    decreases h
  {
    if s.NonTerminal? {
      var r :| 0 <= r < |g| && g[r].lhs == s.n && RuleEmptyIn(g, r, h);
      forall i | 0 <= i < |g[r].rhs| ensures EmptyIn(g, g[r].rhs[i], k - 1) {
        EmptyMonotone(g, g[r].rhs[i], h - 1, k - 1);
      }
      assert RuleEmptyIn(g, r, k);
    }
  }

  // What derives the empty string is in every closed set.
  lemma {:induction false} EmptyInClosed(g: Grammar, nullable: set<nat>, s: Sym, h: nat)
    requires Closed(g, nullable) && EmptyIn(g, s, h)
    ensures Nullable(nullable, s)
    decreases h
  {
    if s.NonTerminal? {
      var r :| 0 <= r < |g| && g[r].lhs == s.n && RuleEmptyIn(g, r, h);
      forall i | 0 <= i < |g[r].rhs| ensures Nullable(nullable, g[r].rhs[i]) {
        EmptyInClosed(g, nullable, g[r].rhs[i], h - 1);
      }
      assert AllNullable(nullable, g[r].rhs);
    }
  }

  lemma SomeHeight(g: Grammar, s: Sym)
    requires s.Predicate? || (s.NonTerminal? && DerivesEmpty(g, s.n))
    ensures exists h: nat :: EmptyIn(g, s, h)
  {
    if s.Predicate? {
      assert EmptyIn(g, s, 0);
    } else {
      var h: nat :| EmptyIn(g, NonTerminal(s.n), h);
      assert s == NonTerminal(s.n);
    }
  }

  // One height for a whole right-hand side.
  lemma {:induction false} CommonHeight(g: Grammar, rhs: seq<Sym>) returns (h: nat)
    requires forall i | 0 <= i < |rhs| :: rhs[i].Predicate? || (rhs[i].NonTerminal? && DerivesEmpty(g, rhs[i].n))
    ensures forall i | 0 <= i < |rhs| :: EmptyIn(g, rhs[i], h)
  {
    if rhs == [] {
      h := 0;
    } else {
      var rest := rhs[1..];
      var k := CommonHeight(g, rest);
      SomeHeight(g, rhs[0]);
      var j: nat :| EmptyIn(g, rhs[0], j);
      h := if k < j then j else k;
      forall i | 0 <= i < |rhs| ensures EmptyIn(g, rhs[i], h) {
        if i == 0 { EmptyMonotone(g, rhs[0], j, h); } else { EmptyMonotone(g, rest[i - 1], k, h); }
      }
    }
  }

  lemma RuleDerives(g: Grammar, r: nat, nullable: set<nat>)
    requires r < |g| && AllNullable(nullable, g[r].rhs) && forall n | n in nullable :: DerivesEmpty(g, n)
    ensures DerivesEmpty(g, g[r].lhs)
  {
    forall i | 0 <= i < |g[r].rhs| ensures g[r].rhs[i].Predicate? || (g[r].rhs[i].NonTerminal? && DerivesEmpty(g, g[r].rhs[i].n)) {
      assert Nullable(nullable, g[r].rhs[i]);
    }
    var h := CommonHeight(g, g[r].rhs);
    assert RuleEmptyIn(g, r, h + 1);
    assert EmptyIn(g, NonTerminal(g[r].lhs), h + 1);
  }

  /** The fixed point is exactly the nonterminals that derive the empty string. */
  method NullableSyms(g: Grammar) returns (nullable: set<nat>)
    ensures Closed(g, nullable)
    ensures forall n :: n in nullable <==> DerivesEmpty(g, n)
  {
    hide EmptyIn, DerivesEmpty;
    nullable := {};
    ghost var lhs := set r | 0 <= r < |g| :: g[r].lhs;
    var changed := true;
    while changed
      invariant nullable <= lhs && (forall n | n in nullable :: DerivesEmpty(g, n))
      invariant !changed ==> Closed(g, nullable)
      decreases |lhs - nullable|, if changed then 1 else 0
    {
      changed := false;
      ghost var before := nullable;
      for k := 0 to |g|
        invariant before <= nullable <= lhs && (forall n | n in nullable :: DerivesEmpty(g, n))
        invariant changed <==> before < nullable
        invariant !changed ==> forall r | 0 <= r < k && AllNullable(nullable, g[r].rhs) :: g[r].lhs in nullable
      {
        if g[k].lhs !in nullable && AllNullable(nullable, g[k].rhs) {
          RuleDerives(g, k, nullable);
          nullable := nullable + {g[k].lhs};
          changed := true;
        }
      }
      if changed { Fewer(lhs, before, nullable); } else { assert nullable == before; }
    }
    forall n | DerivesEmpty(g, n) ensures n in nullable { DerivesInClosed(g, nullable, n); }
  }

  lemma DerivesInClosed(g: Grammar, nullable: set<nat>, n: nat)
    requires Closed(g, nullable) && DerivesEmpty(g, n)
    ensures n in nullable
  {
    var h: nat :| EmptyIn(g, NonTerminal(n), h);
    EmptyInClosed(g, nullable, NonTerminal(n), h);
  }

  lemma Fewer(all: set<nat>, a: set<nat>, b: set<nat>)
    requires a < b <= all
    ensures |all - b| < |all - a|
  {
    var x :| x in b && x !in a;
    assert all - b <= (all - a) - {x};
    SmallerSize(all - b, (all - a) - {x});
  }

  lemma {:induction false} SmallerSize(a: set<nat>, b: set<nat>)
    requires a <= b
    ensures |a| <= |b|
  {
    if a != {} {
      var x :| x in a;
      SmallerSize(a - {x}, b - {x});
    }
  }

  // ----- left corners -----

  function Inner(s: Sym): Sym {
    if s.Predicate? then s.sym else s
  }

  // `v` can be entered from rule `r` at position `i` before anything is consumed.
  predicate Corner(g: Grammar, nullable: set<nat>, r: nat, i: nat, v: nat) {
    r < |g| && i < |g[r].rhs| && AllNullable(nullable, g[r].rhs[..i]) && Inner(g[r].rhs[i]) == NonTerminal(v)
  }

  // The one left recursion a seed can be grown for: the rule starts with its own left-hand side.
  predicate Direct(g: Grammar, r: nat) {
    r < |g| && g[r].rhs != [] && g[r].rhs[0] == NonTerminal(g[r].lhs)
  }

  // A rule enters its own left-hand side past a nullable prefix, or inside a predicate.
  predicate Indirect(g: Grammar, nullable: set<nat>, r: nat, i: nat) {
    r < |g| && Corner(g, nullable, r, i, g[r].lhs) && !(i == 0 && Direct(g, r))
  }

  ghost predicate CornerEdge(g: Grammar, nullable: set<nat>, u: nat, v: nat) {
    exists r: nat, i: nat :: CornerFrom(g, nullable, u, r, i, v)
  }

  predicate CornerFrom(g: Grammar, nullable: set<nat>, u: nat, r: nat, i: nat, v: nat) {
    r < |g| && g[r].lhs == u && Corner(g, nullable, r, i, v)
  }

  ghost predicate IndirectAt(g: Grammar, nullable: set<nat>, u: nat) {
    exists r: nat, i: nat :: r < |g| && g[r].lhs == u && Indirect(g, nullable, r, i)
  }

  // The corners of the first `r` rules, and of the first `i` positions of rule `r`.
  predicate Before(r0: nat, i0: nat, r: nat, i: nat) {
    r0 < r || (r0 == r && i0 < i)
  }

  ghost predicate EdgesUpTo(g: Grammar, nullable: set<nat>, edges: Edges, r: nat, i: nat) {
    && (forall u, v | v in Succ(edges, u) :: CornerEdge(g, nullable, u, v))
    && (forall r0: nat, i0: nat, v {:trigger Corner(g, nullable, r0, i0, v)} | Corner(g, nullable, r0, i0, v) && Before(r0, i0, r, i) :: v in Succ(edges, g[r0].lhs))
  }

  ghost predicate IndirectUpTo(g: Grammar, nullable: set<nat>, indirect: map<nat, nat>, r: nat, i: nat) {
    && (forall u | u in indirect :: IndirectAt(g, nullable, u))
    && (forall r0: nat, i0: nat {:trigger Indirect(g, nullable, r0, i0)} | Indirect(g, nullable, r0, i0) && Before(r0, i0, r, i) :: g[r0].lhs in indirect)
  }

  lemma AddEdge(g: Grammar, nullable: set<nat>, edges: Edges, r: nat, i: nat, v: nat, more: Edges)
    requires EdgesUpTo(g, nullable, edges, r, i) && Corner(g, nullable, r, i, v) && g[r].lhs in edges
    requires more == edges[g[r].lhs := if v in edges[g[r].lhs] then edges[g[r].lhs] else edges[g[r].lhs] + [v]]
    ensures EdgesUpTo(g, nullable, more, r, i + 1)
  {
    hide AllNullable;
    assert CornerFrom(g, nullable, g[r].lhs, r, i, v);
    forall r0: nat, i0: nat, w: nat | Corner(g, nullable, r0, i0, w) && Before(r0, i0, r, i + 1) ensures w in Succ(more, g[r0].lhs) {
      if Before(r0, i0, r, i) { assert w in Succ(edges, g[r0].lhs); }
    }
    forall u, w | w in Succ(more, u) ensures CornerEdge(g, nullable, u, w) {
      if w !in Succ(edges, u) { assert u == g[r].lhs && w == v; }
    }
  }

  // A position that is no corner adds nothing.
  lemma NoEdge(g: Grammar, nullable: set<nat>, edges: Edges, indirect: map<nat, nat>, r: nat, i: nat)
    requires EdgesUpTo(g, nullable, edges, r, i) && IndirectUpTo(g, nullable, indirect, r, i)
    requires forall v: nat :: !Corner(g, nullable, r, i, v)
    ensures EdgesUpTo(g, nullable, edges, r, i + 1) && IndirectUpTo(g, nullable, indirect, r, i + 1)
  {
    hide Corner;
  }

  lemma CornerStops(g: Grammar, nullable: set<nat>, r: nat, i: nat, v: nat, k: nat)
    requires Corner(g, nullable, r, i, v) && k < |g[r].rhs| && !Nullable(nullable, g[r].rhs[k])
    ensures i <= k
  {
    NullableAt(nullable, g[r].rhs, i, k);
  }

  lemma NullableAt(nullable: set<nat>, rhs: seq<Sym>, i: nat, k: nat)
    requires i <= |rhs| && k < |rhs| && AllNullable(nullable, rhs[..i])
    ensures k < i ==> Nullable(nullable, rhs[k])
  {
    if k < i { assert rhs[..i][k] == rhs[k]; }
  }

  // Nothing past a symbol that consumes is a corner.
  lemma RestOfRule(g: Grammar, nullable: set<nat>, edges: Edges, indirect: map<nat, nat>, r: nat, i: nat)
    requires EdgesUpTo(g, nullable, edges, r, i) && IndirectUpTo(g, nullable, indirect, r, i) && r < |g|
    requires i == |g[r].rhs| || (0 < i < |g[r].rhs| && !Nullable(nullable, g[r].rhs[i - 1]))
    ensures EdgesUpTo(g, nullable, edges, r + 1, 0) && IndirectUpTo(g, nullable, indirect, r + 1, 0)
  {
    forall r0: nat, i0: nat, v: nat | Corner(g, nullable, r0, i0, v) && Before(r0, i0, r + 1, 0) ensures Before(r0, i0, r, i) {
      if r0 == r && i < |g[r].rhs| { CornerStops(g, nullable, r, i0, v, i - 1); }
    }
  }

  // The edges are exactly the left corners.
  ghost predicate Computed(g: Grammar, nullable: set<nat>, edges: Edges, indirect: map<nat, nat>) {
    && (forall u, v :: v in Succ(edges, u) <==> CornerEdge(g, nullable, u, v))
    && (forall u :: u in indirect <==> IndirectAt(g, nullable, u))
  }

  method LeftCorners(g: Grammar, nullable: set<nat>) returns (edges: Edges, indirect: map<nat, nat>)
    ensures Computed(g, nullable, edges, indirect)
  {
    hide EdgesUpTo, IndirectUpTo, Computed, Succ, AllNullable;
    edges, indirect := map[], map[];
    NothingYet(g, nullable);
    for r := 0 to |g|
      invariant EdgesUpTo(g, nullable, edges, r, 0) && IndirectUpTo(g, nullable, indirect, r, 0)
    {
      var lhs, rhs := g[r].lhs, g[r].rhs;
      if lhs !in edges {
        Entry(g, nullable, edges, r, lhs);
        edges := edges[lhs := []];
      }
      var i := 0;
      NoneNullable(nullable, rhs);
      while i < |rhs|
        invariant i <= |rhs| && lhs in edges && AllNullable(nullable, rhs[..i])
        invariant EdgesUpTo(g, nullable, edges, r, i) && IndirectUpTo(g, nullable, indirect, r, i)
      {
        var inner := Inner(rhs[i]);
        if inner.NonTerminal? {
          var set' := if inner.n in edges[lhs] then edges[lhs] else edges[lhs] + [inner.n];
          AddEdge(g, nullable, edges, r, i, inner.n, edges[lhs := set']);
          edges := edges[lhs := set'];
          if inner.n == lhs && !(i == 0 && rhs[0] == inner) && lhs !in indirect {
            AddIndirect(g, nullable, indirect, r, i);
            indirect := indirect[lhs := r];
          } else {
            NotIndirect(g, nullable, indirect, r, i);
          }
        } else {
          NoEdge(g, nullable, edges, indirect, r, i);
        }
        i := i + 1;
        if !Nullable(nullable, rhs[i - 1]) { break; }
        OneMoreNullable(nullable, rhs, i);
      }
      RestOfRule(g, nullable, edges, indirect, r, i);
    }
    AllEdges(g, nullable, edges, indirect);
  }

  lemma NothingYet(g: Grammar, nullable: set<nat>)
    ensures EdgesUpTo(g, nullable, map[], 0, 0) && IndirectUpTo(g, nullable, map[], 0, 0)
  {
  }

  lemma Entry(g: Grammar, nullable: set<nat>, edges: Edges, r: nat, u: nat)
    requires EdgesUpTo(g, nullable, edges, r, 0) && u !in edges
    ensures EdgesUpTo(g, nullable, edges[u := []], r, 0)
  {
    hide Corner, CornerEdge;
    assert forall w: nat :: Succ(edges[u := []], w) == Succ(edges, w);
  }

  lemma NoneNullable(nullable: set<nat>, rhs: seq<Sym>)
    ensures AllNullable(nullable, rhs[..0])
  {
  }

  lemma OneMoreNullable(nullable: set<nat>, rhs: seq<Sym>, i: nat)
    requires 0 < i <= |rhs| && AllNullable(nullable, rhs[..i - 1]) && Nullable(nullable, rhs[i - 1])
    ensures AllNullable(nullable, rhs[..i])
  {
    forall j | 0 <= j < i ensures Nullable(nullable, rhs[..i][j]) {
      if j < i - 1 { assert rhs[..i - 1][j] == rhs[j]; }
    }
  }

  lemma AddIndirect(g: Grammar, nullable: set<nat>, indirect: map<nat, nat>, r: nat, i: nat)
    requires IndirectUpTo(g, nullable, indirect, r, i) && r < |g|
    requires Corner(g, nullable, r, i, g[r].lhs) && !(i == 0 && Direct(g, r))
    ensures IndirectUpTo(g, nullable, indirect[g[r].lhs := r], r, i + 1)
  {
    hide Corner;
    assert Indirect(g, nullable, r, i);
  }

  lemma NotIndirect(g: Grammar, nullable: set<nat>, indirect: map<nat, nat>, r: nat, i: nat)
    requires IndirectUpTo(g, nullable, indirect, r, i) && r < |g|
    requires Indirect(g, nullable, r, i) ==> g[r].lhs in indirect
    ensures IndirectUpTo(g, nullable, indirect, r, i + 1)
  {
    hide Indirect;
  }

  lemma AllEdges(g: Grammar, nullable: set<nat>, edges: Edges, indirect: map<nat, nat>)
    requires EdgesUpTo(g, nullable, edges, |g|, 0) && IndirectUpTo(g, nullable, indirect, |g|, 0)
    ensures Computed(g, nullable, edges, indirect)
  {
    hide Succ;
  }

  // ----- the analysis -----

  // What `analyse` reports as an error.
  datatype Problem = IndirectRecursion(members: seq<nat>) | PastNullable(rule: nat)

  /** The alternatives of each nonterminal in the order they are tried, those that start with the
      nonterminal itself, the others, the mid-rule actions, and what is wrong. */
  datatype Analysis = Analysis(alts: map<nat, seq<nat>>, direct: map<nat, seq<nat>>, base: map<nat, seq<nat>>,
                               anon: map<nat, nat>, problems: seq<Problem>)

  // The rules of `n` below rule `k`, without the augmented one.
  function RulesOf(g: Grammar, n: nat, k: nat): (s: seq<nat>)
    requires k <= |g|
    ensures forall r :: r in s <==> 1 <= r < k && g[r].lhs == n
  {
    if k <= 1 then [] else if g[k - 1].lhs == n then RulesOf(g, n, k - 1) + [k - 1] else RulesOf(g, n, k - 1)
  }

  // A bare epsilon alternative.
  predicate Epsilon(g: Grammar, r: nat) {
    r < |g| && g[r].rhs == [] && g[r].peek.None?
  }

  // The epsilon alternatives of a list, or the others.
  function Epsilons(g: Grammar, s: seq<nat>, want: bool): (f: seq<nat>)
    ensures forall r :: r in f <==> r in s && Epsilon(g, r) == want
  {
    if s == [] then [] else (if Epsilon(g, s[0]) == want then [s[0]] else []) + Epsilons(g, s[1..], want)
  }

  // The rules of a list that start with their own left-hand side, or the others.
  function Directs(g: Grammar, s: seq<nat>, want: bool): (f: seq<nat>)
    ensures forall r :: r in f <==> r in s && Direct(g, r) == want
  {
    if s == [] then [] else (if Direct(g, s[0]) == want then [s[0]] else []) + Directs(g, s[1..], want)
  }

  // A mid-rule action.
  predicate MidRule(g: Grammar, r: nat) {
    r < |g| && g[r].rhs == [] && g[r].peek.Some?
  }

  predicate EndsFull(g: Grammar, list: seq<nat>) {
    list != [] && list[|list| - 1] < |g| && g[list[|list| - 1]].rhs != []
  }

  // The order alternatives are tried in: epsilon goes last.
  function Tried(g: Grammar, list: seq<nat>): seq<nat> {
    var empty := Epsilons(g, list, true);
    if empty != [] && EndsFull(g, list)
    then Epsilons(g, list, false) + empty
    else list
  }

  ghost predicate EpsilonLast(g: Grammar, list: seq<nat>) {
    forall i, j | 0 <= i < j < |list| && Epsilon(g, list[i]) :: Epsilon(g, list[j])
  }

  lemma {:induction false} EpsilonsSplit(g: Grammar, s: seq<nat>)
    ensures multiset(Epsilons(g, s, true)) + multiset(Epsilons(g, s, false)) == multiset(s)
  {
    if s != [] {
      EpsilonsSplit(g, s[1..]);
      assert s == [s[0]] + s[1..];
    }
  }

  lemma PartsAre(g: Grammar, s: seq<nat>)
    ensures forall i | 0 <= i < |Epsilons(g, s, true)| :: Epsilon(g, Epsilons(g, s, true)[i])
    ensures forall i | 0 <= i < |Epsilons(g, s, false)| :: !Epsilon(g, Epsilons(g, s, false)[i])
  {
    forall i | 0 <= i < |Epsilons(g, s, true)| ensures Epsilon(g, Epsilons(g, s, true)[i]) {
      assert Epsilons(g, s, true)[i] in Epsilons(g, s, true);
    }
    forall i | 0 <= i < |Epsilons(g, s, false)| ensures !Epsilon(g, Epsilons(g, s, false)[i]) {
      assert Epsilons(g, s, false)[i] in Epsilons(g, s, false);
    }
  }

  /** Reordering loses no alternative, and leaves one after an epsilon alternative exactly when it was so
      already and the last one is empty. */
  lemma TriedKeeps(g: Grammar, list: seq<nat>)
    requires forall i | 0 <= i < |list| :: list[i] < |g|
    ensures multiset(Tried(g, list)) == multiset(list)
    ensures EpsilonLast(g, Tried(g, list)) <==> EpsilonLast(g, list) || EndsFull(g, list)
  {
    var yes, no := Epsilons(g, list, true), Epsilons(g, list, false);
    EpsilonsSplit(g, list);
    if yes != [] && EndsFull(g, list) {
      forall i, j | 0 <= i < j < |no + yes| && Epsilon(g, (no + yes)[i]) ensures Epsilon(g, (no + yes)[j]) {
        PartsAre(g, list);
      }
    } else if EndsFull(g, list) {
      forall i | 0 <= i < |list| ensures !Epsilon(g, list[i]) { assert list[i] in list; }
    }
  }

  /** An epsilon alternative both first and last hides what stands between. */
  lemma TriedHides() returns (g: Grammar, list: seq<nat>)
    ensures (forall i | 0 <= i < |list| :: list[i] < |g|) && !EpsilonLast(g, Tried(g, list))
  {
    var empty := Rule(1, [], None, None);
    g, list := [Rule(0, [NonTerminal(1)], None, None), empty, Rule(1, [Token(0)], None, None), empty], [1, 2, 3];
    assert Epsilon(g, list[0]) && !Epsilon(g, list[1]);
  }

  // What parsing needs of the maps.
  ghost predicate SortedAlts(g: Grammar, alts: map<nat, seq<nat>>) {
    && (forall n :: n in alts <==> RulesOf(g, n, |g|) != [])
    && (forall n | n in alts :: alts[n] == Tried(g, RulesOf(g, n, |g|)))
  }

  ghost predicate SortedParts(g: Grammar, a: Analysis) {
    && a.direct.Keys == a.alts.Keys && a.base.Keys == a.alts.Keys
    && (forall n | n in a.alts :: a.direct[n] == Directs(g, a.alts[n], true))
    && (forall n | n in a.alts :: a.base[n] == Directs(g, a.alts[n], false))
  }

  ghost predicate SortedAnon(g: Grammar, anon: map<nat, nat>) {
    && (forall n | n in anon :: 1 <= anon[n] < |g| && g[anon[n]].lhs == n && MidRule(g, anon[n]))
    && (forall r: nat | 1 <= r && MidRule(g, r) :: g[r].lhs in anon)
  }

  ghost predicate Sorted(g: Grammar, a: Analysis) {
    SortedAlts(g, a.alts) && SortedParts(g, a) && SortedAnon(g, a.anon)
  }

  // Nothing but the augmented rule has its left-hand side, and nothing refers to it.
  ghost predicate Augmented(g: Grammar) {
    && |g| > 0 && (forall r | 1 <= r < |g| :: g[r].lhs != g[0].lhs)
    && (forall r, i | 0 <= r < |g| && 0 <= i < |g[r].rhs| :: Inner(g[r].rhs[i]) != NonTerminal(g[0].lhs))
  }

  /** All left recursion is of the form a seed can be grown for: no cycle of left corners through two
      nonterminals, and none from a rule to itself past its first position. */
  ghost predicate OnlyDirect(g: Grammar, nullable: set<nat>) {
    && (forall u, v | u != v :: !(CornersTo(g, nullable, u, v) && CornersTo(g, nullable, v, u)))
    && (forall u :: !IndirectAt(g, nullable, u))
  }

  ghost predicate CornersTo(g: Grammar, nullable: set<nat>, u: nat, v: nat) {
    exists p: seq<nat> :: p != [] && p[0] == u && p[|p| - 1] == v && CornerPath(g, nullable, p)
  }

  ghost predicate CornerPath(g: Grammar, nullable: set<nat>, p: seq<nat>) {
    forall i | 0 <= i < |p| - 1 :: CornerEdge(g, nullable, p[i], p[i + 1])
  }

  /** Entering a left corner goes down in rank, but for the recursion a seed is grown for. */
  ghost predicate Ranked(g: Grammar, nullable: set<nat>, rank: map<nat, nat>) {
    forall r: nat, i: nat, v: nat {:trigger Corner(g, nullable, r, i, v)} | 1 <= r < |g| && Corner(g, nullable, r, i, v) ::
      v in rank && g[r].lhs in rank && (rank[v] < rank[g[r].lhs] || (i == 0 && Direct(g, r)))
  }

  // The component a node is in.
  ghost function ComponentOf(comps: seq<seq<nat>>, n: nat): (i: nat)
    requires n in Members(comps)
    ensures i < |comps| && n in comps[i]
  {
    var i :| 0 <= i < |comps| && n in comps[i];
    i
  }

  ghost function Ranks(comps: seq<seq<nat>>): map<nat, nat> {
    map n | n in Members(comps) :: ComponentOf(comps, n)
  }

  lemma SameComponent(edges: Edges, comps: seq<seq<nat>>, i: nat, n: nat)
    requires Components(edges, comps) && i < |comps| && n in comps[i]
    ensures n in Members(comps) && ComponentOf(comps, n) == i
  {
  }

  // An edge leads to the same or an earlier component.
  lemma EdgeDown(edges: Edges, comps: seq<seq<nat>>, u: nat, v: nat)
    requires Components(edges, comps) && u in Members(comps) && v in Succ(edges, u)
    ensures v in Members(comps) && ComponentOf(comps, v) <= ComponentOf(comps, u)
  {
    hide Succ, Reaches, Listed;
    var i := ComponentOf(comps, u);
    assert v in Members(comps[..i + 1]);
    var j :| 0 <= j < i + 1 && v in comps[..i + 1][j];
    SameComponent(edges, comps, j, v);
  }

  // No component is a problem: one node, without indirect recursion.
  ghost predicate Clean(comps: seq<seq<nat>>, indirect: map<nat, nat>) {
    forall i | 0 <= i < |comps| :: |comps[i]| == 1 && comps[i][0] !in indirect
  }

  lemma CleanRanked(g: Grammar, nullable: set<nat>, edges: Edges, indirect: map<nat, nat>, comps: seq<seq<nat>>)
    requires Computed(g, nullable, edges, indirect) && Components(edges, comps) && Clean(comps, indirect)
    requires forall r | 1 <= r < |g| :: g[r].lhs in Members(comps)
    ensures Ranked(g, nullable, Ranks(comps))
  {
    hide Corner, Components, Succ, Direct;
    var rank := Ranks(comps);
    forall r: nat, i: nat, v: nat | 1 <= r < |g| && Corner(g, nullable, r, i, v)
      ensures v in rank && g[r].lhs in rank && (rank[v] < rank[g[r].lhs] || (i == 0 && Direct(g, r)))
    {
      var u := g[r].lhs;
      assert CornerFrom(g, nullable, u, r, i, v);
      EdgeDown(edges, comps, u, v);
      if rank[v] == rank[u] {
        var c := comps[rank[u]];
        assert u == c[0] == v;
        assert !IndirectAt(g, nullable, u);
        assert !Indirect(g, nullable, r, i);
      }
    }
  }

  lemma PathsAgree(g: Grammar, nullable: set<nat>, edges: Edges, indirect: map<nat, nat>, u: nat, v: nat)
    requires Computed(g, nullable, edges, indirect)
    ensures Reaches(edges, u, v) <==> CornersTo(g, nullable, u, v)
  {
    hide Succ, CornerEdge;
    if Reaches(edges, u, v) {
      var p :| PathBetween(edges, p, u, v);
      assert CornerPath(g, nullable, p);
    }
    if CornersTo(g, nullable, u, v) {
      var p: seq<nat> :| p != [] && p[0] == u && p[|p| - 1] == v && CornerPath(g, nullable, p);
      assert PathBetween(edges, p, u, v);
    }
  }

  // A node with a successor other than itself on a cycle has a rule.
  lemma OnCycle(g: Grammar, nullable: set<nat>, u: nat, v: nat)
    requires Augmented(g) && u != v && CornersTo(g, nullable, u, v) && CornersTo(g, nullable, v, u)
    ensures exists r :: 1 <= r < |g| && g[r].lhs == u
  {
    hide AllNullable;
    var p: seq<nat> :| p != [] && p[0] == u && p[|p| - 1] == v && CornerPath(g, nullable, p);
    var q: seq<nat> :| q != [] && q[0] == v && q[|q| - 1] == u && CornerPath(g, nullable, q);
    assert CornerEdge(g, nullable, p[0], p[1]);
    assert CornerEdge(g, nullable, q[|q| - 2], q[|q| - 2 + 1]);
  }

  lemma CleanIsDirect(g: Grammar, nullable: set<nat>, edges: Edges, indirect: map<nat, nat>, comps: seq<seq<nat>>)
    requires Augmented(g) && Computed(g, nullable, edges, indirect) && Components(edges, comps) && Clean(comps, indirect)
    requires forall r | 1 <= r < |g| :: g[r].lhs in Members(comps)
    ensures OnlyDirect(g, nullable)
  {
    hide Corner, Components, Succ, Direct, Computed, CornersTo, Reaches, Members;
    forall u, v | u != v ensures !(CornersTo(g, nullable, u, v) && CornersTo(g, nullable, v, u)) {
      if CornersTo(g, nullable, u, v) && CornersTo(g, nullable, v, u) {
        OnCycle(g, nullable, u, v);
        OnCycle(g, nullable, v, u);
        PathsAgree(g, nullable, edges, indirect, u, v);
        PathsAgree(g, nullable, edges, indirect, v, u);
        ComponentsExact(edges, comps, u, v);
      }
    }
    forall u ensures !IndirectAt(g, nullable, u) { NoIndirect(g, nullable, edges, indirect, comps, u); }
  }

  lemma NoIndirect(g: Grammar, nullable: set<nat>, edges: Edges, indirect: map<nat, nat>, comps: seq<seq<nat>>, u: nat)
    requires Augmented(g) && Computed(g, nullable, edges, indirect) && Clean(comps, indirect)
    requires forall r | 1 <= r < |g| :: g[r].lhs in Members(comps)
    ensures !IndirectAt(g, nullable, u)
  {
    hide AllNullable, Succ, Members, Clean;
    if IndirectAt(g, nullable, u) {
      var r: nat, i: nat :| r < |g| && g[r].lhs == u && Indirect(g, nullable, r, i);
      assert Inner(g[r].rhs[i]) == NonTerminal(u);
      CleanAt(comps, indirect, u);
    }
  }

  lemma CleanAt(comps: seq<seq<nat>>, indirect: map<nat, nat>, u: nat)
    requires Clean(comps, indirect) && u in Members(comps)
    ensures u !in indirect
  {
    var c := ComponentOf(comps, u);
    assert |comps[c]| == 1;
  }

  // Two nodes of one component are a cycle.
  lemma TwoTogether(g: Grammar, nullable: set<nat>, edges: Edges, indirect: map<nat, nat>, comps: seq<seq<nat>>, i: nat)
    requires Computed(g, nullable, edges, indirect) && Components(edges, comps) && i < |comps| && |comps[i]| > 1
    ensures comps[i][0] != comps[i][1]
    ensures CornersTo(g, nullable, comps[i][0], comps[i][1]) && CornersTo(g, nullable, comps[i][1], comps[i][0])
  {
    hide Corner, Succ, Direct, CornersTo, Reaches, Members, IndirectAt, CornerEdge;
    var c := comps[i];
    assert Listed(c);
    PathsAgree(g, nullable, edges, indirect, c[0], c[1]);
    PathsAgree(g, nullable, edges, indirect, c[1], c[0]);
  }

  lemma DirectIsClean(g: Grammar, nullable: set<nat>, edges: Edges, indirect: map<nat, nat>, comps: seq<seq<nat>>)
    requires Computed(g, nullable, edges, indirect) && Components(edges, comps) && OnlyDirect(g, nullable)
    ensures Clean(comps, indirect)
  {
    hide Corner, Succ, Direct, CornersTo, Reaches, Members, IndirectAt, CornerEdge;
    forall i | 0 <= i < |comps| ensures |comps[i]| == 1 && comps[i][0] !in indirect {
      assert Listed(comps[i]);
      if |comps[i]| > 1 { TwoTogether(g, nullable, edges, indirect, comps, i); }
    }
  }

  lemma NoRules(g: Grammar)
    requires |g| > 0
    ensures forall n :: RulesOf(g, n, 1) == []
  {
  }

  lemma NextRule(g: Grammar, r: nat)
    requires 1 <= r < |g|
    ensures forall n | n != g[r].lhs :: RulesOf(g, n, r + 1) == RulesOf(g, n, r)
    ensures RulesOf(g, g[r].lhs, r + 1) == RulesOf(g, g[r].lhs, r) + [r]
  {
  }

  // ----- the loops of `analyse` -----

  // The rules below `k` in order of appearance of their left-hand sides.
  method Collect(g: Grammar) returns (order: seq<nat>, alts: map<nat, seq<nat>>, anon: map<nat, nat>)
    requires |g| > 0
    ensures forall n :: n in alts <==> RulesOf(g, n, |g|) != []
    ensures forall n | n in alts :: alts[n] == RulesOf(g, n, |g|)
    ensures (forall n :: n in order <==> n in alts) && (forall i, j | 0 <= i < j < |order| :: order[i] != order[j])
    ensures SortedAnon(g, anon)
  {
    hide RulesOf, MidRule;
    order, alts, anon := [], map[], map[];
    NoRules(g);
    for r := 1 to |g|
      invariant forall n :: n in alts <==> RulesOf(g, n, r) != []
      invariant forall n | n in alts :: alts[n] == RulesOf(g, n, r)
      invariant (forall n :: n in order <==> n in alts) && (forall i, j | 0 <= i < j < |order| :: order[i] != order[j])
      invariant forall n | n in anon :: 1 <= anon[n] < r && g[anon[n]].lhs == n && MidRule(g, anon[n])
      invariant forall q: nat | 1 <= q < r && MidRule(g, q) :: g[q].lhs in anon
    {
      var lhs := g[r].lhs;
      NextRule(g, r);
      if MidRule(g, r) { anon := anon[lhs := r]; }
      if lhs in alts {
        alts := alts[lhs := alts[lhs] + [r]];
      } else {
        order := order + [lhs];
        alts := alts[lhs := [r]];
      }
    }
    MidRulesInside(g);
  }

  lemma MidRulesInside(g: Grammar)
    ensures forall r: nat | MidRule(g, r) :: r < |g|
  {
  }

  // Epsilon alternatives go last.
  method Normalize(g: Grammar, order: seq<nat>, alts0: map<nat, seq<nat>>) returns (alts: map<nat, seq<nat>>)
    requires (forall n :: n in order <==> n in alts0) && (forall i, j | 0 <= i < j < |order| :: order[i] != order[j])
    ensures alts.Keys == alts0.Keys && forall n | n in alts0 :: alts[n] == Tried(g, alts0[n])
  {
    hide EndsFull, Epsilons;
    alts := alts0;
    for k := 0 to |order|
      invariant alts.Keys == alts0.Keys
      invariant forall j | 0 <= j < k :: alts[order[j]] == Tried(g, alts0[order[j]])
      invariant forall j | k <= j < |order| :: alts[order[j]] == alts0[order[j]]
    {
      var list := alts[order[k]];
      var empty := Epsilons(g, list, true);
      if empty != [] && EndsFull(g, list) {
        alts := alts[order[k] := Epsilons(g, list, false) + empty];
      }
    }
  }

  // Direct left recursion apart from the rest.
  method Split(g: Grammar, order: seq<nat>, alts: map<nat, seq<nat>>) returns (direct: map<nat, seq<nat>>, base: map<nat, seq<nat>>)
    requires (forall n :: n in order <==> n in alts)
    ensures direct.Keys == alts.Keys && base.Keys == alts.Keys
    ensures forall n | n in alts :: direct[n] == Directs(g, alts[n], true)
    ensures forall n | n in alts :: base[n] == Directs(g, alts[n], false)
  {
    direct, base := map[], map[];
    for k := 0 to |order|
      invariant forall n :: n in direct <==> n in order[..k]
      invariant forall n :: n in base <==> n in order[..k]
      invariant forall n | n in direct :: n in alts && direct[n] == Directs(g, alts[n], true)
      invariant forall n | n in base :: n in alts && base[n] == Directs(g, alts[n], false)
    {
      var n := order[k];
      assert order[..k + 1] == order[..k] + [n];
      direct := direct[n := Directs(g, alts[n], true)];
      base := base[n := Directs(g, alts[n], false)];
    }
    assert order[..|order|] == order;
  }

  method Problems(comps: seq<seq<nat>>, indirect: map<nat, nat>) returns (problems: seq<Problem>)
    requires forall i | 0 <= i < |comps| :: comps[i] != []
    ensures problems == [] <==> Clean(comps, indirect)
  {
    problems := [];
    for k := 0 to |comps|
      invariant problems == [] <==> forall i | 0 <= i < k :: |comps[i]| == 1 && comps[i][0] !in indirect
    {
      var comp := comps[k];
      if |comp| > 1 {
        problems := problems + [IndirectRecursion(comp)];
      } else if comp[0] in indirect {
        problems := problems + [PastNullable(indirect[comp[0]])];
      }
    }
  }

  /** The analysis finds a problem if and only if some left recursion is not of the supported form, and
      without one the emission order of the components is a rank that left corners descend. */
  method Analyse(g: Grammar) returns (a: Analysis, ghost nullable: set<nat>, ghost rank: map<nat, nat>)
    requires Augmented(g)
    ensures Sorted(g, a) && Closed(g, nullable) && forall n :: n in nullable <==> DerivesEmpty(g, n)
    ensures a.problems == [] <==> OnlyDirect(g, nullable)
    ensures a.problems == [] ==> Ranked(g, nullable, rank)
  {
    hide Sorted, SortedAnon, RulesOf, Computed, OnlyDirect, Ranked, Closed, DerivesEmpty, Components, Members, Tried, Direct, CornerEdge, IndirectAt, Succ, Clean;
    var order, alts0, anon := Collect(g);
    var alts := Normalize(g, order, alts0);
    var nulls := NullableSyms(g);
    nullable := nulls;
    var edges, indirect := LeftCorners(g, nulls);
    var comps := StronglyConnected(order, edges);
    NoneEmpty(edges, comps);
    var problems := Problems(comps, indirect);
    var direct, base := Split(g, order, alts);
    a := Analysis(alts, direct, base, anon, problems);
    AllSorted(g, alts0, a);
    rank := Ranks(comps);
    RulesCovered(g, order);
    if problems == [] {
      CleanRanked(g, nullable, edges, indirect, comps);
      CleanIsDirect(g, nullable, edges, indirect, comps);
    } else if OnlyDirect(g, nullable) {
      DirectIsClean(g, nullable, edges, indirect, comps);
    }
  }

  lemma AltAt(alts0: map<nat, seq<nat>>, alts: map<nat, seq<nat>>, n: nat)
    requires alts.Keys == alts0.Keys
    ensures n in alts <==> n in alts0
  {
    assert n in alts.Keys <==> n in alts0.Keys;
  }

  lemma SameTried(g: Grammar, list: seq<nat>, list': seq<nat>)
    requires list == list'
    ensures Tried(g, list) == Tried(g, list')
  {
  }

  lemma AltsSorted(g: Grammar, alts0: map<nat, seq<nat>>, alts: map<nat, seq<nat>>)
    requires forall n :: n in alts0 <==> RulesOf(g, n, |g|) != []
    requires forall n | n in alts0 :: alts0[n] == RulesOf(g, n, |g|)
    requires alts.Keys == alts0.Keys && forall n | n in alts0 :: alts[n] == Tried(g, alts0[n])
    ensures SortedAlts(g, alts)
  {
    hide Tried, RulesOf;
    forall n ensures n in alts <==> RulesOf(g, n, |g|) != [] { AltAt(alts0, alts, n); }
    forall n | n in alts ensures alts[n] == Tried(g, RulesOf(g, n, |g|)) {
      AltAt(alts0, alts, n);
      SameTried(g, alts0[n], RulesOf(g, n, |g|));
    }
  }

  lemma AllSorted(g: Grammar, alts0: map<nat, seq<nat>>, a: Analysis)
    requires forall n :: n in alts0 <==> RulesOf(g, n, |g|) != []
    requires forall n | n in alts0 :: alts0[n] == RulesOf(g, n, |g|)
    requires a.alts.Keys == alts0.Keys && forall n | n in alts0 :: a.alts[n] == Tried(g, alts0[n])
    requires SortedParts(g, a) && SortedAnon(g, a.anon)
    ensures Sorted(g, a)
  {
    hide Tried, RulesOf, SortedAlts, SortedParts, SortedAnon;
    AltsSorted(g, alts0, a.alts);
  }

  lemma NoneEmpty(edges: Edges, comps: seq<seq<nat>>)
    requires Components(edges, comps)
    ensures forall i | 0 <= i < |comps| :: comps[i] != []
  {
    hide Reaches, Succ, Members;
    forall i | 0 <= i < |comps| ensures comps[i] != [] { assert Listed(comps[i]); }
  }

  lemma RulesCovered(g: Grammar, order: seq<nat>)
    requires forall n :: n in order <==> RulesOf(g, n, |g|) != []
    ensures forall r | 1 <= r < |g| :: g[r].lhs in order
  {
    forall r: nat | 1 <= r < |g| ensures g[r].lhs in order { assert r in RulesOf(g, g[r].lhs, |g|); }
  }

  // ----- the alternatives as they are tried -----

  lemma InTried(g: Grammar, list: seq<nat>, r: nat)
    ensures r in Tried(g, list) <==> r in list
  {
    hide EndsFull, Epsilon;
  }

  lemma InAlternatives(g: Grammar, a: Analysis, n: nat, r: nat)
    requires Sorted(g, a)
    ensures n in a.alts && r in a.alts[n] <==> 1 <= r < |g| && g[r].lhs == n
    ensures n in a.alts ==> n in a.direct && n in a.base
    ensures n in a.alts ==> (r in a.direct[n] <==> r in a.alts[n] && Direct(g, r)) && (r in a.base[n] <==> r in a.alts[n] && !Direct(g, r))
  {
    hide SortedAnon, Direct, Tried, RulesOf, Directs;
    InTried(g, RulesOf(g, n, |g|), r);
    assert r in RulesOf(g, n, |g|) ==> RulesOf(g, n, |g|) != [];
    assert n in a.alts ==> n in a.direct.Keys && n in a.base.Keys;
  }
}
