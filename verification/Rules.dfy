/** From the alternatives of a grammar specification to numbered rules, mid-rule actions included
    (src/core.ts:339-415, 451-460). */
module Rules {
  import opened Options
  import opened Grammars

  // What an alternative lists: a symbol, or a mid-rule action.
  datatype Element = Sym(s: Symbol) | MidRule

  datatype Alternative = Alternative(lhs: nat, elements: seq<Element>, prec: Option<Prec>, identity: bool, merge: bool)

  // Symbols of a specification: named terminals, and nonterminals below `base`, the first free identity.
  predicate ElementOk(base: nat, e: Element) {
    match e
    case Sym(Term(t)) => t.Named?
    case Sym(NonTerm(n)) => n.Nt? && n.id < base
    case MidRule => true
  }

  predicate AlternativeOk(base: nat, alt: Alternative) {
    alt.lhs < base && forall e | e in alt.elements :: ElementOk(base, e)
  }

  // ----- what the rules so far guarantee -----

  predicate Known(n: nat, s: Symbol) {
    match s
    case Term(t) => t.Named?
    case NonTerm(n') => n'.Nt? && n'.id < n
  }

  // A rule whose action peeks is a mid-rule action: it has a fresh left-hand side and an empty right-hand side.
  predicate Peeks(base: nat, r: Rule) {
    r.peek > 0 ==> r.rhs == [] && r.lhs.Nt? && r.lhs.id >= base
  }

  // Where a mid-rule action stands in `rhs`, it stands at the position it peeks from.
  ghost predicate StandsAtPeek(r: Rule, rhs: seq<Symbol>) {
    r.peek > 0 ==> forall k | 0 <= k < |rhs| && rhs[k] == NonTerm(r.lhs) :: k == r.peek
  }

  ghost predicate RulesOk(base: nat, g: Grammar) {
    && |g| > 0 && g[0].lhs == Accept && g[0].peek == 0
    && |g[0].rhs| == 2 && g[0].rhs[0].NonTerm? && g[0].rhs[0].n.Nt? && g[0].rhs[0].n.id < base && g[0].rhs[1] == Term(End)
    && (forall r | 0 < r < |g| :: g[r].lhs.Nt? && g[r].lhs.id < base + |g|)
    && (forall r, k | 0 < r < |g| && 0 <= k < |g[r].rhs| :: Known(base + |g|, g[r].rhs[k]))
    && (forall r | 0 < r < |g| :: Peeks(base, g[r]))
    && (forall r, q | 0 < r < |g| && 0 < q < |g| :: StandsAtPeek(g[r], g[q].rhs))
  }

  /** Such rules are a well-formed grammar. */
  lemma RulesWellFormed(base: nat, g: Grammar)
    requires RulesOk(base, g)
    ensures WellFormed(g)
  {
    forall r, i | 0 < r < |g| && 0 <= i < |g[r].rhs|
      ensures g[r].rhs[i] != Term(End) && g[r].rhs[i] != Term(Error) && g[r].rhs[i] != NonTerm(Accept)
    {
      assert Known(base + |g|, g[r].rhs[i]);
    }
    forall r | 0 < r < |g| && g[r].peek > 0 ensures PeekPlaced(g, r) {
      assert Peeks(base, g[r]);
      forall q, i | 0 <= q < |g| && 0 <= i < |g[q].rhs| && g[q].rhs[i] == NonTerm(g[r].lhs) ensures i == g[r].peek {
        if q > 0 { assert StandsAtPeek(g[r], g[q].rhs); }
      }
    }
  }

  // The right-hand side under construction.
  ghost predicate Pending(base: nat, g: Grammar, rhs: seq<Symbol>) {
    && (forall k | 0 <= k < |rhs| :: Known(base + |g|, rhs[k]))
    && (forall r | 0 < r < |g| :: StandsAtPeek(g[r], rhs))
  }

  /** Element `k` of an alternative became this symbol: itself, or a nonterminal whose one empty rule
      peeks at the `k` values before it. */
  ghost predicate Resolved(g: Grammar, e: Element, k: nat, s: Symbol) {
    match e
    case Sym(x) => s == x
    case MidRule => exists r :: 0 < r < |g| && s == NonTerm(g[r].lhs) && g[r].rhs == [] && g[r].peek == k && !g[r].identity
  }

  ghost predicate AllResolved(g: Grammar, elements: seq<Element>, rhs: seq<Symbol>) {
    |rhs| <= |elements| && forall k | 0 <= k < |rhs| :: Resolved(g, elements[k], k, rhs[k])
  }

  lemma ResolvedStays(g: Grammar, g': Grammar, elements: seq<Element>, rhs: seq<Symbol>)
    requires AllResolved(g, elements, rhs) && g <= g'
    ensures AllResolved(g', elements, rhs)
  {
    forall k | 0 <= k < |rhs| ensures Resolved(g', elements[k], k, rhs[k]) {
      assert Resolved(g, elements[k], k, rhs[k]);
      if elements[k].MidRule? {
        var r :| 0 < r < |g| && rhs[k] == NonTerm(g[r].lhs) && g[r].rhs == [] && g[r].peek == k && !g[r].identity;
        assert g'[r] == g[r];
      }
    }
  }

  lemma KnownMore(n: nat, n': nat, s: Symbol)
    requires Known(n, s) && n <= n'
    ensures Known(n', s)
  {
  }

  // A mid-rule action: a fresh nonterminal with one empty rule.
  lemma AnonKeeps(base: nat, g: Grammar, rhs: seq<Symbol>)
    requires RulesOk(base, g) && Pending(base, g, rhs)
    ensures var anon := Nt(base + |g|); var g' := g + [Rule(anon, [], None, false, |rhs|, false)];
            RulesOk(base, g') && Pending(base, g', rhs + [NonTerm(anon)])
  {
    var anon := Nt(base + |g|);
    var g' := g + [Rule(anon, [], None, false, |rhs|, false)];
    forall r, k | 0 < r < |g'| && 0 <= k < |g'[r].rhs| ensures Known(base + |g'|, g'[r].rhs[k]) {
      KnownMore(base + |g|, base + |g'|, g[r].rhs[k]);
    }
    forall k | 0 <= k < |rhs| ensures Known(base + |g'|, rhs[k]) && rhs[k] != NonTerm(anon) {
      KnownMore(base + |g|, base + |g'|, rhs[k]);
    }
    forall r, q | 0 < r < |g'| && 0 < q < |g'| ensures StandsAtPeek(g'[r], g'[q].rhs) {
      if q < |g| {
        if r < |g| {
          assert StandsAtPeek(g[r], g[q].rhs);
        } else {
          forall k | 0 <= k < |g[q].rhs| ensures g[q].rhs[k] != NonTerm(anon) { assert Known(base + |g|, g[q].rhs[k]); }
        }
      }
    }
    forall r | 0 < r < |g'| ensures StandsAtPeek(g'[r], rhs + [NonTerm(anon)]) {
      if r < |g| { assert StandsAtPeek(g[r], rhs); }
    }
  }

  lemma SymbolKeeps(base: nat, g: Grammar, rhs: seq<Symbol>, s: Symbol)
    requires RulesOk(base, g) && Pending(base, g, rhs) && ElementOk(base, Sym(s))
    ensures Pending(base, g, rhs + [s])
  {
    forall r | 0 < r < |g| ensures StandsAtPeek(g[r], rhs + [s]) {
      assert StandsAtPeek(g[r], rhs) && Peeks(base, g[r]);
    }
  }

  lemma RuleKeeps(base: nat, g: Grammar, rule: Rule)
    requires RulesOk(base, g) && Pending(base, g, rule.rhs) && rule.lhs.Nt? && rule.lhs.id < base && rule.peek == 0
    ensures RulesOk(base, g + [rule])
  {
    var g' := g + [rule];
    forall r, k | 0 < r < |g'| && 0 <= k < |g'[r].rhs| ensures Known(base + |g'|, g'[r].rhs[k]) {
      KnownMore(base + |g|, base + |g'|, g'[r].rhs[k]);
    }
    forall r, q | 0 < r < |g'| && 0 < q < |g'| ensures StandsAtPeek(g'[r], g'[q].rhs) {
      if r < |g| && q < |g| { assert StandsAtPeek(g[r], g[q].rhs); }
    }
  }

  class RuleBuilder {
    const base: nat
    var rules: Grammar

    // The augmented rule comes first.
    constructor (start: nat, free: nat)
      requires start < free
      ensures base == free && RulesOk(base, rules) && rules[0].rhs[0] == NonTerm(Nt(start))
    {
      base := free;
      rules := [Rule(Accept, [NonTerm(Nt(start)), Term(End)], None, true, 0, false)];
    }

    // A rule's id is its position.
    method AddRule(rule: Rule) returns (id: nat)
      modifies this`rules
      ensures rules == old(rules) + [rule] && id == |old(rules)|
    {
      id := |rules|;
      rules := rules + [rule];
    }

    /** Add an alternative: a rule for it, preceded by one for each of its mid-rule actions. */
    method AddAlternative(alt: Alternative) returns (id: nat)
      requires RulesOk(base, rules) && AlternativeOk(base, alt)
      modifies this`rules
      ensures RulesOk(base, rules) && old(rules) <= rules && id == |rules| - 1
      ensures rules[id].lhs == Nt(alt.lhs) && rules[id].prec == alt.prec && rules[id].identity == alt.identity && rules[id].merge == alt.merge
      ensures rules[id].peek == 0 && |rules[id].rhs| == |alt.elements| && AllResolved(rules, alt.elements, rules[id].rhs)
    {
      hide RulesOk, Pending, AllResolved;
      var rhs: seq<Symbol> := [];
      NothingPending(base, rules, alt.elements);
      for i := 0 to |alt.elements|
        invariant RulesOk(base, rules) && old(rules) <= rules && Pending(base, rules, rhs)
        invariant |rhs| == i && AllResolved(rules, alt.elements, rhs)
      {
        match alt.elements[i]
        case Sym(s) =>
          assert ElementOk(base, alt.elements[i]);
          SymbolKeeps(base, rules, rhs, s);
          ResolvedSymbol(rules, alt.elements, rhs, s);
          rhs := rhs + [s];
        case MidRule =>
          var anon := Nt(base + |rules|);
          AnonKeeps(base, rules, rhs);
          ghost var before := rules;
          var id := AddRule(Rule(anon, [], None, false, i, false));
          ResolvedStays(before, rules, alt.elements, rhs);
          ResolvedAction(rules, alt.elements, rhs, id);
          rhs := rhs + [NonTerm(anon)];
      }
      ghost var before := rules;
      var rule := Rule(Nt(alt.lhs), rhs, alt.prec, alt.identity, 0, alt.merge);
      RuleKeeps(base, rules, rule);
      id := AddRule(rule);
      ResolvedStays(before, rules, alt.elements, rhs);
    }
  }

  lemma NothingPending(base: nat, g: Grammar, elements: seq<Element>)
    ensures Pending(base, g, []) && AllResolved(g, elements, [])
  {
  }

  lemma ResolvedSymbol(g: Grammar, elements: seq<Element>, rhs: seq<Symbol>, s: Symbol)
    requires AllResolved(g, elements, rhs) && |rhs| < |elements| && elements[|rhs|] == Sym(s)
    ensures AllResolved(g, elements, rhs + [s])
  {
  }

  lemma ResolvedAction(g: Grammar, elements: seq<Element>, rhs: seq<Symbol>, r: nat)
    requires AllResolved(g, elements, rhs) && |rhs| < |elements| && elements[|rhs|] == MidRule
    requires 0 < r < |g| && g[r].rhs == [] && g[r].peek == |rhs| && !g[r].identity
    ensures AllResolved(g, elements, rhs + [NonTerm(g[r].lhs)])
  {
  }
}
