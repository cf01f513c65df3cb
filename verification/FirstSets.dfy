/** FIRST sets and nullability, as the grammar builder computes them (src/core.ts:417-449). */
module FirstSets {
  import opened Options
  import opened Grammars

  datatype First = First(terms: set<Terminal>, nullable: bool)

  type FirstMap = map<Symbol, First>

  function TermsOf(fm: FirstMap, s: Symbol): set<Terminal> {
    if s in fm then fm[s].terms else {}
  }

  predicate NullableSym(fm: FirstMap, s: Symbol) {
    s in fm && fm[s].nullable
  }

  predicate NullableSeq(fm: FirstMap, a: seq<Symbol>) {
    forall i | 0 <= i < |a| :: NullableSym(fm, a[i])
  }

  function FirstOf(fm: FirstMap, a: seq<Symbol>): set<Terminal> {
    if a == [] then {}
    else TermsOf(fm, a[0]) + (if NullableSym(fm, a[0]) then FirstOf(fm, a[1..]) else {})
  }

  // ----- what the tables must satisfy -----

  // Terminals begin with themselves, and every rule's right-hand side is accounted for.
  ghost predicate Closed(g: Grammar, fm: FirstMap) {
    && (forall t :: Term(t) in fm ==> fm[Term(t)] == First({t}, false))
    && Covers(g, fm)
    && forall r | 0 <= r < |g| :: RuleClosed(g, fm, r)
  }

  ghost predicate RuleClosed(g: Grammar, fm: FirstMap, r: nat)
    requires r < |g|
  {
    var lhs := NonTerm(g[r].lhs);
    FirstOf(fm, g[r].rhs) <= TermsOf(fm, lhs) && (NullableSeq(fm, g[r].rhs) ==> NullableSym(fm, lhs))
  }

  ghost predicate Covers(g: Grammar, fm: FirstMap) {
    forall r | 0 <= r < |g| :: NonTerm(g[r].lhs) in fm && forall i | 0 <= i < |g[r].rhs| :: g[r].rhs[i] in fm
  }

  // Everything recorded is true of the grammar.
  ghost predicate Sound(g: Grammar, fm: FirstMap) {
    && (forall s, t | s in fm && t in fm[s].terms :: BeginsWith(g, [s], t))
    && (forall s | s in fm && fm[s].nullable :: Vanishes(g, [s]))
  }

  // ----- closed tables miss nothing -----

  lemma {:induction false} FirstOfAppend(fm: FirstMap, a: seq<Symbol>, b: seq<Symbol>)
    ensures FirstOf(fm, a + b) == FirstOf(fm, a) + (if NullableSeq(fm, a) then FirstOf(fm, b) else {})
  {
    if a == [] {
      assert a + b == b;
    } else {
      assert (a + b)[1..] == a[1..] + b;
      FirstOfAppend(fm, a[1..], b);
      assert NullableSeq(fm, a) <==> NullableSym(fm, a[0]) && NullableSeq(fm, a[1..]) by {
        if NullableSym(fm, a[0]) && NullableSeq(fm, a[1..]) {
          forall i | 0 <= i < |a| ensures NullableSym(fm, a[i]) {
            if i > 0 { assert a[i] == a[1..][i - 1]; }
          }
        }
      }
    }
  }

  lemma NullableSeqAppend(fm: FirstMap, a: seq<Symbol>, b: seq<Symbol>)
    ensures NullableSeq(fm, a + b) <==> NullableSeq(fm, a) && NullableSeq(fm, b)
  {
    if NullableSeq(fm, a + b) {
      forall i | 0 <= i < |a| ensures NullableSym(fm, a[i]) { assert a[i] == (a + b)[i]; }
      forall i | 0 <= i < |b| ensures NullableSym(fm, b[i]) { assert b[i] == (a + b)[|a| + i]; }
    }
  }

  // Undoing one rewrite step can only enlarge FIRST and nullability.
  lemma ApplyShrinks(g: Grammar, fm: FirstMap, a: seq<Symbol>, s: Step)
    requires Closed(g, fm)
    requires CanApply(g, a, s)
    ensures FirstOf(fm, Apply(g, a, s)) <= FirstOf(fm, a)
    ensures NullableSeq(fm, Apply(g, a, s)) ==> NullableSeq(fm, a)
  {
    var i, r := s.at, s.rule;
    var x, m, y := a[..i], g[r].rhs, a[i + 1..];
    assert a == x + ([a[i]] + y);
    assert Apply(g, a, s) == x + (m + y);
    assert RuleClosed(g, fm, r);
    FirstOfAppend(fm, x, [a[i]] + y);
    FirstOfAppend(fm, x, m + y);
    FirstOfAppend(fm, m, y);
    FirstOfAppend(fm, [a[i]], y);
    assert [a[i]][1..] == [];
    NullableSeqAppend(fm, x, [a[i]] + y);
    NullableSeqAppend(fm, x, m + y);
    NullableSeqAppend(fm, m, y);
    NullableSeqAppend(fm, [a[i]], y);
  }

  lemma {:induction false} ClosedMissesNothing(g: Grammar, fm: FirstMap, a: seq<Symbol>, b: seq<Symbol>, p: seq<Step>)
    requires Closed(g, fm) && Rewrites(g, a, b, p)
    ensures FirstOf(fm, b) <= FirstOf(fm, a)
    ensures NullableSeq(fm, b) ==> NullableSeq(fm, a)
    decreases |p|
  {
    if p != [] {
      ClosedMissesNothing(g, fm, Apply(g, a, p[0]), b, p[1..]);
      ApplyShrinks(g, fm, a, p[0]);
    }
  }

  // ----- exactness -----

  lemma {:induction false} RewrittenSymbolsKnown(g: Grammar, fm: FirstMap, a: seq<Symbol>, b: seq<Symbol>, p: seq<Step>)
    requires Covers(g, fm) && Rewrites(g, a, b, p)
    requires forall i | 0 <= i < |a| :: a[i] in fm
    ensures forall i | 0 <= i < |b| :: b[i] in fm
    decreases |p|
  {
    if p != [] {
      RewrittenSymbolsKnown(g, fm, Apply(g, a, p[0]), b, p[1..]);
    }
  }

  /** FIRST and nullability are exact: a symbol's set holds the terminals its sentential forms can
      begin with, and it is nullable just when it rewrites to nothing. */
  lemma FirstExact(g: Grammar, fm: FirstMap, s: Symbol, t: Terminal)
    requires Closed(g, fm) && Sound(g, fm) && s in fm
    ensures t in fm[s].terms <==> BeginsWith(g, [s], t)
    ensures fm[s].nullable <==> Vanishes(g, [s])
  {
    assert FirstOf(fm, [s][1..]) == {};
    if BeginsWith(g, [s], t) {
      var p, rest: seq<Symbol> :| Rewrites(g, [s], [Term(t)] + rest, p);
      ClosedMissesNothing(g, fm, [s], [Term(t)] + rest, p);
      RewrittenSymbolsKnown(g, fm, [s], [Term(t)] + rest, p);
      assert ([Term(t)] + rest)[0] == Term(t);
      assert t in FirstOf(fm, [Term(t)] + rest);
    }
    if Vanishes(g, [s]) {
      var p :| Rewrites(g, [s], [], p);
      ClosedMissesNothing(g, fm, [s], [], p);
      assert NullableSym(fm, [s][0]);
    }
  }

  // ----- each update the fixed point makes is justified -----

  lemma {:induction false} VanishingPrefix(g: Grammar, a: seq<Symbol>, k: nat) returns (p: seq<Step>)
    requires k <= |a| && forall i | 0 <= i < k :: Vanishes(g, [a[i]])
    ensures Rewrites(g, a, a[k..], p)
    decreases k
  {
    if k == 0 {
      assert a[0..] == a;
      p := [];
    } else {
      var p0 := VanishingPrefix(g, a, k - 1);
      var m :| Rewrites(g, [a[k - 1]], [], m);
      var p1 := RewritesInContext(g, [], [a[k - 1]], a[k..], [], m);
      assert [] + [a[k - 1]] + a[k..] == a[k - 1..];
      assert [] + [] + a[k..] == a[k..];
      RewritesTransitive(g, a, a[k - 1..], a[k..], p0, p1);
      p := p0 + p1;
    }
  }

  lemma RuleStep(g: Grammar, r: nat, b: seq<Symbol>, p: seq<Step>)
    requires r < |g| && Rewrites(g, g[r].rhs, b, p)
    ensures Rewrites(g, [NonTerm(g[r].lhs)], b, [Step(0, r)] + p)
  {
    var a := [NonTerm(g[r].lhs)];
    assert Apply(g, a, Step(0, r)) == g[r].rhs;
    assert ([Step(0, r)] + p)[1..] == p;
  }

  lemma Unfronted<T>(a: seq<T>, k: nat)
    requires k < |a|
    ensures [] + [a[k]] + a[k + 1..] == a[k..]
  {
  }

  lemma Rebracket<T>(x: T, y: seq<T>, z: seq<T>)
    ensures [] + ([x] + y) + z == [x] + (y + z)
  {
  }

  // Behind a vanishing prefix, whatever symbol `k` rewrites to comes first.
  lemma PrefixGone(g: Grammar, r: nat, k: nat, head: Symbol, rest: seq<Symbol>, m: seq<Step>) returns (p: seq<Step>, tail: seq<Symbol>)
    requires r < |g| && k < |g[r].rhs|
    requires forall i | 0 <= i < k :: Vanishes(g, [g[r].rhs[i]])
    requires Rewrites(g, [g[r].rhs[k]], [head] + rest, m)
    ensures Rewrites(g, [NonTerm(g[r].lhs)], [head] + tail, p)
  {
    hide Rewrites, Vanishes;
    var a := g[r].rhs;
    var p0 := VanishingPrefix(g, a, k);
    var p1 := RewritesInContext(g, [], [a[k]], a[k + 1..], [head] + rest, m);
    tail := rest + a[k + 1..];
    Unfronted(a, k);
    Rebracket(head, rest, a[k + 1..]);
    RewritesTransitive(g, a, a[k..], [head] + tail, p0, p1);
    RuleStep(g, r, [head] + tail, p0 + p1);
    p := [Step(0, r)] + (p0 + p1);
  }

  lemma TermUpdateSound(g: Grammar, fm: FirstMap, r: nat, k: nat, t: Terminal)
    requires Sound(g, fm) && r < |g| && k < |g[r].rhs|
    requires forall i | 0 <= i < k :: NullableSym(fm, g[r].rhs[i])
    requires t in TermsOf(fm, g[r].rhs[k])
    ensures BeginsWith(g, [NonTerm(g[r].lhs)], t)
  {
    assert BeginsWith(g, [g[r].rhs[k]], t);
    var m, rest: seq<Symbol> :| Rewrites(g, [g[r].rhs[k]], [Term(t)] + rest, m);
    var p, tail := PrefixGone(g, r, k, Term(t), rest, m);
  }

  lemma NullableUpdateSound(g: Grammar, fm: FirstMap, r: nat)
    requires Sound(g, fm) && r < |g|
    requires forall i | 0 <= i < |g[r].rhs| :: NullableSym(fm, g[r].rhs[i])
    ensures Vanishes(g, [NonTerm(g[r].lhs)])
  {
    var a := g[r].rhs;
    var p := VanishingPrefix(g, a, |a|);
    assert a[|a|..] == [];
    RuleStep(g, r, [], p);
  }

  // ----- the fixed point itself -----

  function SymbolsOf(g: Grammar): set<Symbol> {
    (set r | 0 <= r < |g| :: NonTerm(g[r].lhs)) + (set r, i | 0 <= r < |g| && 0 <= i < |g[r].rhs| :: g[r].rhs[i])
  }

  function TerminalsOf(g: Grammar): set<Terminal> {
    set s | s in SymbolsOf(g) && s.Term? :: s.t
  }

  function Start(g: Grammar): FirstMap {
    map s | s in SymbolsOf(g) :: First(if s.Term? then {s.t} else {}, false)
  }

  // Facts not recorded yet: a pair stands for a terminal of a symbol's set, or its nullability.
  ghost function Missing(g: Grammar, fm: FirstMap): set<(Symbol, Option<Terminal>)> {
    set s, o | s in SymbolsOf(g) && o in (set t | t in TerminalsOf(g) :: Some(t)) + {None}
               && !(match o case Some(t) => t in TermsOf(fm, s) case None => NullableSym(fm, s)) :: (s, o)
  }

  ghost predicate Shape(g: Grammar, fm: FirstMap) {
    && fm.Keys == SymbolsOf(g)
    && (forall t :: Term(t) in fm ==> fm[Term(t)] == First({t}, false))
    && (forall s | s in fm :: fm[s].terms <= TerminalsOf(g))
  }

  // What a part of a pass does to the tables: `grew` tells whether it recorded anything.
  ghost predicate Progress(g: Grammar, before: FirstMap, after: FirstMap, grew: bool) {
    && Shape(g, after) && Sound(g, after)
    && (if grew then Missing(g, after) < Missing(g, before) else after == before)
  }

  lemma StartSound(g: Grammar)
    ensures Shape(g, Start(g)) && Sound(g, Start(g))
  {
    var fm := Start(g);
    forall s, t | s in fm && t in fm[s].terms ensures BeginsWith(g, [s], t) {
      assert Rewrites(g, [s], [Term(t)] + [], []);
    }
  }

  // What one symbol's entry may become: only more, and only more of what the grammar's symbols allow.
  lemma GrowShrinksMissing(g: Grammar, fm: FirstMap, s: Symbol, f: First)
    requires Shape(g, fm) && s in fm && fm[s].terms <= f.terms <= TerminalsOf(g) && (fm[s].nullable ==> f.nullable)
    requires f != fm[s]
    ensures Missing(g, fm[s := f]) < Missing(g, fm)
  {
    var p := if f.nullable != fm[s].nullable then (s, None) else
      var t :| t in f.terms && t !in fm[s].terms; (s, Some(t));
    assert p in Missing(g, fm) && p !in Missing(g, fm[s := f]);
  }

  lemma GrowMore(g: Grammar, before: FirstMap, fm: FirstMap, s: Symbol, f: First, grew: bool)
    requires Progress(g, before, fm, grew) && s in fm && s.NonTerm?
    requires fm[s].terms <= f.terms <= TerminalsOf(g) && (fm[s].nullable ==> f.nullable) && f != fm[s]
    requires forall t | t in f.terms :: BeginsWith(g, [s], t)
    requires f.nullable ==> Vanishes(g, [s])
    ensures Progress(g, before, fm[s := f], true)
  {
    hide Missing, BeginsWith, Vanishes;
    GrowShrinksMissing(g, fm, s, f);
    assert fm[s := f].Keys == fm.Keys;
  }

  // Folding in the set of a symbol behind a nullable prefix.
  lemma AddTermsKeeps(g: Grammar, before: FirstMap, fm: FirstMap, r: nat, k: nat, grew: bool)
    requires Progress(g, before, fm, grew) && r < |g| && k < |g[r].rhs|
    requires forall i | 0 <= i < k :: NullableSym(fm, g[r].rhs[i])
    requires !(TermsOf(fm, g[r].rhs[k]) <= TermsOf(fm, NonTerm(g[r].lhs)))
    ensures Progress(g, before, AddTerms(fm, NonTerm(g[r].lhs), g[r].rhs[k]), true)
  {
    var lhs := NonTerm(g[r].lhs);
    forall t | t in fm[g[r].rhs[k]].terms ensures BeginsWith(g, [lhs], t) {
      TermUpdateSound(g, fm, r, k, t);
    }
    GrowMore(g, before, fm, lhs, First(fm[lhs].terms + fm[g[r].rhs[k]].terms, fm[lhs].nullable), grew);
  }

  lemma AddNullableKeeps(g: Grammar, before: FirstMap, fm: FirstMap, r: nat, grew: bool)
    requires Progress(g, before, fm, grew) && r < |g|
    requires NullableSeq(fm, g[r].rhs) && !NullableSym(fm, NonTerm(g[r].lhs))
    ensures Progress(g, before, SetNullable(fm, NonTerm(g[r].lhs)), true)
  {
    NullableUpdateSound(g, fm, r);
    GrowMore(g, before, fm, NonTerm(g[r].lhs), First(fm[NonTerm(g[r].lhs)].terms, true), grew);
  }

  function AddTerms(fm: FirstMap, lhs: Symbol, s: Symbol): (fm': FirstMap)
    requires lhs in fm && s in fm
    ensures forall x :: NullableSym(fm', x) == NullableSym(fm, x)
    ensures forall x :: TermsOf(fm, x) <= TermsOf(fm', x)
  {
    fm[lhs := First(fm[lhs].terms + fm[s].terms, fm[lhs].nullable)]
  }

  function SetNullable(fm: FirstMap, lhs: Symbol): FirstMap
    requires lhs in fm
  {
    fm[lhs := First(fm[lhs].terms, true)]
  }

  // The part of FIRST the scan of a right-hand side has already folded in.
  lemma ScanCovers(fm: FirstMap, a: seq<Symbol>, k: nat, acc: set<Terminal>)
    requires k <= |a|
    requires forall i | 0 <= i < k :: TermsOf(fm, a[i]) <= acc
    requires k == |a| || (k > 0 && !NullableSym(fm, a[k - 1]))
    ensures FirstOf(fm, a) <= acc
    decreases k
  {
    if k > 0 {
      if NullableSym(fm, a[0]) {
        forall i | 0 <= i < k - 1 ensures TermsOf(fm, a[1..][i]) <= acc { assert a[1..][i] == a[i + 1]; }
        ScanCovers(fm, a[1..], k - 1, acc);
      }
    }
  }

  class GrammarBuilder {
    const rules: Grammar
    var first: FirstMap

    constructor (g: Grammar)
      ensures rules == g
      ensures Closed(g, first) && Sound(g, first) && Shape(g, first)
    {
      hide Missing, RuleClosed, Sound, BeginsWith, Vanishes;
      rules := g;
      first := Start(g);
      new;
      StartSound(g);
      var changed := true;
      while changed
        invariant Shape(g, first) && Sound(g, first)
        invariant !changed ==> forall r | 0 <= r < |g| :: RuleClosed(g, first, r)
        decreases Missing(g, first), changed
      {
        changed := false;
        ghost var before := first;
        for r := 0 to |g|
          invariant Progress(g, before, first, changed)
          invariant !changed ==> forall q | 0 <= q < r :: RuleClosed(g, first, q)
        {
          var grew := AddRule(r);
          changed := changed || grew;
        }
      }
    }

    // One rule's share of a pass: scan its right-hand side up to the first symbol that cannot vanish.
    method AddRule(r: nat) returns (grew: bool)
      requires r < |rules| && Shape(rules, first) && Sound(rules, first)
      modifies this
      ensures Progress(rules, old(first), first, grew)
      ensures !grew ==> RuleClosed(rules, first, r)
    {
      hide Sound, Missing, BeginsWith, Vanishes, FirstOf;
      grew := false;
      var rhs, lhs := rules[r].rhs, NonTerm(rules[r].lhs);
      var fm := first;
      ghost var before := first;
      var i, allDeriveEps := 0, true;
      while i < |rhs| && allDeriveEps
        invariant 0 <= i <= |rhs|
        modifies {}
        invariant Progress(rules, before, fm, grew)
        invariant !grew ==> forall k | 0 <= k < i :: TermsOf(fm, rhs[k]) <= TermsOf(fm, lhs)
        invariant if allDeriveEps then forall k | 0 <= k < i :: NullableSym(fm, rhs[k])
                  else i > 0 && !NullableSym(fm, rhs[i - 1])
      {
        var symFirst := fm[rhs[i]];
        if !(symFirst.terms <= fm[lhs].terms) {
          AddTermsKeeps(rules, before, fm, r, i, grew);
          fm := AddTerms(fm, lhs, rhs[i]);
          grew := true;
        }
        allDeriveEps := symFirst.nullable;
        i := i + 1;
      }
      if !grew {
        ScanCovers(fm, rhs, i, TermsOf(fm, lhs));
      }
      if allDeriveEps && !fm[lhs].nullable {
        AddNullableKeeps(rules, before, fm, r, grew);
        fm := SetNullable(fm, lhs);
        grew := true;
      }
      first := fm;
    }
  }
}
