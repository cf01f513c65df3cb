/** FOLLOW sets, the SLR(1) lookaheads, and why LALR(1) lookaheads refine them (src/lalr.ts:155-193). */
module Follows {
  import opened Options
  import opened Grammars
  import opened FirstSets
  import opened Automata
  import opened Lookaheads

  type FollowMap = map<NonTerminal, set<Terminal>>

  function FollowAt(fo: FollowMap, n: NonTerminal): set<Terminal> {
    if n in fo then fo[n] else {}
  }

  // What position `i` of rule `r` contributes to FOLLOW of the nonterminal there.
  ghost predicate FollowedAt(g: Grammar, fm: FirstMap, fo: FollowMap, r: nat, i: nat)
    requires r < |g| && i < |g[r].rhs|
  {
    var x, rest := g[r].rhs[i], g[r].rhs[i + 1..];
    x.NonTerm? ==> Handout(fm, rest, FollowAt(fo, g[r].lhs)) <= FollowAt(fo, x.n)
  }

  ghost predicate RuleFollowed(g: Grammar, fm: FirstMap, fo: FollowMap, r: nat)
    requires r < |g|
  {
    forall i | 0 <= i < |g[r].rhs| :: FollowedAt(g, fm, fo, r, i)
  }

  ghost predicate FollowClosed(g: Grammar, fm: FirstMap, fo: FollowMap) {
    forall r | 0 <= r < |g| :: RuleFollowed(g, fm, fo, r)
  }

  ghost predicate FollowBelow(fo: FollowMap, fo': FollowMap) {
    forall n :: FollowAt(fo, n) <= FollowAt(fo', n)
  }

  // The least closed table.
  ghost predicate FollowLeast(g: Grammar, fm: FirstMap, fo: FollowMap) {
    forall fo' | FollowClosed(g, fm, fo') :: FollowBelow(fo, fo')
  }

  // ----- LALR(1) lookaheads are within FOLLOW -----

  function FollowRow(g: Grammar, fo: FollowMap): map<Item, set<Terminal>> {
    map it | it in AllItems(g) :: if g[it.rule].lhs == Accept then {End} else FollowAt(fo, g[it.rule].lhs)
  }

  function FollowTable(g: Grammar, a: Automaton, fo: FollowMap): Table {
    seq(|a.states|, _ => FollowRow(g, fo))
  }

  lemma FollowGives(g: Grammar, fm: FirstMap, a: Automaton, fo: FollowMap, s: nat, it: Item, r: nat)
    requires WellFormed(g) && FollowClosed(g, fm, fo)
    requires Term(End) in fm ==> fm[Term(End)] == First({End}, false)
    requires s < |a.states| && it in AllItems(g) && Calls(g, it, r)
    ensures Item(r, 0) in FollowTable(g, a, fo)[s] && Given(g, fm, FollowTable(g, a, fo), s, it, r)
  {
    assert RuleFollowed(g, fm, fo, it.rule);
    assert FollowedAt(g, fm, fo, it.rule, it.dot);
    assert Item(r, 0) in AllItems(g);
    assert g[r].lhs != Accept;
    if it.rule == 0 {
      assert Rest(g, it) == [Term(End)];
      assert !NullableSym(fm, Rest(g, it)[0]);
    }
  }

  lemma FollowMoves(g: Grammar, a: Automaton, fo: FollowMap, s: nat, it: Item)
    requires AutomatonOk(g, a) && s < |a.states| && it in AllItems(g)
    ensures Next(g, it).Some? && Next(g, it).value in a.trans[s] ==>
              var t := a.trans[s][Next(g, it).value];
              t < |a.states| && Advance(it) in AllItems(g)
              && At(FollowTable(g, a, fo), s, it) == At(FollowTable(g, a, fo), t, Advance(it))
  {
    if Next(g, it).Some? && Next(g, it).value in a.trans[s] {
      TransitionOk(g, a, s, Next(g, it).value);
      assert Advance(it) in AllItems(g);
    }
  }

  lemma FollowHands(g: Grammar, fm: FirstMap, a: Automaton, fo: FollowMap, s: nat, it: Item)
    requires WellFormed(g) && AutomatonOk(g, a) && FollowClosed(g, fm, fo)
    requires Term(End) in fm ==> fm[Term(End)] == First({End}, false)
    requires s < |a.states| && it in AllItems(g)
    ensures Handed(g, fm, a, FollowTable(g, a, fo), s, it)
  {
    var la := FollowTable(g, a, fo);
    forall r | Calls(g, it, r) ensures Item(r, 0) in la[s] && Given(g, fm, la, s, it, r) {
      FollowGives(g, fm, a, fo, s, it, r);
    }
    FollowMoves(g, a, fo, s, it);
  }

  /** Every LALR(1) lookahead of an item is in FOLLOW of its rule's left-hand side. */
  lemma LookaheadsWithinFollow(g: Grammar, fm: FirstMap, a: Automaton, la: Table, fo: FollowMap, s: nat, it: Item)
    requires WellFormed(g) && AutomatonOk(g, a) && Closed(g, fm) && |la| == |a.states|
    requires Least(g, fm, a, la) && FollowClosed(g, fm, fo)
    requires it in AllItems(g) && g[it.rule].lhs != Accept
    ensures At(la, s, it) <= FollowAt(fo, g[it.rule].lhs)
  {
    var la' := FollowTable(g, a, fo);
    forall s, it | 0 <= s < |la'| && it in la'[s] ensures Handed(g, fm, a, la', s, it) {
      FollowHands(g, fm, a, fo, s, it);
    }
    assert Item(0, 0) in AllItems(g);
    assert SelfContained(g, fm, a, la');
    assert Below(la, la');
    if s < |la| && it in la[s] {
      assert At(la, s, it) <= At(la', s, it);
    }
  }

  // ----- the fixed point -----

  ghost function Recorded(fo: FollowMap): set<(NonTerminal, Terminal)> {
    set n, t | n in fo && t in fo[n] :: (n, t)
  }

  ghost function FollowSpace(g: Grammar): set<(NonTerminal, Terminal)> {
    set s, t | s in SymbolsOf(g) && s.NonTerm? && t in TerminalsOf(g) :: (s.n, t)
  }

  ghost predicate FollowInv(g: Grammar, fm: FirstMap, fo: FollowMap) {
    FollowLeast(g, fm, fo) && Recorded(fo) <= FollowSpace(g)
  }

  ghost predicate Grown(g: Grammar, fo: FollowMap, fo': FollowMap, changed: bool) {
    if changed then FollowSpace(g) - Recorded(fo') < FollowSpace(g) - Recorded(fo) else fo' == fo
  }

  // Record what position `i` of rule `r` contributes.
  method AddFollow(g: Grammar, fm: FirstMap, fo: FollowMap, r: nat, i: nat) returns (fo': FollowMap, changed: bool)
    requires r < |g| && i < |g[r].rhs| && Shape(g, fm) && FollowInv(g, fm, fo)
    ensures FollowInv(g, fm, fo') && Grown(g, fo, fo', changed)
    ensures !changed ==> FollowedAt(g, fm, fo', r, i)
  {
    fo', changed := fo, false;
    var x, rest := g[r].rhs[i], g[r].rhs[i + 1..];
    if x.NonTerm? {
      var terms := Handout(fm, rest, FollowAt(fo, g[r].lhs));
      if !(terms <= FollowAt(fo, x.n)) {
        changed := true;
        fo' := fo[x.n := FollowAt(fo, x.n) + terms];
        AddedLeast(g, fm, fo, r, i);
        AddedRecorded(g, fm, fo, r, i);
      }
    }
  }

  lemma AddedLeast(g: Grammar, fm: FirstMap, fo: FollowMap, r: nat, i: nat)
    requires r < |g| && i < |g[r].rhs| && g[r].rhs[i].NonTerm? && FollowLeast(g, fm, fo)
    ensures var n, terms := g[r].rhs[i].n, Handout(fm, g[r].rhs[i + 1..], FollowAt(fo, g[r].lhs));
            FollowLeast(g, fm, fo[n := FollowAt(fo, n) + terms])
  {
    var n, terms := g[r].rhs[i].n, Handout(fm, g[r].rhs[i + 1..], FollowAt(fo, g[r].lhs));
    forall fo' | FollowClosed(g, fm, fo') ensures FollowBelow(fo[n := FollowAt(fo, n) + terms], fo') {
      assert FollowBelow(fo, fo');
      assert RuleFollowed(g, fm, fo', r);
      assert FollowedAt(g, fm, fo', r, i);
    }
  }

  lemma AddedRecorded(g: Grammar, fm: FirstMap, fo: FollowMap, r: nat, i: nat)
    requires r < |g| && i < |g[r].rhs| && g[r].rhs[i].NonTerm? && Shape(g, fm)
    requires Recorded(fo) <= FollowSpace(g)
    requires !(Handout(fm, g[r].rhs[i + 1..], FollowAt(fo, g[r].lhs)) <= FollowAt(fo, g[r].rhs[i].n))
    ensures var n, terms := g[r].rhs[i].n, Handout(fm, g[r].rhs[i + 1..], FollowAt(fo, g[r].lhs));
            var fo' := fo[n := FollowAt(fo, n) + terms];
            Recorded(fo') <= FollowSpace(g) && Grown(g, fo, fo', true)
  {
    var n, terms := g[r].rhs[i].n, Handout(fm, g[r].rhs[i + 1..], FollowAt(fo, g[r].lhs));
    var fo' := fo[n := FollowAt(fo, n) + terms];
    FirstOfBounded(g, fm, g[r].rhs[i + 1..]);
    assert NonTerm(n) in SymbolsOf(g);
    forall t | t in terms ensures t in TerminalsOf(g) {
      if t in FollowAt(fo, g[r].lhs) { assert (g[r].lhs, t) in Recorded(fo); }
    }
    forall p | p in Recorded(fo') ensures p in FollowSpace(g) {
      if p !in Recorded(fo) { assert p == (n, p.1) && p.1 in terms; }
    }
    var t :| t in terms && t !in FollowAt(fo, n);
    assert (n, t) in Recorded(fo') && (n, t) !in Recorded(fo);
    forall p | p in Recorded(fo) ensures p in Recorded(fo') { assert p.1 in FollowAt(fo', p.0); }
  }

  /** The least FOLLOW table closed under every rule. */
  method ComputeFollow(g: Grammar, fm: FirstMap) returns (follow: FollowMap)
    requires Shape(g, fm)
    ensures FollowClosed(g, fm, follow) && FollowLeast(g, fm, follow)
  {
    follow := map r | 0 <= r < |g| :: g[r].lhs := {};
    assert Recorded(follow) == {};
    var changed := true;
    while changed
      invariant FollowInv(g, fm, follow)
      invariant !changed ==> FollowClosed(g, fm, follow)
      decreases FollowSpace(g) - Recorded(follow), changed
    {
      changed := false;
      ghost var before := follow;
      for r := 0 to |g|
        invariant FollowInv(g, fm, follow) && Grown(g, before, follow, changed)
        invariant !changed ==> forall q | 0 <= q < r :: RuleFollowed(g, fm, follow, q)
      {
        for i := 0 to |g[r].rhs|
          invariant FollowInv(g, fm, follow) && Grown(g, before, follow, changed)
          invariant !changed ==> forall q | 0 <= q < r :: RuleFollowed(g, fm, follow, q)
          invariant !changed ==> forall k | 0 <= k < i :: FollowedAt(g, fm, follow, r, k)
        {
          var grew;
          follow, grew := AddFollow(g, fm, follow, r, i);
          changed := changed || grew;
        }
      }
    }
  }
}
