/** What resolution keeps, loses and reports (src/lalr.ts:302-364). */
module Resolution {
  import opened Options
  import opened Grammars
  import opened Automata
  import opened Lookaheads
  import opened Tables

  // What a parser may do on an entry.
  function Alternatives(e: Action): seq<Action> {
    match e
    case Conflict(entries) => entries
    case IgnoreToken => []
    case ErrorToken => []
    case _ => [e]
  }

  predicate Real(e: Action) {
    e.ShiftTo? || e.ReduceBy? || e.AcceptAll?
  }

  predicate Plausible(e: Action) {
    Real(e) || (e.Conflict? && forall x | x in e.entries :: Real(x))
  }

  // ----- the entries of a state -----

  lemma {:induction false} ReducesExact(g: Grammar, m: Mode, s: nat, items: seq<Item>, t: Terminal, x: Action)
    ensures x in Reduces(g, m, s, items, t) <==> exists it :: it in items && ReducesOn(g, m, s, it, t) && x == ReduceBy(it.rule)
  {
    if items != [] {
      var init, last := items[..|items| - 1], items[|items| - 1];
      ReducesExact(g, m, s, init, t, x);
      assert items == init + [last];
      if x in Reduces(g, m, s, items, t) {
        if x in Reduces(g, m, s, init, t) {
          var it :| it in init && ReducesOn(g, m, s, it, t) && x == ReduceBy(it.rule);
          assert it in items;
        } else {
          assert last in items;
        }
      }
    }
  }

  lemma IncomingReal(g: Grammar, a: Automaton, m: Mode, s: nat, t: Terminal)
    requires s < |a.states| == |a.trans|
    ensures forall x | x in Incoming(g, a, m, s, t) :: Real(x)
  {
    forall x | x in Incoming(g, a, m, s, t) ensures Real(x) {
      ReducesExact(g, m, s, a.states[s], t, x);
    }
  }

  /** Resolution never invents an action: every alternative of a settled entry had been entered. */
  lemma {:induction false} SettleFromIncoming(g: Grammar, inc: seq<Action>, p: Option<Prec>)
    requires |inc| > 0 && forall x | x in inc :: Real(x)
    ensures Plausible(Settle(g, inc, p)) && Alternatives(Settle(g, inc, p)) != []
    ensures forall x | x in Alternatives(Settle(g, inc, p)) :: x in inc
  {
    if |inc| > 1 {
      var init, last := inc[..|inc| - 1], inc[|inc| - 1];
      assert inc == init + [last];
      SettleFromIncoming(g, init, p);
      var e := Settle(g, init, p);
      assert Alternatives(e) == if e.Conflict? then e.entries else [e];
    }
  }

  // ----- what the reports tell -----

  /** Only an accept entry swallows another action unreported. */
  lemma {:induction false} QuietSettles(g: Grammar, inc: seq<Action>, p: Option<Prec>)
    requires |inc| > 0 && Quiet(g, inc, p) && forall i | 0 < i < |inc| :: inc[i].ReduceBy?
    requires Real(inc[0])
    ensures |inc| == 1 || inc[0].AcceptAll?
    ensures Settle(g, inc, p) == inc[0]
  {
    if |inc| > 1 {
      QuietSettles(g, inc[..|inc| - 1], p);
    }
  }

  lemma {:induction false} AcceptStays(g: Grammar, inc: seq<Action>, p: Option<Prec>)
    requires |inc| > 0 && inc[0].AcceptAll?
    ensures Quiet(g, inc, p) && Settle(g, inc, p) == AcceptAll
  {
    if |inc| > 1 { AcceptStays(g, inc[..|inc| - 1], p); }
  }

  // At most one action applies in any state on any terminal.
  ghost predicate Clean(g: Grammar, a: Automaton, m: Mode) {
    |a.states| == |a.trans| && forall s, t | 0 <= s < |a.states| :: CleanAt(g, a, m, s, t)
  }

  ghost predicate CleanAt(g: Grammar, a: Automaton, m: Mode, s: nat, t: Terminal)
    requires s < |a.states| == |a.trans|
  {
    |Incoming(g, a, m, s, t)| <= 1
  }

  // No reduction is called for where the input can be accepted.
  ghost predicate AcceptUncontested(g: Grammar, a: Automaton, m: Mode)
    requires |a.states| == |a.trans|
  {
    forall s | 0 <= s < |a.states| && Term(End) in a.trans[s] :: Reduces(g, m, s, a.states[s], End) == []
  }

  lemma IncomingShape(g: Grammar, a: Automaton, m: Mode, s: nat, t: Terminal)
    requires s < |a.states| == |a.trans|
    ensures var inc := Incoming(g, a, m, s, t);
            (inc != [] ==> Real(inc[0])) && (forall i | 0 < i < |inc| :: inc[i].ReduceBy?)
            && (inc != [] && inc[0].AcceptAll? ==> t == End && Term(End) in a.trans[s])
  {
    var inc := Incoming(g, a, m, s, t);
    forall i | 0 <= i < |inc| ensures i < |ShiftAction(a, s, t)| || inc[i].ReduceBy? {
      ReducesExact(g, m, s, a.states[s], t, inc[i]);
      if i >= |ShiftAction(a, s, t)| {
        assert inc[i] == Reduces(g, m, s, a.states[s], t)[i - |ShiftAction(a, s, t)|];
      }
    }
  }

  /** An empty list of reports means no action ever met another, except reductions dropped without a
      word against the accept entry; so the tables are free of collisions just when nothing was
      reported and nothing competes with accepting. */
  lemma CleanIff(g: Grammar, a: Automaton, m: Mode)
    requires |a.states| == |a.trans|
    ensures Clean(g, a, m) <==>
              (forall s | 0 <= s < |a.states| :: RowQuiet(g, a, m, s)) && AcceptUncontested(g, a, m)
  {
    if Clean(g, a, m) {
      forall s, t | 0 <= s < |a.states| ensures Quiet(g, Incoming(g, a, m, s, t), ShiftPrec(g, a.states[s], t)) {
        assert CleanAt(g, a, m, s, t);
      }
      forall s | 0 <= s < |a.states| && Term(End) in a.trans[s] ensures Reduces(g, m, s, a.states[s], End) == [] {
        assert CleanAt(g, a, m, s, End);
      }
    }
    if (forall s | 0 <= s < |a.states| :: RowQuiet(g, a, m, s)) && AcceptUncontested(g, a, m) {
      forall s, t | 0 <= s < |a.states| ensures CleanAt(g, a, m, s, t) {
        assert RowQuiet(g, a, m, s);
        var inc := Incoming(g, a, m, s, t);
        IncomingShape(g, a, m, s, t);
        if inc != [] {
          assert Quiet(g, inc, ShiftPrec(g, a.states[s], t));
          QuietSettles(g, inc, ShiftPrec(g, a.states[s], t));
        }
      }
    }
  }

  // Every action that applies survives as an alternative.
  ghost predicate KeepsAll(g: Grammar, a: Automaton, m: Mode) {
    |a.states| == |a.trans| && forall s, t | 0 <= s < |a.states| :: KeepsAt(g, a, m, s, t)
  }

  ghost predicate KeepsAt(g: Grammar, a: Automaton, m: Mode, s: nat, t: Terminal)
    requires s < |a.states| == |a.trans|
  {
    var inc := Incoming(g, a, m, s, t);
    inc != [] ==> forall x | x in inc :: x in Alternatives(Settle(g, inc, ShiftPrec(g, a.states[s], t)))
  }

  lemma CleanKeepsAll(g: Grammar, a: Automaton, m: Mode)
    requires Clean(g, a, m)
    ensures KeepsAll(g, a, m)
  {
    forall s, t | 0 <= s < |a.states| ensures KeepsAt(g, a, m, s, t) {
      assert CleanAt(g, a, m, s, t);
      IncomingReal(g, a, m, s, t);
    }
  }

  // ----- when every action survives -----

  // At most two actions meet, and if two do they fork.
  ghost predicate AtMostAFork(g: Grammar, a: Automaton, m: Mode, s: nat, t: Terminal)
    requires s < |a.states| == |a.trans|
  {
    var inc := Incoming(g, a, m, s, t);
    |inc| <= 1 || (|inc| == 2 && Resolve(g, inc[0], inc[1], ShiftPrec(g, a.states[s], t)).0.Conflict?)
  }

  lemma ResolveSize(g: Grammar, e: Action, x: Action, p: Option<Prec>)
    requires Plausible(e) && |Alternatives(e)| <= 2 && Real(x)
    ensures Plausible(Resolve(g, e, x, p).0) && |Alternatives(Resolve(g, e, x, p).0)| <= 2
  {
  }

  lemma {:induction false} SettledSize(g: Grammar, inc: seq<Action>, p: Option<Prec>)
    requires |inc| > 0 && forall x | x in inc :: Real(x)
    ensures |Alternatives(Settle(g, inc, p))| <= 2 && Plausible(Settle(g, inc, p))
  {
    if |inc| > 1 {
      var init, last := inc[..|inc| - 1], inc[|inc| - 1];
      assert last in inc && forall x | x in init :: x in inc;
      SettledSize(g, init, p);
      ResolveSize(g, Settle(g, init, p), last, p);
    } else {
      assert inc[0] in inc;
    }
  }

  lemma CompleteDiffer(g: Grammar, items: seq<Item>, it: Item)
    requires Distinct(items) && items != [] && it in items[..|items| - 1] && ItemOk(g, it) && ItemOk(g, items[|items| - 1])
    requires it.dot == |g[it.rule].rhs| && items[|items| - 1].dot == |g[items[|items| - 1].rule].rhs|
    ensures it.rule != items[|items| - 1].rule
  {
    var k :| 0 <= k < |items| - 1 && items[..|items| - 1][k] == it;
    assert items[k] != items[|items| - 1];
  }

  lemma {:induction false} ReducesDistinct(g: Grammar, m: Mode, s: nat, items: seq<Item>, t: Terminal)
    requires Distinct(items) && forall it | it in items :: ItemOk(g, it)
    ensures Distinct(Reduces(g, m, s, items, t))
  {
    if items != [] {
      var init, last := items[..|items| - 1], items[|items| - 1];
      assert items == init + [last];
      ReducesDistinct(g, m, s, init, t);
      ReducesExact(g, m, s, init, t, ReduceBy(last.rule));
      forall it | it in init && ReducesOn(g, m, s, it, t) && ReducesOn(g, m, s, last, t) ensures it.rule != last.rule {
        assert it in items && last in items;
        CompleteDiffer(g, items, it);
      }
    }
  }

  lemma ItemsOfState(g: Grammar, a: Automaton, s: nat)
    requires AutomatonOk(g, a) && s < |a.states|
    ensures Distinct(a.states[s]) && forall it | it in a.states[s] :: ItemOk(g, it)
  {
    assert StateOk(g, a.states[s]);
    forall it | it in a.states[s] ensures ItemOk(g, it) { assert it in Items(a.states[s]); }
  }

  lemma IncomingDistinct(g: Grammar, a: Automaton, m: Mode, s: nat, t: Terminal)
    requires AutomatonOk(g, a) && s < |a.states|
    ensures Distinct(Incoming(g, a, m, s, t))
  {
    hide AutomatonOk, ItemOk;
    SameSizes(g, a);
    ItemsOfState(g, a, s);
    ReducesDistinct(g, m, s, a.states[s], t);
    IncomingShape(g, a, m, s, t);
    var shifts, reduces := ShiftAction(a, s, t), Reduces(g, m, s, a.states[s], t);
    if shifts != [] && shifts[0] in reduces { ReducesExact(g, m, s, a.states[s], t, shifts[0]); }
  }

  lemma ThreeNeedThree<T>(x: T, y: T, z: T, alts: seq<T>)
    requires x != y && y != z && x != z && x in alts && y in alts && z in alts
    ensures |alts| > 2
  {
  }

  lemma TwoAtMost<T>(s: seq<T>, alts: seq<T>)
    requires Distinct(s) && |alts| <= 2 && forall x | x in s :: x in alts
    ensures |s| <= 2 && (|alts| == 1 ==> |s| <= 1)
  {
    if |s| > 2 {
      ThreeNeedThree(s[0], s[1], s[2], alts);
    } else if |s| == 2 {
      assert s[0] in alts && s[1] in alts;
    }
  }

  lemma ForkKeepsBoth(g: Grammar, x: Action, y: Action, p: Option<Prec>)
    requires Resolve(g, x, y, p).0.Conflict? && Real(x) && Real(y)
    ensures forall z | z in [x, y] :: z in Resolve(g, x, y, p).0.entries
  {
  }

  lemma SettleTwo(g: Grammar, inc: seq<Action>, p: Option<Prec>)
    requires |inc| == 2
    ensures Settle(g, inc, p) == Resolve(g, inc[0], inc[1], p).0
  {
    assert inc[..1] == [inc[0]];
  }

  lemma KeepsMeansFork(g: Grammar, inc: seq<Action>, p: Option<Prec>)
    requires |inc| > 1 && Distinct(inc) && forall x | x in inc :: Real(x)
    requires forall x | x in inc :: x in Alternatives(Settle(g, inc, p))
    ensures |inc| == 2 && Settle(g, inc, p).Conflict?
  {
    hide Settle;
    SettledSize(g, inc, p);
    TwoAtMost(inc, Alternatives(Settle(g, inc, p)));
  }

  lemma KeepsAtIff(g: Grammar, a: Automaton, m: Mode, s: nat, t: Terminal)
    requires AutomatonOk(g, a) && s < |a.states|
    ensures KeepsAt(g, a, m, s, t) <==> AtMostAFork(g, a, m, s, t)
  {
    hide AutomatonOk, Incoming, Resolve, ShiftPrec;
    SameSizes(g, a);
    var inc, p := Incoming(g, a, m, s, t), ShiftPrec(g, a.states[s], t);
    IncomingDistinct(g, a, m, s, t);
    IncomingReal(g, a, m, s, t);
    if |inc| == 2 {
      assert inc[0] in inc && inc[1] in inc && inc == [inc[0], inc[1]];
      SettleTwo(g, inc, p);
      if AtMostAFork(g, a, m, s, t) { ForkKeepsBoth(g, inc[0], inc[1], p); }
    }
    if |inc| > 1 && KeepsAt(g, a, m, s, t) { KeepsMeansFork(g, inc, p); }
    if |inc| == 1 { assert inc[0] in inc; }
  }

  lemma SameSizes(g: Grammar, a: Automaton)
    requires AutomatonOk(g, a)
    ensures |a.states| == |a.trans|
  {
  }

  /** An entry that is already a conflict, or settled, drops what comes later: every action survives
      just when no more than two meet anywhere and any two that meet fork. */
  lemma KeepsAllIff(g: Grammar, a: Automaton, m: Mode)
    requires AutomatonOk(g, a)
    ensures KeepsAll(g, a, m) <==> |a.states| == |a.trans| && forall s, t | 0 <= s < |a.states| :: AtMostAFork(g, a, m, s, t)
  {
    hide AutomatonOk, KeepsAt, AtMostAFork;
    SameSizes(g, a);
    forall s, t | 0 <= s < |a.states| ensures KeepsAt(g, a, m, s, t) <==> AtMostAFork(g, a, m, s, t) {
      KeepsAtIff(g, a, m, s, t);
    }
  }

  // ----- precedence -----

  /** A shift and a reduce settle the same whichever came first. */
  lemma OrderIrrelevant(g: Grammar, q: nat, r: nat, p: Option<Prec>)
    ensures Resolve(g, ShiftTo(q), ReduceBy(r), p) == Resolve(g, ReduceBy(r), ShiftTo(q), p)
    ensures Resolve(g, ReduceBy(q), ReduceBy(r), p).0 == Resolve(g, ReduceBy(r), ReduceBy(q), p).0
            || Forks(PrecOf(g, q)) || Forks(PrecOf(g, r))
  {
  }

  /** Competing reductions: the earliest rule wins, whatever their order in the state. */
  lemma {:induction false} EarliestRuleWins(g: Grammar, inc: seq<Action>, p: Option<Prec>) returns (r: nat)
    requires |inc| > 0 && forall x | x in inc :: x.ReduceBy? && !Forks(PrecOf(g, x.rule))
    ensures ReduceBy(r) in inc && (forall x | x in inc :: r <= x.rule)
    ensures Settle(g, inc, p) == ReduceBy(r)
  {
    var last := inc[|inc| - 1];
    r := last.rule;
    if |inc| > 1 {
      var init := inc[..|inc| - 1];
      assert inc == init + [last];
      var q := EarliestRuleWins(g, init, p);
      r := if q < r then q else r;
    }
  }
}
