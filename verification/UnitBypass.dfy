/** Skipping pass-through unit reductions in the goto table (src/lalr.ts:365-423), and why nothing but
    the unit nodes is lost. */
module UnitBypass {
  import opened Options
  import opened Grammars
  import opened FirstSets
  import opened Automata
  import opened Lookaheads
  import opened Tables
  import opened Resolution
  import opened Machine
  import opened Restore
  import opened Completeness

  // ----- states that do nothing but a unit reduction -----

  predicate Idle(e: Action) {
    e.IgnoreToken? || e.ErrorToken?
  }

  // Every entry that is not a default reduces by `u`, and some entry does.
  ghost predicate OnlyReduces(row: Row, u: nat) {
    (exists t :: t in row && row[t] == ReduceBy(u)) && forall t | t in row :: row[t] == ReduceBy(u) || Idle(row[t])
  }

  predicate PassThrough(g: Grammar, u: nat) {
    u < |g| && g[u].identity && !g[u].merge && g[u].peek == 0 && |g[u].rhs| == 1 && g[u].rhs[0].NonTerm?
  }

  /** State `s` has no gotos and can only reduce by the pass-through unit rule `u`. */
  ghost predicate Bypasses(g: Grammar, pt: ParseTables, s: nat, u: nat) {
    s < |pt.action| && s < |pt.goto| && pt.goto[s] == map[] && OnlyReduces(pt.action[s], u) && PassThrough(g, u)
  }

  lemma OneRule(row: Row, u: nat, v: nat)
    requires OnlyReduces(row, u) && OnlyReduces(row, v)
    ensures u == v
  {
    var t :| t in row && row[t] == ReduceBy(u);
  }

  // `forwards` maps the states that can be bypassed to the nonterminal their unit rule leads to.
  ghost predicate Forwards(g: Grammar, pt: ParseTables, forwards: map<nat, NonTerminal>) {
    && (forall s | s in forwards :: exists u: nat :: Bypasses(g, pt, s, u) && forwards[s] == g[u].lhs)
    && (forall s: nat, u: nat | Bypasses(g, pt, s, u) :: s in forwards)
  }

  // ----- hops -----

  /** From `b` in state `s`, taking gotos over bypassed states by the unit rules `rules` ends in `target`. */
  ghost predicate Hops(g: Grammar, pt: ParseTables, s: nat, b: NonTerminal, rules: seq<nat>, target: nat)
    decreases |rules|
  {
    && s < |pt.goto| && b in pt.goto[s]
    && if rules == [] then pt.goto[s][b] == target
       else Bypasses(g, pt, pt.goto[s][b], rules[0]) && Hops(g, pt, s, g[rules[0]].lhs, rules[1..], target)
  }

  lemma {:induction false} HopsAppend(g: Grammar, pt: ParseTables, s: nat, b: NonTerminal, x: seq<nat>, mid: nat, u: nat, y: seq<nat>, target: nat)
    requires Hops(g, pt, s, b, x, mid) && Bypasses(g, pt, mid, u) && Hops(g, pt, s, g[u].lhs, y, target)
    ensures Hops(g, pt, s, b, x + [u] + y, target)
    decreases |x|
  {
    hide OnlyReduces;
    var all := x + [u] + y;
    if x == [] {
      assert all == [u] + y && all[1..] == y;
    } else {
      assert all[0] == x[0] && all[1..] == x[1..] + [u] + y;
      HopsAppend(g, pt, s, g[x[0]].lhs, x[1..], mid, u, y, target);
    }
  }

  ghost predicate Reachable(g: Grammar, pt: ParseTables, s: nat, b: NonTerminal, target: nat) {
    exists rules :: Hops(g, pt, s, b, rules, target)
  }

  /** The gotos have the entries of the original ones, each led on over unit reductions only. */
  ghost predicate Redirected(g: Grammar, pt: ParseTables, gotos: seq<GotoRow>) {
    && |gotos| == |pt.goto|
    && (forall s: nat, b | s < |gotos| :: b in gotos[s] <==> b in pt.goto[s])
    && (forall s: nat, b | s < |gotos| && b in gotos[s] :: Reachable(g, pt, s, b, gotos[s][b]))
  }

  lemma NotYetRedirected(g: Grammar, pt: ParseTables)
    ensures Redirected(g, pt, pt.goto)
  {
    forall s: nat, b | s < |pt.goto| && b in pt.goto[s] ensures Reachable(g, pt, s, b, pt.goto[s][b]) {
      assert Hops(g, pt, s, b, [], pt.goto[s][b]);
    }
  }

  // An entry whose target does nothing but reduce to `lhs` can be led on to where `lhs` leads.
  predicate CanRedirect(forwards: map<nat, NonTerminal>, row: GotoRow, nt: NonTerminal) {
    nt in row && row[nt] in forwards && forwards[row[nt]] != nt && forwards[row[nt]] in row && row[forwards[row[nt]]] != row[nt]
  }

  lemma RedirectOne(g: Grammar, pt: ParseTables, gotos: seq<GotoRow>, forwards: map<nat, NonTerminal>, s: nat, nt: NonTerminal)
    requires Redirected(g, pt, gotos) && Forwards(g, pt, forwards) && s < |gotos| && CanRedirect(forwards, gotos[s], nt)
    ensures Redirected(g, pt, gotos[s := gotos[s][nt := gotos[s][forwards[gotos[s][nt]]]]])
  {
    hide OnlyReduces, Hops;
    var row := gotos[s];
    var mid, lhs := row[nt], forwards[row[nt]];
    var u: nat :| Bypasses(g, pt, mid, u) && lhs == g[u].lhs;
    assert Reachable(g, pt, s, nt, mid) && Reachable(g, pt, s, lhs, row[lhs]);
    var x :| Hops(g, pt, s, nt, x, mid);
    var y :| Hops(g, pt, s, lhs, y, row[lhs]);
    HopsAppend(g, pt, s, nt, x, mid, u, y, row[lhs]);
    assert Reachable(g, pt, s, nt, row[lhs]);
  }

  // No entry of the first `n` rows can be led on any further.
  ghost predicate Settled(forwards: map<nat, NonTerminal>, gotos: seq<GotoRow>, n: nat) {
    n <= |gotos| && forall s: nat, nt | s < n :: !CanRedirect(forwards, gotos[s], nt)
  }

  class GotoTable {
    const rules: Grammar
    const action: seq<Row>
    var goto: seq<GotoRow>

    constructor (g: Grammar, pt: ParseTables)
      ensures rules == g && action == pt.action && goto == pt.goto
    {
      rules, action, goto := g, pt.action, pt.goto;
    }

    // The one rule a row reduces by, if it does nothing else.
    method OnlyRule(row: Row) returns (rule: Option<nat>)
      ensures rule.Some? ==> OnlyReduces(row, rule.value)
      ensures rule.None? ==> forall u: nat :: !OnlyReduces(row, u)
    {
      rule := None;
      var todo := row.Keys;
      while todo != {}
        invariant todo <= row.Keys
        invariant rule.None? ==> forall t | t in row && t !in todo :: Idle(row[t])
        invariant rule.Some? ==> (exists t :: t in row && row[t] == ReduceBy(rule.value))
        invariant rule.Some? ==> forall t | t in row && t !in todo :: row[t] == ReduceBy(rule.value) || Idle(row[t])
        decreases todo
      {
        var t :| t in todo;
        todo := todo - {t};
        var entry := row[t];
        if !Idle(entry) {
          if !entry.ReduceBy? || (rule.Some? && rule.value != entry.rule) {
            return None;
          }
          rule := Some(entry.rule);
        }
      }
    }

    // The states that can be bypassed, and where their unit rule leads.
    method FindForwards() returns (forwards: map<nat, NonTerminal>)
      requires |action| == |goto|
      ensures Forwards(rules, ParseTables(action, goto), forwards)
    {
      hide OnlyReduces;
      forwards := map[];
      ghost var pt := ParseTables(action, goto);
      for s := 0 to |action|
        invariant forall q | q in forwards :: q < s && exists u: nat :: Bypasses(rules, pt, q, u) && forwards[q] == rules[u].lhs
        invariant forall q: nat, u: nat | q < s && Bypasses(rules, pt, q, u) :: q in forwards
      {
        if goto[s] == map[] {
          var rule := OnlyRule(action[s]);
          if rule.Some? {
            var u := rule.value;
            forall v: nat | OnlyReduces(action[s], v) ensures v == u { OneRule(action[s], u, v); }
            if PassThrough(rules, u) {
              assert Bypasses(rules, pt, s, u);
              forwards := forwards[s := rules[u].lhs];
            }
          }
        }
      }
    }

    // One pass over every entry of every row.
    method Pass(ghost pt: ParseTables, forwards: map<nat, NonTerminal>) returns (count: nat)
      requires Redirected(rules, pt, goto) && Forwards(rules, pt, forwards)
      modifies this`goto
      ensures Redirected(rules, pt, goto)
      ensures count == 0 ==> goto == old(goto) && Settled(forwards, goto, |goto|)
    {
      hide Redirected, Forwards;
      count := 0;
      SameRows(rules, pt, goto);
      for s := 0 to |goto|
        invariant Redirected(rules, pt, goto) && |goto| == |pt.goto|
        invariant count == 0 ==> goto == old(goto) && Settled(forwards, goto, s)
      {
        var todo := goto[s].Keys;
        while todo != {}
          invariant Redirected(rules, pt, goto) && |goto| == |pt.goto| && todo <= goto[s].Keys
          invariant count == 0 ==> goto == old(goto) && Settled(forwards, goto, s)
          invariant count == 0 ==> forall nt | nt !in todo :: !CanRedirect(forwards, goto[s], nt)
          decreases todo
        {
          var nt :| nt in todo;
          todo := todo - {nt};
          var row := goto[s];
          if CanRedirect(forwards, row, nt) {
            RedirectOne(rules, pt, goto, forwards, s, nt);
            var fwd: GotoRow := row[nt := row[forwards[row[nt]]]];
            goto := goto[s := fwd];
            count := count + 1;
          }
        }
      }
    }

    /** Redirect until stable, or until the guard against cycles of unit rules runs out. Whichever it
        is, every entry has only been led on over unit reductions. */
    method EliminateUnitGotos() returns (redirected: nat, stable: bool, ghost forwards: map<nat, NonTerminal>)
      requires |action| == |goto|
      modifies this`goto
      ensures Redirected(rules, ParseTables(action, old(goto)), goto)
      ensures Forwards(rules, ParseTables(action, old(goto)), forwards)
      ensures redirected == 0 ==> goto == old(goto)
      ensures stable ==> Settled(forwards, goto, |goto|)
    {
      hide Redirected, Forwards, Settled;
      ghost var pt := ParseTables(action, goto);
      var bypass := FindForwards();
      forwards := bypass;
      NotYetRedirected(rules, pt);
      var guard := 100;
      redirected, stable := 0, false;
      while !stable && guard > 0
        invariant Redirected(rules, pt, goto)
        invariant redirected == 0 ==> goto == old(goto)
        invariant stable ==> Settled(forwards, goto, |goto|)
        decreases guard, !stable
      {
        guard := guard - 1;
        var count := Pass(pt, bypass);
        redirected := redirected + count;
        stable := count == 0;
      }
    }
  }

  lemma SameRows(g: Grammar, pt: ParseTables, gotos: seq<GotoRow>)
    requires Redirected(g, pt, gotos)
    ensures |gotos| == |pt.goto|
  {
  }

  // ----- what rewritten tables still are -----

  // A state that only reduces by a unit rule was entered on that rule's right-hand side.
  lemma BypassedUnit(g: Grammar, a: Automaton, pt: ParseTables, s: nat, b: NonTerminal, u: nat)
    requires AutomatonOk(g, a) && ActionsJustified(g, a, pt) && s < |a.states| && NonTerm(b) in a.trans[s]
    requires Bypasses(g, pt, a.trans[s][NonTerm(b)], u)
    ensures UnitRule(g, u, b)
  {
    hide ActionJustified;
    var q := a.trans[s][NonTerm(b)];
    TransitionOk(g, a, s, NonTerm(b));
    var t :| t in pt.action[q] && pt.action[q][t] == ReduceBy(u);
    assert ReduceBy(u) in [ReduceBy(u)];
    assert ReduceBy(u) in Choices(pt, q, t);
    ReduceJustified(g, a, pt, q, t, u);
    ItemCameOver(g, a, s, NonTerm(b), q, Item(u, 1));
  }

  lemma ReduceJustified(g: Grammar, a: Automaton, pt: ParseTables, q: nat, t: Terminal, u: nat)
    requires ActionsJustified(g, a, pt) && q < |a.states| && ReduceBy(u) in Choices(pt, q, t)
    ensures 0 < u < |g| && Item(u, |g[u].rhs|) in a.states[q]
  {
    assert ActionJustified(g, a, q, t, ReduceBy(u));
  }

  lemma {:induction false} HopsClimb(g: Grammar, a: Automaton, pt: ParseTables, s: nat, b: NonTerminal, rules: seq<nat>, target: nat)
    requires AutomatonOk(g, a) && ActionsJustified(g, a, pt) && GotosOk(a, pt) && s < |a.states|
    requires Hops(g, pt, s, b, rules, target)
    ensures Climbs(g, a, s, b, rules, target)
    decreases |rules|
  {
    hide AutomatonOk, ActionsJustified, OnlyReduces;
    AutomatonSizes(g, a);
    assert GotoFilled(a, s, pt.goto[s]);
    if rules != [] {
      BypassedUnit(g, a, pt, s, b, rules[0]);
      HopsClimb(g, a, pt, s, g[rules[0]].lhs, rules[1..], target);
    }
  }

  /** However often gotos were redirected, each still follows unit reductions from the original one. */
  lemma RedirectedLeads(g: Grammar, a: Automaton, pt: ParseTables, gotos: seq<GotoRow>)
    requires AutomatonOk(g, a) && ActionsJustified(g, a, pt) && GotosOk(a, pt) && Redirected(g, pt, gotos)
    ensures GotosLead(g, Basis(a, false), ParseTables(pt.action, gotos))
  {
    hide AutomatonOk, ActionsJustified, Hops, Climbs;
    AutomatonSizes(g, a);
    forall s: nat, n | s < |a.trans| && n in gotos[s] ensures GotoLeads(g, Basis(a, false), s, n, gotos[s][n]) {
      assert Reachable(g, pt, s, n, gotos[s][n]);
      var rules :| Hops(g, pt, s, n, rules, gotos[s][n]);
      HopsClimb(g, a, pt, s, n, rules, gotos[s][n]);
    }
    forall s: nat, n | s < |a.trans| && NonTerm(n) in a.trans[s] ensures n in gotos[s] {
      assert GotoFilled(a, s, pt.goto[s]);
    }
  }

  lemma BypassBacked(g: Grammar, a: Automaton, pt: ParseTables, gotos: seq<GotoRow>)
    requires WellFormed(g) && AutomatonOk(g, a) && ActionsJustified(g, a, pt) && GotosOk(a, pt) && Redirected(g, pt, gotos)
    ensures Backed(g, Basis(a, false), ParseTables(pt.action, gotos))
  {
    hide WellFormed, AutomatonOk, GotosOk, Redirected, GotosLead, ActionJustified;
    RedirectedLeads(g, a, pt, gotos);
    SameChoices(g, pt, gotos);
  }

  lemma SameChoices(g: Grammar, pt: ParseTables, gotos: seq<GotoRow>)
    ensures forall s: nat, t :: Choices(ParseTables(pt.action, gotos), s, t) == Choices(pt, s, t)
  {
  }

  // ----- a run on the rewritten tables lags behind one on the originals -----

  // The original machine is in state `top` and has yet to reduce by `rules` to be in `target`.
  ghost predicate Behind(g: Grammar, pt: ParseTables, s: nat, top: nat, rules: seq<nat>, target: nat) {
    if rules == [] then top == target
    else Bypasses(g, pt, top, rules[0]) && Hops(g, pt, s, g[rules[0]].lhs, rules[1..], target)
  }

  lemma HopsBehind(g: Grammar, pt: ParseTables, s: nat, b: NonTerminal, rules: seq<nat>, target: nat)
    requires Hops(g, pt, s, b, rules, target)
    ensures s < |pt.goto| && b in pt.goto[s] && Behind(g, pt, s, pt.goto[s][b], rules, target)
  {
  }

  /** The same stack, but for unit reductions the original has yet to make on top, and values that denote the same. */
  ghost predicate InStep(g: Grammar, pt: ParseTables, c: Config, c': Config, rules: seq<nat>) {
    && Shaped(c.st) && Shaped(c'.st) && c.pos == c'.pos && AllCollapseAlike(g, c.st.values, c'.st.values)
    && var n := |c.st.values|;
       c.st.states[..n] == c'.st.states[..n]
       && if n == 0 then rules == [] && c.st.states == c'.st.states
          else Behind(g, pt, c.st.states[n - 1], Top(c.st), rules, Top(c'.st))
  }

  lemma InStepLevel(g: Grammar, pt: ParseTables, c: Config, c': Config)
    requires InStep(g, pt, c, c', [])
    ensures c.st.states == c'.st.states && |c.st.values| == |c'.st.values|
  {
    var n := |c.st.values|;
    assert c.st.states == c.st.states[..n] + [Top(c.st)] && c'.st.states == c'.st.states[..n] + [Top(c'.st)];
  }

  lemma OnlyUnitChoice(g: Grammar, pt: ParseTables, s: nat, u: nat, t: Terminal, x: Action)
    requires Bypasses(g, pt, s, u) && x in Choices(pt, s, t)
    ensures x == ReduceBy(u)
  {
  }

  lemma AlikeTake(g: Grammar, ts: seq<Tree>, vs: seq<Tree>, lo: nat, hi: nat)
    requires AllCollapseAlike(g, ts, vs) && lo <= hi <= |ts|
    ensures AllCollapseAlike(g, ts[lo..hi], vs[lo..hi])
  {
    hide Collapse;
    forall i | 0 <= i < hi - lo ensures Collapse(g, ts[lo..hi][i]) == Collapse(g, vs[lo..hi][i]) {
      assert ts[lo..hi][i] == ts[lo + i] && vs[lo..hi][i] == vs[lo + i];
    }
  }

  lemma AlikePush(g: Grammar, ts: seq<Tree>, vs: seq<Tree>, t: Tree, v: Tree)
    requires AllCollapseAlike(g, ts, vs) && Collapse(g, t) == Collapse(g, v)
    ensures AllCollapseAlike(g, ts + [t], vs + [v])
  {
    hide Collapse;
  }

  lemma AlikeNode(g: Grammar, r: nat, peeked: seq<Tree>, kids: seq<Tree>, peeked': seq<Tree>, kids': seq<Tree>)
    requires AllCollapseAlike(g, peeked, peeked') && AllCollapseAlike(g, kids, kids')
    ensures Collapse(g, Node(r, peeked, kids)) == Collapse(g, Node(r, peeked', kids'))
  {
    assert CollapseAll(g, peeked) == CollapseAll(g, peeked') && CollapseAll(g, kids) == CollapseAll(g, kids');
  }

  lemma UnitCollapses(g: Grammar, u: nat, t: Tree)
    requires PassThrough(g, u)
    ensures Collapse(g, Node(u, [], [t])) == Collapse(g, t)
  {
  }

  // The original machine makes one of the unit reductions that were skipped.
  lemma CatchUp(g: Grammar, pt: ParseTables, input: seq<Token>, c: Config, c': Config, rules: seq<nat>, x: Action, c1: Config)
    requires InStep(g, pt, c, c', rules) && rules != [] && Act(g, pt, input, c, x) == Some(c1)
    ensures InStep(g, pt, c1, c', rules[1..]) && x == ReduceBy(rules[0])
  {
    hide Choices, Hops, Collapse, AllCollapseAlike, Reduced, OnlyReduces;
    var n := |c.st.values|;
    var s, u := c.st.states[n - 1], rules[0];
    OnlyUnitChoice(g, pt, Top(c.st), u, TokenAt(input, c.pos).kind, x);
    HopsBehind(g, pt, s, g[u].lhs, rules[1..], Top(c'.st));
    UnitReduced(g, pt, c.st, u, n, pt.goto[s][g[u].lhs]);
    UnitCollapses(g, u, c.st.values[n - 1]);
    SwapTop(g, c.st.values, c'.st.values, Node(u, [], [c.st.values[n - 1]]));
  }

  lemma SwapTop(g: Grammar, ts: seq<Tree>, vs: seq<Tree>, t: Tree)
    requires AllCollapseAlike(g, ts, vs) && ts != [] && Collapse(g, t) == Collapse(g, ts[|ts| - 1])
    ensures AllCollapseAlike(g, ts[..|ts| - 1] + [t], vs)
  {
    hide Collapse;
  }

  lemma UnitReduced(g: Grammar, pt: ParseTables, st: Stack, u: nat, n: nat, target: nat)
    requires Shaped(st) && PassThrough(g, u) && n == |st.values| > 0
    requires GotoAt(pt, st.states[n - 1], g[u].lhs) == Some(target)
    ensures Reduced(g, pt, st, u) == Some(Push(Stack(st.states[..n], st.values[..n - 1]), target, Node(u, [], [st.values[n - 1]])))
  {
    ReducedTo(g, pt, st, u, n - 1, target);
    assert st.values[n - 1..] == [st.values[n - 1]] && st.values[n - 1..n - 1] == [];
  }

  // Both machines take the same step.
  lemma StepTogether(g: Grammar, pt: ParseTables, gotos: seq<GotoRow>, input: seq<Token>, c: Config, c': Config, x: Action, c1: Config)
      returns (c1': Config, rules: seq<nat>)
    requires Redirected(g, pt, gotos) && InStep(g, pt, c, c', []) && Act(g, pt, input, c, x) == Some(c1)
    ensures Act(g, ParseTables(pt.action, gotos), input, c', x) == Some(c1') && InStep(g, pt, c1, c1', rules)
  {
    hide Redirected, Hops, Collapse, AllCollapseAlike, Bypasses, Choices;
    InStepLevel(g, pt, c, c');
    SameChoices(g, pt, gotos);
    match x
    case ShiftTo(q) =>
      var leaf := Leaf(TokenAt(input, c.pos));
      AlikePush(g, c.st.values, c'.st.values, leaf, leaf);
      c1', rules := Config(Push(c'.st, q, leaf), c'.pos + 1), [];
    case ReduceBy(r) =>
      var st1';
      st1', rules := ReduceTogether(g, pt, gotos, c.st, c'.st, r);
      c1' := Config(st1', c'.pos);
      ReducedStep(g, pt, c, c1, c', c1', r, rules);
  }

  lemma ReduceTogether(g: Grammar, pt: ParseTables, gotos: seq<GotoRow>, st: Stack, st': Stack, r: nat) returns (st1': Stack, rules: seq<nat>)
    requires Redirected(g, pt, gotos) && Shaped(st) && Shaped(st') && st.states == st'.states && AllCollapseAlike(g, st.values, st'.values)
    requires r < |g| && Reduced(g, pt, st, r).Some?
    ensures Reduced(g, ParseTables(pt.action, gotos), st', r) == Some(st1') && Shaped(st1')
    ensures var st1 := Reduced(g, pt, st, r).value; var n := |st1.values|;
            && n > 0 && |st1'.values| == n && st1.states[..n] == st1'.states[..n] && AllCollapseAlike(g, st1.values, st1'.values)
            && Shaped(st1) && Behind(g, pt, st1.states[n - 1], Top(st1), rules, Top(st1'))
  {
    hide Redirected, Hops, Collapse, Bypasses, Behind;
    var len, peek := |g[r].rhs|, g[r].peek;
    var base := |st.values| - len;
    var s, lhs := st.states[base], g[r].lhs;
    rules := RedirectedGoto(g, pt, gotos, s, lhs);
    HopsBehind(g, pt, s, lhs, rules, gotos[s][lhs]);
    AlikeTake(g, st.values, st'.values, 0, base);
    AlikeTake(g, st.values, st'.values, base - peek, base);
    AlikeTake(g, st.values, st'.values, base, |st.values|);
    SliceEnds(st.values, base);
    SliceEnds(st'.values, base);
    var v := Node(r, st'.values[base - peek..base], st'.values[base..]);
    AlikeNode(g, r, st.values[base - peek..base], st.values[base..], st'.values[base - peek..base], st'.values[base..]);
    AlikePush(g, st.values[..base], st'.values[..base], Node(r, st.values[base - peek..base], st.values[base..]), v);
    st1' := Push(Stack(st'.states[..base + 1], st'.values[..base]), gotos[s][lhs], v);
  }

  lemma RedirectedGoto(g: Grammar, pt: ParseTables, gotos: seq<GotoRow>, s: nat, b: NonTerminal) returns (rules: seq<nat>)
    requires Redirected(g, pt, gotos) && s < |pt.goto| && b in pt.goto[s]
    ensures s < |gotos| && b in gotos[s] && Hops(g, pt, s, b, rules, gotos[s][b])
  {
    hide Hops;
    assert Reachable(g, pt, s, b, gotos[s][b]);
    rules :| Hops(g, pt, s, b, rules, gotos[s][b]);
  }

  lemma ReducedStep(g: Grammar, pt: ParseTables, c: Config, c1: Config, c': Config, c1': Config, r: nat, rules: seq<nat>)
    requires Shaped(c.st) && r < |g| && Reduced(g, pt, c.st, r) == Some(c1.st) && c1.pos == c1'.pos && Shaped(c1.st) && Shaped(c1'.st)
    requires var n := |c1.st.values|;
             && n > 0 && |c1'.st.values| == n && c1.st.states[..n] == c1'.st.states[..n] && AllCollapseAlike(g, c1.st.values, c1'.st.values)
             && Behind(g, pt, c1.st.states[n - 1], Top(c1.st), rules, Top(c1'.st))
    ensures InStep(g, pt, c1, c1', rules)
  {
    hide Reduced, Behind, AllCollapseAlike;
  }

  // Where the original accepts, nothing is left to catch up on.
  lemma AcceptTogether(g: Grammar, pt: ParseTables, gotos: seq<GotoRow>, input: seq<Token>, c: Config, c': Config, rules: seq<nat>)
    requires InStep(g, pt, c, c', rules) && AcceptAll in Choices(pt, Top(c.st), TokenAt(input, c.pos).kind)
    ensures AcceptAll in Choices(ParseTables(pt.action, gotos), Top(c'.st), TokenAt(input, c'.pos).kind)
  {
    hide Hops, Collapse, AllCollapseAlike, Bypasses, Choices;
    SameChoices(g, pt, gotos);
    if rules != [] {
      OnlyUnitChoice(g, pt, Top(c.st), rules[0], TokenAt(input, c.pos).kind, AcceptAll);
    }
  }

  /** Every accepting run on the original tables is followed by one on the rewritten tables, with a
      value that denotes the same. */
  lemma {:induction false} RunFollowed(g: Grammar, pt: ParseTables, gotos: seq<GotoRow>, input: seq<Token>, c: Config, c': Config, rules: seq<nat>,
                                       acts: seq<Action>, d: Config) returns (acts': seq<Action>, d': Config)
    requires Redirected(g, pt, gotos) && InStep(g, pt, c, c', rules) && Accepts(g, pt, input, c, acts, d)
    ensures Accepts(g, ParseTables(pt.action, gotos), input, c', acts', d') && |acts'| <= |acts|
    ensures d'.pos == d.pos && AllCollapseAlike(g, d.st.values, d'.st.values)
    decreases |acts|
  {
    hide Redirected, Behind, Collapse, AllCollapseAlike, Choices, Act;
    if acts == [] {
      AcceptTogether(g, pt, gotos, input, c, c', rules);
      acts', d' := [], c';
    } else {
      var c1 := Act(g, pt, input, c, acts[0]).value;
      if rules != [] {
        CatchUp(g, pt, input, c, c', rules, acts[0], c1);
        acts', d' := RunFollowed(g, pt, gotos, input, c1, c', rules[1..], acts[1..], d);
      } else {
        var c1', rules' := StepTogether(g, pt, gotos, input, c, c', acts[0], c1);
        acts', d' := RunFollowed(g, pt, gotos, input, c1, c1', rules', acts[1..], d);
        assert ([acts[0]] + acts')[1..] == acts';
        acts' := [acts[0]] + acts';
      }
    }
  }

  lemma StartInStep(g: Grammar, pt: ParseTables)
    ensures InStep(g, pt, INITIAL, INITIAL, [])
  {
  }
}
