/** Every derivation tree is built by some run of the machine, as long as no action was dropped when
    the tables were filled (src/lalr.ts:94-151, 199-291, 643-721). */
module Completeness {
  import opened Options
  import opened Grammars
  import opened FirstSets
  import opened Automata
  import opened Lookaheads
  import opened Follows
  import opened Tables
  import opened Resolution
  import opened Machine

  // ----- runs -----

  datatype Config = Config(st: Stack, pos: nat)

  /** One step of the machine by a given action; `None` if the tables do not offer it. */
  function Act(g: Grammar, pt: ParseTables, input: seq<Token>, c: Config, x: Action): Option<Config>
    requires Shaped(c.st)
  {
    var tok := TokenAt(input, c.pos);
    if x !in Choices(pt, Top(c.st), tok.kind) then None
    else
      match x
      case ShiftTo(q) => Some(Config(Push(c.st, q, Leaf(tok)), c.pos + 1))
      case ReduceBy(r) =>
        if r >= |g| then None
        else (match Reduced(g, pt, c.st, r) case None => None case Some(st) => Some(Config(st, c.pos)))
      case _ => None
  }

  /** Choosing `acts` in turn leads from `c` to `c'`. */
  ghost predicate Runs(g: Grammar, pt: ParseTables, input: seq<Token>, c: Config, acts: seq<Action>, c': Config)
    decreases |acts|
  {
    if acts == [] then c == c'
    else Shaped(c.st) && Act(g, pt, input, c, acts[0]).Some?
         && Runs(g, pt, input, Act(g, pt, input, c, acts[0]).value, acts[1..], c')
  }

  lemma {:induction false} RunsTransitive(g: Grammar, pt: ParseTables, input: seq<Token>, c: Config, x: seq<Action>, c1: Config, y: seq<Action>, c2: Config)
    requires Runs(g, pt, input, c, x, c1) && Runs(g, pt, input, c1, y, c2)
    ensures Runs(g, pt, input, c, x + y, c2)
    decreases |x|
  {
    if x == [] {
      assert x + y == y;
    } else {
      TailAppend(x, y);
      RunsTransitive(g, pt, input, Act(g, pt, input, c, x[0]).value, x[1..], c1, y, c2);
    }
  }

  lemma RunsNone(g: Grammar, pt: ParseTables, input: seq<Token>, c: Config)
    ensures Runs(g, pt, input, c, [], c)
  {
  }

  lemma RunsOne(g: Grammar, pt: ParseTables, input: seq<Token>, c: Config, x: Action, c': Config)
    requires Shaped(c.st) && Act(g, pt, input, c, x) == Some(c')
    ensures Runs(g, pt, input, c, [x], c')
  {
    assert [x][1..] == [];
  }

  // ----- what the tables must offer -----

  // Lookaheads have reached the productions an item calls for and the item it moves to.
  ghost predicate Hands(g: Grammar, fm: FirstMap, a: Automaton, m: Mode, s: nat, it: Item)
    requires s < |a.trans|
  {
    && (forall r | Calls(g, it, r) :: Handout(fm, Rest(g, it), Ahead(g, m, s, it)) <= Ahead(g, m, s, Item(r, 0)))
    && (Next(g, it).Some? && Next(g, it).value in a.trans[s] ==>
          Ahead(g, m, s, it) <= Ahead(g, m, a.trans[s][Next(g, it).value], Advance(it)))
  }

  ghost predicate Live(g: Grammar, m: Mode, s: nat, it: Item) {
    it == Item(0, 0) || Ahead(g, m, s, it) != {}
  }

  ghost predicate Spreads(g: Grammar, fm: FirstMap, a: Automaton, m: Mode) {
    |a.states| == |a.trans| &&
    forall s, it {:trigger Hands(g, fm, a, m, s, it)} |
      0 <= s < |a.states| && it in a.states[s] && Live(g, m, s, it) && (it == Item(0, 0) ==> s == 0) :: Hands(g, fm, a, m, s, it)
  }

  /** Propagated lookaheads spread. */
  lemma LalrSpreads(g: Grammar, fm: FirstMap, a: Automaton, la: Table)
    requires AutomatonOk(g, a) && LaClosed(g, fm, a, la)
    ensures Spreads(g, fm, a, Lalr(la))
  {
    forall s, it | 0 <= s < |a.states| && it in a.states[s] && Live(g, Lalr(la), s, it) && (it == Item(0, 0) ==> s == 0)
      ensures Hands(g, fm, a, Lalr(la), s, it)
    {
      assert Propagated(g, fm, a, la, s, it);
      forall r | Calls(g, it, r) ensures Handout(fm, Rest(g, it), At(la, s, it)) <= At(la, s, Item(r, 0)) {
        assert Given(g, fm, la, s, it, r);
      }
    }
  }

  /** So does FOLLOW, the SLR(1) lookahead. */
  lemma SlrSpreads(g: Grammar, fm: FirstMap, a: Automaton, fo: FollowMap)
    requires AutomatonOk(g, a) && FollowClosed(g, fm, fo)
    ensures Spreads(g, fm, a, Slr(fo))
  {
    forall s, it | 0 <= s < |a.states| && it in a.states[s] && Live(g, Slr(fo), s, it) && (it == Item(0, 0) ==> s == 0)
      ensures Hands(g, fm, a, Slr(fo), s, it)
    {
      forall r | Calls(g, it, r) ensures Handout(fm, Rest(g, it), Ahead(g, Slr(fo), s, it)) <= Ahead(g, Slr(fo), s, Item(r, 0)) {
        assert RuleFollowed(g, fm, fo, it.rule);
        assert FollowedAt(g, fm, fo, it.rule, it.dot);
      }
    }
  }

  // Every action that applies is offered.
  ghost predicate Offers(g: Grammar, a: Automaton, m: Mode, pt: ParseTables) {
    |a.states| == |a.trans| == |pt.action| &&
    forall s, t, x {:trigger x in Incoming(g, a, m, s, t)} | 0 <= s < |a.states| && x in Incoming(g, a, m, s, t) :: x in Choices(pt, s, t)
  }

  lemma KeptIsOffered(g: Grammar, a: Automaton, m: Mode, pt: ParseTables)
    requires TablesOk(g, a, m, pt) && KeepsAll(g, a, m)
    ensures Offers(g, a, m, pt)
  {
    forall s, t, x | 0 <= s < |a.states| && x in Incoming(g, a, m, s, t) ensures x in Choices(pt, s, t) {
      assert RowDone(g, a, m, s, pt.action[s]);
      assert KeepsAt(g, a, m, s, t);
      assert EntryIs(g, pt.action[s], t, Incoming(g, a, m, s, t), ShiftPrec(g, a.states[s], t));
    }
  }

  // ----- FIRST sees what trees yield -----

  lemma {:induction false} YieldBegins(g: Grammar, fm: FirstMap, t: Tree, sym: Symbol)
    requires Closed(g, fm) && Derives(g, t, sym) && sym in fm
    ensures if Yield(t) == [] then NullableSym(fm, sym) else Yield(t)[0].kind in TermsOf(fm, sym)
    decreases t, 0
  {
    match t
    case Leaf(_) =>
    case Node(r, _, kids) =>
      assert RuleClosed(g, fm, r);
      YieldsBegin(g, fm, kids, g[r].rhs);
    case Both(l, _) => YieldBegins(g, fm, l, sym);
  }

  lemma {:induction false} YieldsBegin(g: Grammar, fm: FirstMap, ts: seq<Tree>, rhs: seq<Symbol>)
    requires Closed(g, fm) && |ts| == |rhs|
    requires forall i | 0 <= i < |ts| :: Derives(g, ts[i], rhs[i]) && rhs[i] in fm
    ensures if Yields(ts) == [] then NullableSeq(fm, rhs) else Yields(ts)[0].kind in FirstOf(fm, rhs)
    decreases ts, 1
  {
    if ts != [] {
      var n := |ts| - 1;
      YieldsBegin(g, fm, ts[..n], rhs[..n]);
      YieldBegins(g, fm, ts[n], rhs[n]);
      assert rhs == rhs[..n] + [rhs[n]];
      FirstOfAppend(fm, rhs[..n], [rhs[n]]);
      NullableSeqAppend(fm, rhs[..n], [rhs[n]]);
      assert FirstOf(fm, [rhs[n]]) == TermsOf(fm, rhs[n]) by { assert [rhs[n]][1..] == []; }
    }
  }

  lemma ReadsFurther(t: Tree, more: seq<Tree>, left: seq<Tree>)
    requires ReadsLeft(t, left)
    ensures ReadsLeft(t, more + left)
    decreases t
  {
    match t
    case Leaf(_) =>
    case Node(_, peeked, _) =>
      assert (more + left)[|more + left| - |peeked|..] == left[|left| - |peeked|..];
    case Both(l, r) =>
      ReadsFurther(l, more, left);
      ReadsFurther(r, more, left);
  }

  // ----- simulating a tree -----

  ghost predicate Setting(g: Grammar, fm: FirstMap, a: Automaton, m: Mode, pt: ParseTables) {
    Grounded(g, fm, a, m) && Offers(g, a, m, pt) && GotosOk(a, pt)
  }

  ghost predicate Grounded(g: Grammar, fm: FirstMap, a: Automaton, m: Mode) {
    WellFormed(g) && AutomatonOk(g, a) && Closed(g, fm) && Spreads(g, fm, a, m)
  }

  // The state reached from `s` over `xs`.
  function Along(a: Automaton, s: nat, xs: seq<Symbol>): nat {
    if xs == [] then s
    else
      var from, x := Along(a, s, xs[..|xs| - 1]), xs[|xs| - 1];
      if from < |a.trans| && x in a.trans[from] then a.trans[from][x] else 0
  }

  // The states a walk over `xs` pushes above state `s`.
  function Walk(a: Automaton, s: nat, xs: seq<Symbol>): (w: seq<nat>)
    ensures |w| == |xs| && (xs != [] ==> w[|w| - 1] == Along(a, s, xs))
  {
    if xs == [] then [] else Walk(a, s, xs[..|xs| - 1]) + [Along(a, s, xs)]
  }

  // `y` comes next at `pos`, and then a token of kind `after`.
  ghost predicate Reads(input: seq<Token>, pos: nat, y: seq<Token>, after: Terminal) {
    pos + |y| <= |input| && input[pos..pos + |y|] == y && TokenAt(input, pos + |y|).kind == after
  }

  // The token that follows the first of two consecutive stretches.
  lemma ReadsSplit(input: seq<Token>, pos: nat, y: seq<Token>, z: seq<Token>, after: Terminal)
    requires Reads(input, pos, y + z, after)
    ensures Reads(input, pos, y, if z == [] then after else z[0].kind)
    ensures Reads(input, pos + |y|, z, after)
  {
    assert input[pos..pos + |y|] == input[pos..pos + |y + z|][..|y|];
    assert input[pos + |y|..pos + |y| + |z|] == input[pos..pos + |y + z|][|y|..];
    if z != [] { assert input[pos + |y|] == z[0]; }
  }

  // The configuration after the first `i` children of a node begun at `c`.
  function Midway(g: Grammar, a: Automaton, c: Config, r: nat, kids: seq<Tree>, i: nat): Config
    requires Shaped(c.st) && r < |g| && i <= |kids| == |g[r].rhs|
  {
    Config(Stack(c.st.states + Walk(a, Top(c.st), g[r].rhs[..i]), c.st.values + kids[..i]), c.pos + |Yields(kids[..i])|)
  }

  lemma HandsMove(g: Grammar, fm: FirstMap, a: Automaton, m: Mode, s: nat, it: Item, x: Symbol, after: Terminal)
    requires AutomatonOk(g, a) && Spreads(g, fm, a, m) && s < |a.states| && it in a.states[s] && it != Item(0, 0)
    requires Next(g, it) == Some(x) && after in Ahead(g, m, s, it)
    ensures s < |a.trans| && x in a.trans[s] && a.trans[s][x] < |a.states| && Advance(it) in a.states[a.trans[s][x]]
    ensures after in Ahead(g, m, a.trans[s][x], Advance(it))
  {
    MoveInState(g, a, s, it, x);
    assert Hands(g, fm, a, m, s, it);
  }

  // The dot can be moved over the first `i` symbols of a rule begun in state `s`.
  lemma {:induction false} ItemAlong(g: Grammar, fm: FirstMap, a: Automaton, m: Mode, s: nat, r: nat, i: nat, after: Terminal)
    requires AutomatonOk(g, a) && Spreads(g, fm, a, m) && s < |a.states| && 0 < r < |g| && i <= |g[r].rhs|
    requires Item(r, 0) in a.states[s] && after in Ahead(g, m, s, Item(r, 0))
    ensures var q := Along(a, s, g[r].rhs[..i]);
            q < |a.states| && Item(r, i) in a.states[q] && after in Ahead(g, m, q, Item(r, i))
  {
    hide AutomatonOk, Spreads, Ahead;
    assert g[r].rhs[..0] == [];
    if i > 0 {
      ItemAlong(g, fm, a, m, s, r, i - 1, after);
      assert g[r].rhs[..i][..i - 1] == g[r].rhs[..i - 1];
      HandsMove(g, fm, a, m, Along(a, s, g[r].rhs[..i - 1]), Item(r, i - 1), g[r].rhs[i - 1], after);
    }
  }

  // The configuration once `t` has been built in state `q` on top of `c`.
  function Built(c: Config, q: nat, t: Tree): Config {
    Config(Push(c.st, q, t), c.pos + |Yield(t)|)
  }

  // In the state on top of `c`, `it` calls for `x` and `after` may come once `x` is complete.
  ghost predicate Expects(g: Grammar, fm: FirstMap, a: Automaton, m: Mode, s: nat, it: Item, x: Symbol, after: Terminal) {
    && s < |a.states| && it in a.states[s] && (it == Item(0, 0) ==> s == 0) && Next(g, it) == Some(x) && x != Term(End)
    && Live(g, m, s, it) && after in Handout(fm, Rest(g, it), Ahead(g, m, s, it))
  }

  // In the state on top of `c`, rule `r` begins and `after` may follow it.
  ghost predicate Begins(g: Grammar, a: Automaton, m: Mode, s: nat, r: nat, after: Terminal) {
    s < |a.states| && 0 < r < |g| && Item(r, 0) in a.states[s] && after in Ahead(g, m, s, Item(r, 0))
  }

  // A node of rule `r` whose yield comes next.
  ghost predicate NodeNext(g: Grammar, input: seq<Token>, c: Config, t: Tree, after: Terminal) {
    && Shaped(c.st) && t.Node? && 0 < t.rule < |g| && Derives(g, t, NonTerm(g[t.rule].lhs)) && Plain(t)
    && ReadsLeft(t, c.st.values) && Reads(input, c.pos, Yields(t.kids), after)
  }

  lemma EnterRule(g: Grammar, fm: FirstMap, a: Automaton, m: Mode, s: nat, it: Item, r: nat, after: Terminal)
    requires WellFormed(g) && AutomatonOk(g, a) && Spreads(g, fm, a, m) && r < |g|
    requires Expects(g, fm, a, m, s, it, NonTerm(g[r].lhs), after)
    ensures Begins(g, a, m, s, r, after)
  {
    AcceptNeverCalled(g, it);
    assert Hands(g, fm, a, m, s, it);
    assert Calls(g, it, r);
    CallInState(g, a, s, it, r);
  }

  lemma ExpectsMove(g: Grammar, fm: FirstMap, a: Automaton, m: Mode, s: nat, it: Item, x: Symbol, after: Terminal)
    requires AutomatonOk(g, a) && Expects(g, fm, a, m, s, it, x, after)
    ensures s < |a.states| == |a.trans| && x in a.trans[s]
  {
    MoveInState(g, a, s, it, x);
  }

  /** A subtree at a place its symbol is called for: the machine consumes its yield and pushes it. */
  lemma {:induction false} Simulate(g: Grammar, fm: FirstMap, a: Automaton, m: Mode, pt: ParseTables, input: seq<Token>,
                                    c: Config, it: Item, x: Symbol, t: Tree, after: Terminal) returns (acts: seq<Action>, q: nat)
    requires Setting(g, fm, a, m, pt) && Shaped(c.st) && Expects(g, fm, a, m, Top(c.st), it, x, after)
    requires Derives(g, t, x) && Plain(t) && ReadsLeft(t, c.st.values) && Reads(input, c.pos, Yield(t), after)
    ensures Linked(a, Top(c.st), x, q) && Runs(g, pt, input, c, acts, Built(c, q, t))
    decreases t, 2, 0
  {
    hide WellFormed, AutomatonOk, Spreads, GotosOk, Closed, Offers, Runs;
    ExpectsMove(g, fm, a, m, Top(c.st), it, x, after);
    q := a.trans[Top(c.st)][x];
    match t
    case Leaf(tok) => acts := ShiftLeaf(g, a, m, pt, input, c, tok, q);
    case Node(r, _, _) =>
      EnterRule(g, fm, a, m, Top(c.st), it, r, after);
      acts := SimulateNode(g, fm, a, m, pt, input, c, t, after, q);
  }

  lemma {:induction false} SimulateNode(g: Grammar, fm: FirstMap, a: Automaton, m: Mode, pt: ParseTables, input: seq<Token>,
                                        c: Config, t: Tree, after: Terminal, q: nat) returns (acts: seq<Action>)
    requires Setting(g, fm, a, m, pt) && NodeNext(g, input, c, t, after) && Begins(g, a, m, Top(c.st), t.rule, after)
    requires Linked(a, Top(c.st), NonTerm(g[t.rule].lhs), q)
    ensures Runs(g, pt, input, c, acts, Built(c, q, t))
    decreases t, 1, 0
  {
    var run := SimulateKids(g, fm, a, m, pt, input, c, t, |t.kids|, after);
    var last := FinishNode(g, fm, a, m, pt, input, c, t, after, q);
    RunsTransitive(g, pt, input, c, run, Midway(g, a, c, t.rule, t.kids, |t.kids|), last, Built(c, q, t));
    acts := run + last;
  }

  lemma {:induction false} SimulateKids(g: Grammar, fm: FirstMap, a: Automaton, m: Mode, pt: ParseTables, input: seq<Token>,
                                        c: Config, t: Tree, i: nat, after: Terminal) returns (acts: seq<Action>)
    requires Setting(g, fm, a, m, pt) && NodeNext(g, input, c, t, after) && Begins(g, a, m, Top(c.st), t.rule, after)
    requires i <= |t.kids|
    ensures Runs(g, pt, input, c, acts, Midway(g, a, c, t.rule, t.kids, i))
    decreases t, 0, i, 1
  {
    hide Setting, Begins, Derives, ReadsLeft, Plain, Reads, Runs, Midway;
    KidsDerived(g, t);
    if i == 0 {
      MidwayStart(g, a, c, t.rule, t.kids);
      RunsNone(g, pt, input, c);
      acts := [];
    } else {
      var before := SimulateKids(g, fm, a, m, pt, input, c, t, i - 1, after);
      var step := SimulateKid(g, fm, a, m, pt, input, c, t, i - 1, after);
      RunsTransitive(g, pt, input, c, before, Midway(g, a, c, t.rule, t.kids, i - 1), step, Midway(g, a, c, t.rule, t.kids, i));
      acts := before + step;
    }
  }

  lemma {:induction false} SimulateKid(g: Grammar, fm: FirstMap, a: Automaton, m: Mode, pt: ParseTables, input: seq<Token>,
                                       c: Config, t: Tree, j: nat, after: Terminal) returns (acts: seq<Action>)
    requires Setting(g, fm, a, m, pt) && NodeNext(g, input, c, t, after) && Begins(g, a, m, Top(c.st), t.rule, after)
    requires j < |t.kids|
    ensures Runs(g, pt, input, Midway(g, a, c, t.rule, t.kids, j), acts, Midway(g, a, c, t.rule, t.kids, j + 1))
    decreases t, 0, j + 1, 0
  {
    hide Expects, Derives, ReadsLeft, Plain, Along, Runs, Linked, Midway, WellFormed, AutomatonOk, Spreads, Offers, GotosOk, Closed;
    KidsDerived(g, t);
    var mid := Midway(g, a, c, t.rule, t.kids, j);
    KidReady(g, a, c, t, j);
    var next := KidPlaced(g, fm, a, m, input, c, mid, t, j, after);
    var step, q := Simulate(g, fm, a, m, pt, input, mid, Item(t.rule, j), g[t.rule].rhs[j], t.kids[j], next);
    MidwayStep(g, a, c, t.rule, t.kids, j, q);
    acts := step;
  }

  lemma ShiftLeaf(g: Grammar, a: Automaton, m: Mode, pt: ParseTables, input: seq<Token>, c: Config, tok: Token, q: nat) returns (acts: seq<Action>)
    requires Offers(g, a, m, pt) && Shaped(c.st) && Top(c.st) < |a.states|
    requires Linked(a, Top(c.st), Term(tok.kind), q) && tok.kind != End
    requires c.pos < |input| && input[c.pos] == tok
    ensures Runs(g, pt, input, c, acts, Built(c, q, Leaf(tok)))
  {
    var x := ShiftTo(q);
    assert x in ShiftAction(a, Top(c.st), tok.kind);
    assert x in Incoming(g, a, m, Top(c.st), tok.kind);
    acts := [x];
    RunsOne(g, pt, input, c, x, Built(c, q, Leaf(tok)));
  }

  lemma KidFacts(g: Grammar, t: Tree, j: nat)
    requires t.Node? && t.rule < |g| && Derives(g, t, NonTerm(g[t.rule].lhs)) && Plain(t) && j < |t.kids|
    ensures Derives(g, t.kids[j], g[t.rule].rhs[j]) && Plain(t.kids[j]) && ReadsLeft(t.kids[j], t.kids[..j])
  {
  }

  lemma KidReady(g: Grammar, a: Automaton, c: Config, t: Tree, j: nat)
    requires Shaped(c.st) && t.Node? && t.rule < |g| && Derives(g, t, NonTerm(g[t.rule].lhs)) && Plain(t) && j < |t.kids|
    ensures var mid := Midway(g, a, c, t.rule, t.kids, j);
            && Shaped(mid.st) && Top(mid.st) == Along(a, Top(c.st), g[t.rule].rhs[..j])
            && mid.pos == c.pos + |Yields(t.kids[..j])| && ReadsLeft(t.kids[j], mid.st.values)
    ensures Derives(g, t.kids[j], g[t.rule].rhs[j]) && Plain(t.kids[j])
  {
    MidwayTop(g, a, c, t.rule, t.kids, j);
    KidFacts(g, t, j);
    ReadsFurther(t.kids[j], c.st.values, t.kids[..j]);
  }

  // Child `j` is read next, and what follows it is a lookahead of its place.
  lemma KidPlaced(g: Grammar, fm: FirstMap, a: Automaton, m: Mode, input: seq<Token>, c: Config, mid: Config, t: Tree, j: nat,
                  after: Terminal) returns (next: Terminal)
    requires Grounded(g, fm, a, m) && NodeNext(g, input, c, t, after) && Begins(g, a, m, Top(c.st), t.rule, after)
    requires j < |t.kids| && Shaped(mid.st) && Top(mid.st) == Along(a, Top(c.st), g[t.rule].rhs[..j])
    requires mid.pos == c.pos + |Yields(t.kids[..j])|
    ensures Expects(g, fm, a, m, Top(mid.st), Item(t.rule, j), g[t.rule].rhs[j], next)
    ensures Reads(input, mid.pos, Yield(t.kids[j]), next)
  {
    hide Derives, ReadsLeft, Plain, Expects, WellFormed, AutomatonOk, Spreads, Along;
    KidsDerived(g, t);
    next := KidAfter(g, fm, input, c.pos, t.rule, t.kids, j, after);
    KidExpected(g, fm, a, m, Top(c.st), t.rule, j, after, next);
  }

  lemma KidsDerived(g: Grammar, t: Tree)
    requires t.Node? && t.rule < |g| && Derives(g, t, NonTerm(g[t.rule].lhs))
    ensures |t.kids| == |g[t.rule].rhs| && forall i | 0 <= i < |t.kids| :: Derives(g, t.kids[i], g[t.rule].rhs[i])
  {
  }

  lemma KidExpected(g: Grammar, fm: FirstMap, a: Automaton, m: Mode, s: nat, r: nat, j: nat, after: Terminal, next: Terminal)
    requires Grounded(g, fm, a, m) && Begins(g, a, m, s, r, after) && j < |g[r].rhs|
    requires next in FirstOf(fm, g[r].rhs[j + 1..]) || (next == after && NullableSeq(fm, g[r].rhs[j + 1..]))
    ensures Expects(g, fm, a, m, Along(a, s, g[r].rhs[..j]), Item(r, j), g[r].rhs[j], next)
  {
    ItemAlong(g, fm, a, m, s, r, j, after);
    assert g[r].rhs[j] != Term(End);
    assert Rest(g, Item(r, j)) == g[r].rhs[j + 1..];
  }

  lemma MidwayStart(g: Grammar, a: Automaton, c: Config, r: nat, kids: seq<Tree>)
    requires Shaped(c.st) && r < |g| && |kids| == |g[r].rhs|
    ensures Midway(g, a, c, r, kids, 0) == c
  {
    assert g[r].rhs[..0] == [] && kids[..0] == [];
  }

  lemma MidwayTop(g: Grammar, a: Automaton, c: Config, r: nat, kids: seq<Tree>, j: nat)
    requires Shaped(c.st) && r < |g| && j <= |kids| == |g[r].rhs|
    ensures Shaped(Midway(g, a, c, r, kids, j).st)
    ensures Top(Midway(g, a, c, r, kids, j).st) == Along(a, Top(c.st), g[r].rhs[..j])
  {
    assert |g[r].rhs[..j]| == j;
  }

  // What comes after child `j`: the first token of its later siblings, or what follows the node.
  lemma KidAfter(g: Grammar, fm: FirstMap, input: seq<Token>, pos: nat, r: nat, kids: seq<Tree>, j: nat, after: Terminal)
      returns (next: Terminal)
    requires Closed(g, fm) && r < |g| && j < |kids| == |g[r].rhs|
    requires forall i | 0 <= i < |kids| :: Derives(g, kids[i], g[r].rhs[i])
    requires Reads(input, pos, Yields(kids), after)
    ensures Reads(input, pos + |Yields(kids[..j])|, Yield(kids[j]), next)
    ensures next in FirstOf(fm, g[r].rhs[j + 1..]) || (next == after && NullableSeq(fm, g[r].rhs[j + 1..]))
  {
    var later := Yields(kids[j + 1..]);
    YieldsSplit(kids, j);
    assert kids[j..] == [kids[j]] + kids[j + 1..];
    YieldsAppend([kids[j]], kids[j + 1..]);
    YieldsOne(kids[j]);
    ReadsSplit(input, pos, Yields(kids[..j]), Yields(kids[j..]), after);
    ReadsSplit(input, pos + |Yields(kids[..j])|, Yield(kids[j]), later, after);
    next := if later == [] then after else later[0].kind;
    var ts, rhs := kids[j + 1..], g[r].rhs[j + 1..];
    forall i | 0 <= i < |ts| ensures Derives(g, ts[i], rhs[i]) && rhs[i] in fm {
      assert ts[i] == kids[j + 1 + i] && rhs[i] == g[r].rhs[j + 1 + i];
    }
    YieldsBegin(g, fm, ts, rhs);
  }

  lemma MidwayStep(g: Grammar, a: Automaton, c: Config, r: nat, kids: seq<Tree>, j: nat, q: nat)
    requires Shaped(c.st) && r < |g| && j < |kids| == |g[r].rhs|
    requires Shaped(Midway(g, a, c, r, kids, j).st) && Linked(a, Top(Midway(g, a, c, r, kids, j).st), g[r].rhs[j], q)
    ensures Midway(g, a, c, r, kids, j + 1) == Built(Midway(g, a, c, r, kids, j), q, kids[j])
  {
    MidwayTop(g, a, c, r, kids, j);
    TakeOneMore(kids, j);
    TakeOneMore(g[r].rhs, j);
    assert g[r].rhs[..j + 1][..j] == g[r].rhs[..j];
    assert kids[..j + 1][..j] == kids[..j];
    YieldsAppend(kids[..j], [kids[j]]);
    YieldsOne(kids[j]);
  }

  // With all children on the stack, the node's reduction is offered and rebuilds exactly the node.
  lemma FinishNode(g: Grammar, fm: FirstMap, a: Automaton, m: Mode, pt: ParseTables, input: seq<Token>, c: Config, t: Tree,
                   after: Terminal, q: nat) returns (acts: seq<Action>)
    requires Setting(g, fm, a, m, pt) && NodeNext(g, input, c, t, after) && Begins(g, a, m, Top(c.st), t.rule, after)
    requires Linked(a, Top(c.st), NonTerm(g[t.rule].lhs), q)
    ensures Runs(g, pt, input, Midway(g, a, c, t.rule, t.kids, |t.kids|), acts, Built(c, q, t))
  {
    var end := Midway(g, a, c, t.rule, t.kids, |t.kids|);
    ReduceOffered(g, fm, a, m, pt, Top(c.st), t.rule, after);
    NodeRebuilt(g, a, pt, input, c, t, after, q);
    acts := [ReduceBy(t.rule)];
    RunsOne(g, pt, input, end, ReduceBy(t.rule), Built(c, q, t));
  }

  lemma ReduceOffered(g: Grammar, fm: FirstMap, a: Automaton, m: Mode, pt: ParseTables, s: nat, r: nat, after: Terminal)
    requires Grounded(g, fm, a, m) && Offers(g, a, m, pt) && Begins(g, a, m, s, r, after)
    ensures ReduceBy(r) in Choices(pt, Along(a, s, g[r].rhs), after)
  {
    var n := |g[r].rhs|;
    ItemAlong(g, fm, a, m, s, r, n, after);
    assert g[r].rhs[..n] == g[r].rhs;
    var q := Along(a, s, g[r].rhs);
    ReducesExact(g, m, q, a.states[q], after, ReduceBy(r));
    assert ReducesOn(g, m, q, Item(r, n), after);
    assert ReduceBy(r) in Incoming(g, a, m, q, after);
  }

  lemma NodeRebuilt(g: Grammar, a: Automaton, pt: ParseTables, input: seq<Token>, c: Config, t: Tree, after: Terminal, q: nat)
    requires GotosOk(a, pt) && NodeNext(g, input, c, t, after) && Linked(a, Top(c.st), NonTerm(g[t.rule].lhs), q)
    requires ReduceBy(t.rule) in Choices(pt, Along(a, Top(c.st), g[t.rule].rhs), after)
    ensures var end := Midway(g, a, c, t.rule, t.kids, |t.kids|);
            Shaped(end.st) && Act(g, pt, input, end, ReduceBy(t.rule)) == Some(Built(c, q, t))
  {
    hide Derives, ReadsLeft, Plain, GotosOk, Choices, Along, Reduced;
    NodeParts(g, t, c.st.values);
    var n := |t.kids|;
    var end := Midway(g, a, c, t.rule, t.kids, n);
    MidwayTop(g, a, c, t.rule, t.kids, n);
    assert t.kids[..n] == t.kids && g[t.rule].rhs[..n] == g[t.rule].rhs;
    SplitBack(c.st.values, t.kids, |t.peeked|);
    SplitBack(c.st.states, Walk(a, Top(c.st), g[t.rule].rhs[..n]), 0);
    ReducedShape(g, a, pt, end.st, t.rule);
  }

  lemma NodeParts(g: Grammar, t: Tree, left: seq<Tree>)
    requires t.Node? && t.rule < |g| && Derives(g, t, NonTerm(g[t.rule].lhs)) && ReadsLeft(t, left)
    ensures |t.kids| == |g[t.rule].rhs| && |t.peeked| == g[t.rule].peek
    ensures |t.peeked| <= |left| && t.peeked == left[|left| - |t.peeked|..]
  {
  }

  lemma SplitBack<T>(x: seq<T>, y: seq<T>, p: nat)
    requires p <= |x|
    ensures (x + y)[|x|..] == y && (x + y)[..|x|] == x && (x + y)[|x| - p..|x|] == x[|x| - p..]
  {
  }

  // ----- whole inputs -----

  lemma RootReadsNothing(g: Grammar, t: Tree)
    requires WellFormed(g) && Derives(g, t, StartSymbol(g)) && Plain(t)
    ensures ReadsLeft(t, [])
  {
    PeekFits(g, 0, 0);
  }

  lemma StartExpects(g: Grammar, fm: FirstMap, a: Automaton, m: Mode)
    requires Grounded(g, fm, a, m)
    ensures Expects(g, fm, a, m, 0, Item(0, 0), StartSymbol(g), End)
  {
    assert Item(0, 0) in Items(a.states[0]);
    assert Rest(g, Item(0, 0)) == [Term(End)];
    assert Term(End) in fm by { assert g[0].rhs[1] in fm; }
    assert End in FirstOf(fm, [Term(End)]);
  }

  lemma AcceptOffered(g: Grammar, a: Automaton, m: Mode, pt: ParseTables, q: nat)
    requires WellFormed(g) && AutomatonOk(g, a) && Offers(g, a, m, pt) && Linked(a, 0, StartSymbol(g), q)
    ensures AcceptAll in Choices(pt, q, End)
  {
    assert Item(0, 0) in Items(a.states[0]);
    MoveInState(g, a, 0, Item(0, 0), StartSymbol(g));
    MoveInState(g, a, q, Item(0, 1), Term(End));
    assert AcceptAll in ShiftAction(a, q, End);
    assert AcceptAll in Incoming(g, a, m, q, End);
  }

  ghost predicate Accepts(g: Grammar, pt: ParseTables, input: seq<Token>, c: Config, acts: seq<Action>, c': Config) {
    Runs(g, pt, input, c, acts, c') && Shaped(c'.st) && AcceptAll in Choices(pt, Top(c'.st), TokenAt(input, c'.pos).kind)
  }

  const INITIAL := Config(EMPTY, 0)

  lemma ReadsAll(input: seq<Token>)
    ensures Reads(input, 0, input, End)
  {
    assert input[0..|input|] == input;
  }

  /** LR completeness: as long as no action was dropped, every derivation tree of the start symbol is
      the outcome of an accepting run over its yield. */
  lemma TreeAccepted(g: Grammar, fm: FirstMap, a: Automaton, m: Mode, pt: ParseTables, t: Tree) returns (acts: seq<Action>, q: nat)
    requires Setting(g, fm, a, m, pt) && Derives(g, t, StartSymbol(g)) && Plain(t)
    ensures Accepts(g, pt, Yield(t), INITIAL, acts, Config(Stack([0, q], [t]), |Yield(t)|))
  {
    RootReadsNothing(g, t);
    StartExpects(g, fm, a, m);
    ReadsAll(Yield(t));
    acts, q := Simulate(g, fm, a, m, pt, Yield(t), INITIAL, Item(0, 0), StartSymbol(g), t, End);
    AcceptOffered(g, a, m, pt, q);
    InitialBuilt(t, q);
  }

  lemma InitialBuilt(t: Tree, q: nat)
    ensures Built(INITIAL, q, t) == Config(Stack([0, q], [t]), |Yield(t)|)
  {
    assert [0] + [q] == [0, q];
    assert [] + [t] == [t];
  }

  // ----- one choice at most -----

  ghost predicate Deterministic(pt: ParseTables) {
    forall s, t :: |Choices(pt, s, t)| <= 1
  }

  lemma CleanChoice(g: Grammar, a: Automaton, m: Mode, pt: ParseTables, s: nat, t: Terminal)
    requires TablesOk(g, a, m, pt) && Clean(g, a, m) && s < |a.states|
    ensures |Choices(pt, s, t)| <= 1
  {
    assert RowDone(g, a, m, s, pt.action[s]);
    assert CleanAt(g, a, m, s, t);
    IncomingReal(g, a, m, s, t);
    var inc := Incoming(g, a, m, s, t);
    if inc != [] {
      assert EntryIs(g, pt.action[s], t, inc, ShiftPrec(g, a.states[s], t));
      assert Settle(g, inc, ShiftPrec(g, a.states[s], t)) == inc[0] && inc[0] in inc;
    } else if t in pt.action[s] {
      assert pt.action[s][t].IgnoreToken? || pt.action[s][t].ErrorToken?;
    }
  }

  lemma CleanIsDeterministic(g: Grammar, a: Automaton, m: Mode, pt: ParseTables)
    requires TablesOk(g, a, m, pt) && Clean(g, a, m)
    ensures Deterministic(pt)
  {
    forall s: nat, t ensures |Choices(pt, s, t)| <= 1 {
      if s < |a.states| {
        CleanChoice(g, a, m, pt, s, t);
      }
    }
  }

  /** With one choice at most, there is only one accepting run. */
  lemma {:induction false} OneAcceptingRun(g: Grammar, pt: ParseTables, input: seq<Token>, c: Config, x: seq<Action>, c1: Config, y: seq<Action>, c2: Config)
    requires Deterministic(pt) && Accepts(g, pt, input, c, x, c1) && Accepts(g, pt, input, c, y, c2)
    ensures x == y && c1 == c2
    decreases |x|
  {
    var s, t := Top(c.st), TokenAt(input, c.pos).kind;
    assert |Choices(pt, s, t)| <= 1;
    if x != [] && y != [] {
      assert x[0] in Choices(pt, s, t) && y[0] in Choices(pt, s, t);
      OneAcceptingRun(g, pt, input, Act(g, pt, input, c, x[0]).value, x[1..], c1, y[1..], c2);
      assert x == [x[0]] + x[1..] && y == [y[0]] + y[1..];
    }
  }

  /** A grammar whose tables have no collisions is unambiguous: a token sequence has at most one
      derivation tree. */
  lemma CleanIsUnambiguous(g: Grammar, fm: FirstMap, a: Automaton, m: Mode, pt: ParseTables, t: Tree, t': Tree)
    requires Setting(g, fm, a, m, pt) && TablesOk(g, a, m, pt) && Clean(g, a, m)
    requires Derives(g, t, StartSymbol(g)) && Plain(t) && Derives(g, t', StartSymbol(g)) && Plain(t')
    requires Yield(t) == Yield(t')
    ensures t == t'
  {
    CleanIsDeterministic(g, a, m, pt);
    var x, q := TreeAccepted(g, fm, a, m, pt, t);
    var y, q' := TreeAccepted(g, fm, a, m, pt, t');
    OneAcceptingRun(g, pt, Yield(t), INITIAL, x, Config(Stack([0, q], [t]), |Yield(t)|), y, Config(Stack([0, q'], [t']), |Yield(t)|));
  }
}
