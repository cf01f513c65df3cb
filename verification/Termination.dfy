/** Why driving the tables ends (src/lalr.ts:643-721): every step adds a node to what is on the stack, and where no
    two actions ever met, what is on the stack is what a valid continuation of the input leads to. */
module Termination {
  import opened Options
  import opened Grammars
  import opened FirstSets
  import opened Automata
  import opened Lookaheads
  import LA = LookaheadTheory
  import opened Tables
  import opened Resolution
  import opened Machine
  import opened Restore
  import opened Completeness

  // ----- every step adds a node -----

  function Size(t: Tree): (n: nat)
    ensures n > 0
    decreases t, 0
  {
    match t
    case Leaf(_) => 1
    case Node(_, _, kids) => 1 + SizeAll(kids)
    case Both(l, r) => 1 + Size(l) + Size(r)
  }

  function SizeAll(ts: seq<Tree>): nat
    decreases ts, 1
  {
    if ts == [] then 0 else SizeAll(ts[..|ts| - 1]) + Size(ts[|ts| - 1])
  }

  lemma {:induction false} SizeAppend(x: seq<Tree>, y: seq<Tree>)
    ensures SizeAll(x + y) == SizeAll(x) + SizeAll(y)
    decreases |y|
  {
    if y == [] {
      assert x + y == x;
    } else {
      var n := |y| - 1;
      assert (x + y)[..|x + y| - 1] == x + y[..n] && (x + y)[|x + y| - 1] == y[n];
      SizeAppend(x, y[..n]);
    }
  }

  lemma SizeOne(t: Tree)
    ensures SizeAll([t]) == Size(t)
  {
    assert [t][..0] == [];
  }

  ghost predicate AllPlain(ts: seq<Tree>) {
    forall i | 0 <= i < |ts| :: Plain(ts[i])
  }

  lemma SizeReduced(ts: seq<Tree>, base: nat, r: nat, peeked: seq<Tree>)
    requires base <= |ts|
    ensures SizeAll(ts[..base] + [Node(r, peeked, ts[base..])]) == SizeAll(ts) + 1
  {
    hide SizeAll, Size;
    NodeSize(r, peeked, ts[base..]);
    assert ts == ts[..base] + ts[base..];
    SizeAppend(ts[..base], ts[base..]);
    SizeAppend(ts[..base], [Node(r, peeked, ts[base..])]);
    SizeOne(Node(r, peeked, ts[base..]));
  }

  lemma NodeSize(r: nat, peeked: seq<Tree>, kids: seq<Tree>)
    ensures Size(Node(r, peeked, kids)) == 1 + SizeAll(kids)
  {
  }

  lemma PlainReduced(ts: seq<Tree>, base: nat, r: nat, peeked: seq<Tree>)
    requires base <= |ts| && AllPlain(ts) && AllPlain(peeked)
    ensures AllPlain(ts[..base] + [Node(r, peeked, ts[base..])])
  {
    hide Plain;
    var top := ts[..base] + [Node(r, peeked, ts[base..])];
    PlainNode(r, peeked, ts[base..]);
    forall i | 0 <= i < |top| ensures Plain(top[i]) { assert i < base ==> top[i] == ts[i]; }
  }

  lemma PlainSlice(ts: seq<Tree>, i: nat, j: nat)
    requires i <= j <= |ts| && AllPlain(ts)
    ensures AllPlain(ts[i..j])
  {
    hide Plain;
  }

  lemma PlainNode(r: nat, peeked: seq<Tree>, kids: seq<Tree>)
    requires AllPlain(kids) && AllPlain(peeked)
    ensures Plain(Node(r, peeked, kids))
  {
  }

  lemma StepSize(g: Grammar, pt: ParseTables, input: seq<Token>, c: Config, x: Action)
    requires Shaped(c.st) && Act(g, pt, input, c, x).Some?
    ensures var c' := Act(g, pt, input, c, x).value;
      SizeAll(c'.st.values) == SizeAll(c.st.values) + 1 && (AllPlain(c.st.values) ==> AllPlain(c'.st.values)) && Shaped(c'.st) && c.pos <= c'.pos
  {
    hide Choices;
    if x.ReduceBy? {
      ReduceSize(g, pt, input, c, x.rule);
    } else {
      var leaf := Leaf(TokenAt(input, c.pos));
      SizeAppend(c.st.values, [leaf]);
      SizeOne(leaf);
    }
  }

  lemma ReduceSize(g: Grammar, pt: ParseTables, input: seq<Token>, c: Config, r: nat)
    requires Shaped(c.st) && Act(g, pt, input, c, ReduceBy(r)).Some?
    ensures var c' := Act(g, pt, input, c, ReduceBy(r)).value;
      SizeAll(c'.st.values) == SizeAll(c.st.values) + 1 && (AllPlain(c.st.values) ==> AllPlain(c'.st.values)) && Shaped(c'.st) && c.pos <= c'.pos
  {
    hide Choices;
    var base := |c.st.values| - |g[r].rhs|;
    var peeked := c.st.values[base - g[r].peek..base];
    SizeReduced(c.st.values, base, r, peeked);
    if AllPlain(c.st.values) { PlainReduced(c.st.values, base, r, peeked); }
  }

  /** A run has as many steps as it adds nodes and leaves. */
  lemma {:induction false} RunSize(g: Grammar, pt: ParseTables, input: seq<Token>, c: Config, acts: seq<Action>, c': Config)
    requires Runs(g, pt, input, c, acts, c') && Shaped(c.st)
    ensures SizeAll(c'.st.values) == SizeAll(c.st.values) + |acts| && (AllPlain(c.st.values) ==> AllPlain(c'.st.values)) && Shaped(c'.st)
    ensures c.pos <= c'.pos
    decreases |acts|
  {
    hide Choices, Reduced;
    if acts != [] {
      StepSize(g, pt, input, c, acts[0]);
      RunSize(g, pt, input, Act(g, pt, input, c, acts[0]).value, acts[1..], c');
    }
  }

  // ----- symbols that vanish, and symbols that begin with a terminal -----

  ghost predicate VanishesIn(g: Grammar, s: Symbol, h: nat)
    decreases h, 1
  {
    h > 0 && s.NonTerm? && exists r :: 0 <= r < |g| && g[r].lhs == s.n && AllVanish(g, g[r].rhs, h - 1)
  }

  ghost predicate AllVanish(g: Grammar, a: seq<Symbol>, h: nat)
    decreases h, 2
  {
    forall i | 0 <= i < |a| :: VanishesIn(g, a[i], h)
  }

  lemma {:induction false} VanishesLonger(g: Grammar, s: Symbol, h: nat, k: nat)
    requires VanishesIn(g, s, h) && h <= k
    ensures VanishesIn(g, s, k)
    decreases h
  {
    var r: nat :| r < |g| && g[r].lhs == s.n && AllVanish(g, g[r].rhs, h - 1);
    forall i | 0 <= i < |g[r].rhs| ensures VanishesIn(g, g[r].rhs[i], k - 1) {
      VanishesLonger(g, g[r].rhs[i], h - 1, k - 1);
    }
    assert AllVanish(g, g[r].rhs, k - 1);
  }

  // Where a symbol of a sentential form comes from, one step before.
  lemma AppliedAt(g: Grammar, a: seq<Symbol>, s: Step, i: nat)
    requires CanApply(g, a, s) && i < |a|
    ensures var b := Apply(g, a, s);
      && (i < s.at ==> i < |b| && b[i] == a[i])
      && (i == s.at ==> a[i] == NonTerm(g[s.rule].lhs) && forall j | 0 <= j < |g[s.rule].rhs| :: s.at + j < |b| && b[s.at + j] == g[s.rule].rhs[j])
      && (i > s.at ==> i - 1 + |g[s.rule].rhs| < |b| && b[i - 1 + |g[s.rule].rhs|] == a[i])
  {
  }

  /** What rewrites to nothing vanishes in finitely many levels. */
  lemma {:induction false} VanishHeight(g: Grammar, a: seq<Symbol>, p: seq<Step>) returns (h: nat)
    requires Rewrites(g, a, [], p)
    ensures AllVanish(g, a, h)
    decreases |p|
  {
    if p == [] {
      h := 0;
    } else {
      var s, b := p[0], Apply(g, a, p[0]);
      var k := VanishHeight(g, b, p[1..]);
      h := k + 1;
      forall i | 0 <= i < |a| ensures VanishesIn(g, a[i], h) {
        AppliedAt(g, a, s, i);
        if i == s.at {
          forall j | 0 <= j < |g[s.rule].rhs| ensures VanishesIn(g, g[s.rule].rhs[j], k) {
            assert VanishesIn(g, b[s.at + j], k);
          }
          assert AllVanish(g, g[s.rule].rhs, k);
        } else {
          var x := if i < s.at then i else i - 1 + |g[s.rule].rhs|;
          assert VanishesIn(g, b[x], k);
          VanishesLonger(g, a[i], k, h);
        }
      }
    }
  }

  // No rule of `s` looks further left than there are values.
  ghost predicate Peeks(g: Grammar, s: Symbol, n: nat) {
    forall q | 0 <= q < |g| && s == NonTerm(g[q].lhs) :: g[q].peek <= n
  }

  /** A symbol that vanishes has a derivation tree over no tokens. */
  lemma {:induction false} EmptyTree(g: Grammar, s: Symbol, h: nat, left: seq<Tree>) returns (t: Tree)
    requires WellFormed(g) && VanishesIn(g, s, h) && Peeks(g, s, |left|) && AllPlain(left)
    ensures Derives(g, t, s) && Plain(t) && Yield(t) == [] && ReadsLeft(t, left)
    decreases h, 1, 0
  {
    hide WellFormed, Derives, ReadsLeft, Plain;
    var r: nat :| r < |g| && g[r].lhs == s.n && AllVanish(g, g[r].rhs, h - 1);
    var kids := EmptyTrees(g, r, h - 1, |g[r].rhs|);
    var peeked := left[|left| - g[r].peek..];
    t := Node(r, peeked, kids);
    NodeOf(g, r, peeked, kids, left);
  }

  lemma NodeOf(g: Grammar, r: nat, peeked: seq<Tree>, kids: seq<Tree>, left: seq<Tree>)
    requires r < |g| && |kids| == |g[r].rhs| && g[r].peek <= |left| && peeked == left[|left| - g[r].peek..] && AllPlain(left) && AllPlain(kids)
    requires forall i | 0 <= i < |kids| :: Derives(g, kids[i], g[r].rhs[i]) && ReadsLeft(kids[i], kids[..i])
    ensures var t := Node(r, peeked, kids); Derives(g, t, NonTerm(g[r].lhs)) && Plain(t) && Yield(t) == Yields(kids) && ReadsLeft(t, left)
  {
    assert |peeked| == g[r].peek;
    forall i | 0 <= i < |peeked| ensures Plain(peeked[i]) { assert peeked[i] == left[|left| - g[r].peek + i]; }
  }

  lemma {:induction false} EmptyTrees(g: Grammar, r: nat, h: nat, n: nat) returns (kids: seq<Tree>)
    requires WellFormed(g) && r < |g| && n <= |g[r].rhs| && AllVanish(g, g[r].rhs, h)
    ensures |kids| == n && AllPlain(kids) && Yields(kids) == []
    ensures forall i | 0 <= i < n :: Derives(g, kids[i], g[r].rhs[i]) && ReadsLeft(kids[i], kids[..i])
    decreases h, 2, n
  {
    hide WellFormed, Derives, ReadsLeft, Plain;
    kids := [];
    if n > 0 {
      var before := EmptyTrees(g, r, h, n - 1);
      assert VanishesIn(g, g[r].rhs[n - 1], h);
      PeekFits(g, r, n - 1);
      var last := EmptyTree(g, g[r].rhs[n - 1], h, before);
      kids := before + [last];
      YieldsAppend(before, [last]);
      YieldsOne(last);
      assert kids[..n - 1] == before;
      forall i | 0 <= i < n ensures Derives(g, kids[i], g[r].rhs[i]) && ReadsLeft(kids[i], kids[..i]) && Plain(kids[i]) {
        if i < n - 1 { assert kids[i] == before[i] && kids[..i] == before[..i]; }
      }
    }
  }

  // Symbol `i` of rule `r` can come first.
  predicate Fronts(g: Grammar, fm: FirstMap, r: nat, i: nat) {
    r < |g| && i < |g[r].rhs| && NullableSeq(fm, g[r].rhs[..i])
  }

  // `s` can begin with `x`, down `h` rules.
  ghost predicate StartsIn(g: Grammar, fm: FirstMap, s: Symbol, x: Terminal, h: nat)
    decreases h
  {
    s == Term(x) || (h > 0 && exists r: nat, i: nat :: Fronts(g, fm, r, i) && s == NonTerm(g[r].lhs) && StartsIn(g, fm, g[r].rhs[i], x, h - 1))
  }

  // A sequence begins with `x` at position `i`, behind symbols that vanish.
  ghost predicate StartsAt(g: Grammar, fm: FirstMap, a: seq<Symbol>, i: nat, x: Terminal, h: nat)
    requires i < |a|
  {
    NullableSeq(fm, a[..i]) && StartsIn(g, fm, a[i], x, h)
  }

  /** What rewrites to something that begins with `x` begins with it in finitely many levels. */
  lemma {:induction false} StartHeight(g: Grammar, fm: FirstMap, a: seq<Symbol>, x: Terminal, rest: seq<Symbol>, p: seq<Step>) returns (i: nat, h: nat)
    requires Closed(g, fm) && Rewrites(g, a, [Term(x)] + rest, p)
    ensures i < |a| && StartsAt(g, fm, a, i, x, h)
    decreases |p|
  {
    hide Closed;
    if p == [] {
      i, h := 0, 0;
      assert a[0] == ([Term(x)] + rest)[0] && a[..0] == [];
    } else {
      var s, b := p[0], Apply(g, a, p[0]);
      var j, k := StartHeight(g, fm, b, x, rest, p[1..]);
      i, h := StartsBefore(g, fm, a, s, j, x, k);
    }
  }

  lemma StartsInside(g: Grammar, fm: FirstMap, a: seq<Symbol>, s: Step, j: nat, x: Terminal, k: nat)
    requires Closed(g, fm) && CanApply(g, a, s) && s.at <= j < s.at + |g[s.rule].rhs| && j < |Apply(g, a, s)|
    requires StartsAt(g, fm, Apply(g, a, s), j, x, k)
    ensures StartsAt(g, fm, a, s.at, x, k + 1)
  {
    hide Closed, StartsIn, NullableSeq;
    var b, rhs := Apply(g, a, s), g[s.rule].rhs;
    AppliedAt(g, a, s, s.at);
    assert b[..j] == a[..s.at] + rhs[..j - s.at];
    NullableSeqAppend(fm, a[..s.at], rhs[..j - s.at]);
    StartsUp(g, fm, s.rule, j - s.at, x, k);
  }

  lemma StartsBefore(g: Grammar, fm: FirstMap, a: seq<Symbol>, s: Step, j: nat, x: Terminal, k: nat) returns (i: nat, h: nat)
    requires Closed(g, fm) && CanApply(g, a, s) && j < |Apply(g, a, s)| && StartsAt(g, fm, Apply(g, a, s), j, x, k)
    ensures i < |a| && StartsAt(g, fm, a, i, x, h)
  {
    hide Closed, StartsIn, NullableSeq;
    var b, n := Apply(g, a, s), |g[s.rule].rhs|;
    if j < s.at {
      i, h := j, k;
      AppliedAt(g, a, s, j);
      assert a[..j] == b[..j];
    } else if j < s.at + n {
      i, h := s.at, k + 1;
      StartsInside(g, fm, a, s, j, x, k);
    } else {
      i, h := j + 1 - n, k;
      AppliedAt(g, a, s, i);
      AppliedAt(g, a, s, s.at);
      VanishesBefore(g, fm, a, s, i);
    }
  }

  // What vanished after a step vanished before it.
  lemma VanishesBefore(g: Grammar, fm: FirstMap, a: seq<Symbol>, s: Step, i: nat)
    requires Closed(g, fm) && CanApply(g, a, s) && s.at < i <= |a|
    requires NullableSeq(fm, Apply(g, a, s)[..i - 1 + |g[s.rule].rhs|])
    ensures NullableSeq(fm, a[..i])
  {
    hide Closed, NullableSeq;
    var x, m, y := a[..s.at], g[s.rule].rhs, a[s.at + 1..i];
    assert Apply(g, a, s) == x + m + a[s.at + 1..] && a[s.at + 1..][..i - 1 - s.at] == y;
    TakeAppend(x + m, a[s.at + 1..], i - 1 - s.at);
    NullableSeqAppend(fm, x + m, y);
    NullableSeqAppend(fm, x, m);
    RuleVanishes(g, fm, s.rule);
    JustOne(fm, a[s.at]);
    assert a[..i] == x + [a[s.at]] + y;
    NullableSeqAppend(fm, x + [a[s.at]], y);
    NullableSeqAppend(fm, x, [a[s.at]]);
  }

  lemma TakeAppend<X>(x: seq<X>, y: seq<X>, n: nat)
    requires n <= |y|
    ensures (x + y)[..|x| + n] == x + y[..n]
  {
  }

  lemma JustOne(fm: FirstMap, s: Symbol)
    ensures NullableSeq(fm, [s]) <==> NullableSym(fm, s)
  {
    assert [s][0] == s;
  }

  lemma StartsUp(g: Grammar, fm: FirstMap, r: nat, i: nat, x: Terminal, h: nat)
    requires Fronts(g, fm, r, i) && StartsIn(g, fm, g[r].rhs[i], x, h)
    ensures StartsIn(g, fm, NonTerm(g[r].lhs), x, h + 1)
  {
    hide Fronts;
  }

  lemma RuleVanishes(g: Grammar, fm: FirstMap, r: nat)
    requires Closed(g, fm) && r < |g|
    ensures NullableSeq(fm, g[r].rhs) ==> NullableSym(fm, NonTerm(g[r].lhs))
  {
    assert RuleClosed(g, fm, r);
  }

  // ----- FIRST of sequences -----

  lemma FirstBehind(fm: FirstMap, a: seq<Symbol>, i: nat, x: Terminal)
    requires i < |a| && NullableSeq(fm, a[..i]) && x in TermsOf(fm, a[i])
    ensures x in FirstOf(fm, a)
  {
    assert a == a[..i] + a[i..];
    FirstOfAppend(fm, a[..i], a[i..]);
  }

  lemma {:induction false} FirstWhere(fm: FirstMap, a: seq<Symbol>, x: Terminal) returns (i: nat)
    requires x in FirstOf(fm, a)
    ensures i < |a| && NullableSeq(fm, a[..i]) && x in TermsOf(fm, a[i])
    decreases |a|
  {
    if x in TermsOf(fm, a[0]) {
      i := 0;
    } else {
      var j := FirstWhere(fm, a[1..], x);
      i := j + 1;
      assert a[..i] == [a[0]] + a[1..][..j];
      NullableSeqAppend(fm, [a[0]], a[1..][..j]);
    }
  }

  lemma {:induction false} StartsInFirst(g: Grammar, fm: FirstMap, s: Symbol, x: Terminal, h: nat)
    requires Closed(g, fm) && StartsIn(g, fm, s, x, h) && s in fm
    ensures x in TermsOf(fm, s)
    decreases h
  {
    if s != Term(x) {
      var r: nat, i: nat :| Fronts(g, fm, r, i) && s == NonTerm(g[r].lhs) && StartsIn(g, fm, g[r].rhs[i], x, h - 1);
      StartsInFirst(g, fm, g[r].rhs[i], x, h - 1);
      FirstBehind(fm, g[r].rhs, i, x);
      assert RuleClosed(g, fm, r);
    }
  }

  // The facts of FIRST as trees see them.
  lemma SymbolStarts(g: Grammar, fm: FirstMap, s: Symbol, x: Terminal) returns (h: nat)
    requires Closed(g, fm) && Sound(g, fm) && x in TermsOf(fm, s)
    ensures StartsIn(g, fm, s, x, h)
  {
    hide Closed;
    assert BeginsWith(g, [s], x);
    var p, rest: seq<Symbol> :| Rewrites(g, [s], [Term(x)] + rest, p);
    var i, k := StartHeight(g, fm, [s], x, rest, p);
    h := k;
  }

  lemma SymbolVanishes(g: Grammar, fm: FirstMap, s: Symbol) returns (h: nat)
    requires Sound(g, fm) && NullableSym(fm, s)
    ensures VanishesIn(g, s, h)
  {
    assert Vanishes(g, [s]);
    var p :| Rewrites(g, [s], [], p);
    h := VanishHeight(g, [s], p);
    assert VanishesIn(g, [s][0], h);
  }

  // ----- stacks and LR(1) items -----

  // What an item still has to read.
  function Remaining(g: Grammar, it: Item): seq<Symbol> {
    if it.rule < |g| && it.dot <= |g[it.rule].rhs| then g[it.rule].rhs[it.dot..] else []
  }

  // The terminals that can come next.
  function Coming(g: Grammar, fm: FirstMap, o: Origin): set<Terminal> {
    FirstOf(fm, Remaining(g, ItemOf(o)) + [Term(AheadOf(o))])
  }

  lemma RemainingNext(g: Grammar, it: Item)
    requires Next(g, it).Some?
    ensures Remaining(g, it) == [Next(g, it).value] + Rest(g, it) && Remaining(g, Advance(it)) == Rest(g, it)
  {
  }

  /** A stack on which an LR(1) item is valid. */
  ghost predicate Stands(g: Grammar, fm: FirstMap, a: Automaton, st: Stack, o: Origin) {
    Legal(g, fm, o) && StackOk(g, a, st, PathOf(g, o)) && AllPlain(st.values) && Kinds(Yields(st.values))
  }

  lemma {:induction false} StackState(g: Grammar, a: Automaton, st: Stack, syms: seq<Symbol>)
    requires StackOk(g, a, st, syms)
    ensures Shaped(st) && StateAfter(a, syms) == Some(Top(st))
    decreases |syms|
  {
    hide Derives, ReadsLeft;
    if syms != [] {
      var n := |syms| - 1;
      UnderOk(g, a, st, syms, n);
      StackState(g, a, Stack(st.states[..n + 1], st.values[..n]), syms[..n]);
      assert Linked(a, st.states[n], syms[n], st.states[n + 1]);
    }
  }

  lemma StandsState(g: Grammar, fm: FirstMap, a: Automaton, st: Stack, o: Origin)
    requires AutomatonOk(g, a) && Stands(g, fm, a, st, o)
    ensures Shaped(st) && Top(st) < |a.states| == |a.trans| && ItemOf(o) in a.states[Top(st)] && StateAfter(a, PathOf(g, o)) == Some(Top(st))
    ensures ItemOk(g, ItemOf(o))
  {
    hide AutomatonOk, StackOk, Legal;
    StackState(g, a, st, PathOf(g, o));
    OriginInState(g, fm, a, o);
    ItemInRange(g, a, Top(st), ItemOf(o));
    AutomatonSizes(g, a);
  }

  // The items of the augmented rule come about in one way.
  lemma {:induction false} StartOrigin(g: Grammar, fm: FirstMap, o: Origin)
    requires WellFormed(g) && Legal(g, fm, o) && ItemOf(o).rule == 0
    ensures AheadOf(o) == End && (ItemOf(o).dot == 0 ==> o == Initial) && (ItemOf(o).dot > 1 ==> Term(End) in PathOf(g, o))
    ensures ItemOf(o).dot <= 2
  {
    match o
    case Initial =>
    case Called(caller, r, _) =>
      AcceptNeverCalled(g, ItemOf(caller));
    case Moved(from) =>
      StartOrigin(g, fm, from);
      if ItemOf(from).dot == 1 { assert PathOf(g, o)[|PathOf(g, o)| - 1] == Term(End); }
  }

  // What is handed out to what is called, or comes after.
  lemma EndingHandout(g: Grammar, fm: FirstMap, b: seq<Symbol>, t: Terminal, x: Terminal)
    requires Closed(g, fm) && x in FirstOf(fm, b + [Term(t)])
    ensures x in FirstOf(fm, b) || (NullableSeq(fm, b) && x == t)
  {
    hide Covers, RuleClosed, FirstOf, NullableSeq;
    FirstOfEnding(fm, b, t);
  }

  /** A valid LR(1) item's lookahead is among those of its state. */
  lemma {:induction false} AheadThere(g: Grammar, fm: FirstMap, a: Automaton, m: Mode, o: Origin)
    requires Grounded(g, fm, a, m) && Legal(g, fm, o)
    ensures StateAfter(a, PathOf(g, o)).Some?
    ensures ItemOf(o).rule == 0 || AheadOf(o) in Ahead(g, m, StateAfter(a, PathOf(g, o)).value, ItemOf(o))
    decreases o
  {
    hide WellFormed, AutomatonOk, Closed, FirstOf, NullableSeq, StateAfter;
    OriginInState(g, fm, a, o);
    match o
    case Initial =>
    case Called(caller, r, t) =>
      OriginInState(g, fm, a, caller);
      AheadThere(g, fm, a, m, caller);
      var s, it := StateAfter(a, PathOf(g, caller)).value, ItemOf(caller);
      CallerLive(g, fm, a, m, caller, r);
      EndingHandout(g, fm, Rest(g, it), AheadOf(caller), t);
      assert Hands(g, fm, a, m, s, it);
    case Moved(from) =>
      OriginInState(g, fm, a, from);
      AheadThere(g, fm, a, m, from);
      var s, it := StateAfter(a, PathOf(g, from)).value, ItemOf(from);
      if it.rule != 0 {
        MoveInState(g, a, s, it, Next(g, it).value);
        assert Hands(g, fm, a, m, s, it);
        MovedState(g, a, from, s);
      }
  }

  lemma MovedState(g: Grammar, a: Automaton, o: Origin, s: nat)
    requires Next(g, ItemOf(o)).Some? && StateAfter(a, PathOf(g, o)) == Some(s) && s < |a.trans| && Next(g, ItemOf(o)).value in a.trans[s]
    ensures StateAfter(a, PathOf(g, Moved(o))) == Some(a.trans[s][Next(g, ItemOf(o)).value])
  {
    assert PathOf(g, Moved(o))[..|PathOf(g, Moved(o))| - 1] == PathOf(g, o);
  }

  // An item that calls a rule is live, and hands over its own lookahead only if it has one.
  lemma CallerLive(g: Grammar, fm: FirstMap, a: Automaton, m: Mode, o: Origin, r: nat)
    requires WellFormed(g) && Closed(g, fm) && AutomatonOk(g, a) && Legal(g, fm, o) && Calls(g, ItemOf(o), r) && StateAfter(a, PathOf(g, o)).Some?
    requires ItemOf(o).rule == 0 || AheadOf(o) in Ahead(g, m, StateAfter(a, PathOf(g, o)).value, ItemOf(o))
    ensures var s := StateAfter(a, PathOf(g, o)).value;
      Live(g, m, s, ItemOf(o)) && (ItemOf(o) == Item(0, 0) ==> s == 0) && s < |a.states| && ItemOf(o) in a.states[s]
    ensures ItemOf(o).rule == 0 ==> !NullableSeq(fm, Rest(g, ItemOf(o)))
  {
    hide AutomatonOk;
    OriginInState(g, fm, a, o);
    if ItemOf(o).rule == 0 {
      StartOrigin(g, fm, o);
      NotPastStart(g, ItemOf(o), r);
      assert Rest(g, Item(0, 0)) == [Term(End)];
      assert !NullableSym(fm, Rest(g, Item(0, 0))[0]);
    }
  }

  lemma NotPastStart(g: Grammar, it: Item, r: nat)
    requires WellFormed(g) && it.rule == 0 && Calls(g, it, r)
    ensures it.dot == 0
  {
  }

  /** What a valid item waits for is expected, and what can come after it as well. */
  lemma ExpectsNext(g: Grammar, fm: FirstMap, a: Automaton, m: Mode, o: Origin, st: Stack, s: Symbol, x: Terminal)
    requires Grounded(g, fm, a, m) && Stands(g, fm, a, st, o) && Next(g, ItemOf(o)) == Some(s) && s != Term(End)
    requires x in FirstOf(fm, Rest(g, ItemOf(o)) + [Term(AheadOf(o))])
    ensures Shaped(st) && Expects(g, fm, a, m, Top(st), ItemOf(o), s, x)
  {
    hide WellFormed, AutomatonOk, Closed, Spreads, FirstOf, NullableSeq, StackOk, Legal, StateAfter, PathOf, AheadOf, ItemOf, ItemOk;
    var it := ItemOf(o);
    StandsState(g, fm, a, st, o);
    AheadThere(g, fm, a, m, o);
    EndingHandout(g, fm, Rest(g, it), AheadOf(o), x);
    if it.rule == 0 { StartExpected(g, fm, a, o, s); }
  }

  lemma StartExpected(g: Grammar, fm: FirstMap, a: Automaton, o: Origin, s: Symbol)
    requires WellFormed(g) && Closed(g, fm) && Legal(g, fm, o) && ItemOf(o).rule == 0 && Next(g, ItemOf(o)) == Some(s) && s != Term(End)
    ensures o == Initial && ItemOf(o) == Item(0, 0) && StateAfter(a, PathOf(g, o)) == Some(0) && !NullableSeq(fm, Rest(g, ItemOf(o)))
  {
    StartOrigin(g, fm, o);
    assert Rest(g, Item(0, 0)) == [Term(End)];
    assert !NullableSym(fm, Rest(g, Item(0, 0))[0]);
  }

  // ----- rebuilding a stack -----

  // What can come when a rule begins can come at its caller.
  lemma ComingAtCaller(g: Grammar, fm: FirstMap, caller: Origin, r: nat, t: Terminal, x: Terminal)
    requires Closed(g, fm) && r < |g| && Calls(g, ItemOf(caller), r) && t in FirstOf(fm, Rest(g, ItemOf(caller)) + [Term(AheadOf(caller))])
    requires x in Coming(g, fm, Called(caller, r, t))
    ensures x in Coming(g, fm, caller)
  {
    hide Closed, FirstOf, NullableSeq;
    var rest, lhs := Rest(g, ItemOf(caller)) + [Term(AheadOf(caller))], NonTerm(g[r].lhs);
    RemainingNext(g, ItemOf(caller));
    assert Remaining(g, Item(r, 0)) == g[r].rhs;
    assert Remaining(g, ItemOf(caller)) + [Term(AheadOf(caller))] == [lhs] + rest;
    EndingHandout(g, fm, g[r].rhs, t, x);
    RuleFirst(g, fm, r);
    FirstOfAppend(fm, [lhs], rest);
    FirstOfOne(fm, lhs);
  }

  lemma RuleFirst(g: Grammar, fm: FirstMap, r: nat)
    requires Closed(g, fm) && r < |g|
    ensures FirstOf(fm, g[r].rhs) <= TermsOf(fm, NonTerm(g[r].lhs))
    ensures NullableSeq(fm, g[r].rhs) ==> NullableSym(fm, NonTerm(g[r].lhs))
  {
    assert RuleClosed(g, fm, r);
  }

  lemma FirstOfOne(fm: FirstMap, s: Symbol)
    ensures FirstOf(fm, [s]) == TermsOf(fm, s) && (NullableSeq(fm, [s]) <==> NullableSym(fm, s))
  {
    assert [s][1..] == [];
    JustOne(fm, s);
  }

  // What a value begins with, or else what comes after it, can come before it.
  lemma ComingBefore(g: Grammar, fm: FirstMap, from: Origin, v: Tree, x: Terminal)
    requires Closed(g, fm) && Next(g, ItemOf(from)).Some? && Derives(g, v, Next(g, ItemOf(from)).value) && Next(g, ItemOf(from)).value in fm
    requires x in Coming(g, fm, Moved(from))
    ensures (if Yield(v) == [] then x else Yield(v)[0].kind) in Coming(g, fm, from)
  {
    hide Closed, FirstOf, NullableSeq, Derives, Yield;
    var s := Next(g, ItemOf(from)).value;
    var rest := Rest(g, ItemOf(from)) + [Term(AheadOf(from))];
    RemainingNext(g, ItemOf(from));
    assert Remaining(g, ItemOf(from)) + [Term(AheadOf(from))] == [s] + rest;
    YieldBegins(g, fm, v, s);
    FirstOfAppend(fm, [s], rest);
    FirstOfOne(fm, s);
  }

  lemma LastLinked(g: Grammar, a: Automaton, st: Stack, syms: seq<Symbol>)
    requires StackOk(g, a, st, syms) && syms != []
    ensures var n := |syms| - 1;
      && |st.values| == n + 1 && |st.states| == n + 2 && Linked(a, st.states[n], syms[n], st.states[n + 1])
      && Derives(g, st.values[n], syms[n]) && ReadsLeft(st.values[n], st.values[..n])
      && st == Push(Stack(st.states[..n + 1], st.values[..n]), st.states[n + 1], st.values[n])
  {
  }

  // The symbol an item waits for occurs in the grammar.
  lemma NextKnown(g: Grammar, fm: FirstMap, it: Item)
    requires Closed(g, fm) && Next(g, it).Some?
    ensures Next(g, it).value in fm
  {
  }

  lemma YieldsLast(ts: seq<Tree>)
    requires ts != []
    ensures Yields(ts) == Yields(ts[..|ts| - 1]) + Yield(ts[|ts| - 1])
  {
  }

  lemma NoEndValue(g: Grammar, v: Tree, s: Symbol, ys: seq<Token>)
    requires Derives(g, v, s) && Plain(v) && Kinds(ys + Yield(v))
    ensures s != Term(End) && Kinds(ys)
  {
    if v.Leaf? { assert (ys + Yield(v))[|ys|] == v.tok; }
    forall i | 0 <= i < |ys| ensures ys[i].kind != End { assert (ys + Yield(v))[i] == ys[i]; }
  }

  /** A stack on which an item is valid is rebuilt from the start, over what its values yield and then anything
      that can come next. */
  lemma {:induction false} Rebuilt(g: Grammar, fm: FirstMap, a: Automaton, m: Mode, pt: ParseTables, o: Origin, st: Stack, input: seq<Token>, x: Terminal)
      returns (acts: seq<Action>)
    requires Setting(g, fm, a, m, pt) && Stands(g, fm, a, st, o) && x in Coming(g, fm, o) && Reads(input, 0, Yields(st.values), x)
    ensures Runs(g, pt, input, INITIAL, acts, Config(st, |Yields(st.values)|))
    decreases o
  {
    hide WellFormed, AutomatonOk, Spreads, Closed, Offers, GotosOk, StackOk, Coming, FirstOf, Runs, Reads, Derives, Plain, ReadsLeft, Yield, Yields, Kinds;
    match o
    case Initial =>
      acts := RebuiltStart(g, pt, a, st, input);
    case Called(caller, r, t) =>
      ComingAtCaller(g, fm, caller, r, t, x);
      acts := Rebuilt(g, fm, a, m, pt, caller, st, input, x);
    case Moved(from) =>
      var n := |PathOf(g, from)|;
      var under, v, next := RebuiltUnder(g, fm, a, st, from, input, x);
      var run := Rebuilt(g, fm, a, m, pt, from, under, input, next);
      ExpectsNext(g, fm, a, m, from, under, Next(g, ItemOf(from)).value, x) by { RemainingNext(g, ItemOf(from)); RestComing(g, fm, from, x); }
      var step, q := Simulate(g, fm, a, m, pt, input, Config(under, |Yields(under.values)|), ItemOf(from), Next(g, ItemOf(from)).value, v, x);
      LinkedOnce(a, Top(under), Next(g, ItemOf(from)).value, q, Top(st));
      RunsTransitive(g, pt, input, INITIAL, run, Config(under, |Yields(under.values)|), step, Built(Config(under, |Yields(under.values)|), q, v));
      acts := run + step;
  }

  lemma RestComing(g: Grammar, fm: FirstMap, from: Origin, x: Terminal)
    requires Next(g, ItemOf(from)).Some? && x in Coming(g, fm, Moved(from))
    ensures x in FirstOf(fm, Rest(g, ItemOf(from)) + [Term(AheadOf(from))])
  {
    RemainingNext(g, ItemOf(from));
  }

  lemma LinkedOnce(a: Automaton, s: nat, x: Symbol, q: nat, q': nat)
    requires Linked(a, s, x, q) && Linked(a, s, x, q')
    ensures q == q'
  {
  }

  lemma RebuiltStart(g: Grammar, pt: ParseTables, a: Automaton, st: Stack, input: seq<Token>) returns (acts: seq<Action>)
    requires StackOk(g, a, st, [])
    ensures Runs(g, pt, input, INITIAL, acts, Config(st, |Yields(st.values)|))
  {
    assert st == EMPTY;
    acts := [];
  }

  // The stack below the last value.
  lemma RebuiltUnder(g: Grammar, fm: FirstMap, a: Automaton, st: Stack, from: Origin, input: seq<Token>, x: Terminal)
      returns (under: Stack, v: Tree, next: Terminal)
    requires Closed(g, fm) && Stands(g, fm, a, st, Moved(from)) && x in Coming(g, fm, Moved(from)) && Reads(input, 0, Yields(st.values), x)
    ensures Stands(g, fm, a, under, from) && Shaped(under) && Shaped(st) && Next(g, ItemOf(from)).value != Term(End)
    ensures Linked(a, Top(under), Next(g, ItemOf(from)).value, Top(st)) && st == Push(under, Top(st), v)
    ensures Derives(g, v, Next(g, ItemOf(from)).value) && Plain(v) && ReadsLeft(v, under.values)
    ensures Yields(st.values) == Yields(under.values) + Yield(v)
    ensures next in Coming(g, fm, from) && Reads(input, 0, Yields(under.values), next) && Reads(input, |Yields(under.values)|, Yield(v), x)
  {
    hide Closed, StackOk, Coming, FirstOf, Reads, Derives, Plain, ReadsLeft, Yield, Yields, Kinds;
    var syms := PathOf(g, Moved(from));
    var n := |PathOf(g, from)|;
    StackSizes(g, a, st, syms);
    LastLinked(g, a, st, syms);
    UnderOk(g, a, st, syms, n);
    assert syms[..n] == PathOf(g, from);
    under, v := Stack(st.states[..n + 1], st.values[..n]), st.values[n];
    YieldsLast(st.values);
    NoEndValue(g, v, syms[n], Yields(under.values));
    NextKnown(g, fm, ItemOf(from));
    ComingBefore(g, fm, from, v, x);
    next := if Yield(v) == [] then x else Yield(v)[0].kind;
    ReadsSplit(input, 0, Yields(under.values), Yield(v), x);
  }

  // ----- and from there the next terminal is shifted -----

  // The next token is shifted, or accepted, here.
  ghost predicate Leaves(pt: ParseTables, st: Stack, x: Terminal)
    requires Shaped(st)
  {
    (exists q :: ShiftTo(q) in Choices(pt, Top(st), x)) || AcceptAll in Choices(pt, Top(st), x)
  }

  // The rule an item belongs to was called from here.
  function Caller(o: Origin): Origin {
    match o
    case Initial => Initial
    case Called(caller, _, _) => caller
    case Moved(from) => Caller(from)
  }

  function CallDepth(o: Origin): nat {
    match o
    case Initial => 0
    case Called(caller, _, _) => 1 + CallDepth(caller)
    case Moved(from) => CallDepth(from)
  }

  lemma {:induction false} CallerOf(g: Grammar, fm: FirstMap, o: Origin)
    requires WellFormed(g) && Legal(g, fm, o) && ItemOf(o).rule != 0
    ensures var c, it := Caller(o), ItemOf(o);
      && CallDepth(c) < CallDepth(o) && Legal(g, fm, c) && Calls(g, ItemOf(c), it.rule) && it.dot <= |g[it.rule].rhs|
      && AheadOf(o) in FirstOf(fm, Rest(g, ItemOf(c)) + [Term(AheadOf(c))]) && PathOf(g, o) == PathOf(g, c) + g[it.rule].rhs[..it.dot]
  {
    hide FirstOf, WellFormed;
    match o
    case Initial =>
    case Called(caller, r, _) => assert g[r].rhs[..0] == [];
    case Moved(from) => CallerOf(g, fm, from);
  }

  // A stack after one more value.
  lemma StandsMoved(g: Grammar, fm: FirstMap, a: Automaton, st: Stack, o: Origin, q: nat, t: Tree)
    requires AutomatonOk(g, a) && Stands(g, fm, a, st, o) && Next(g, ItemOf(o)).Some? && Shaped(st) && Linked(a, Top(st), Next(g, ItemOf(o)).value, q)
    requires Derives(g, t, Next(g, ItemOf(o)).value) && Plain(t) && ReadsLeft(t, st.values) && Yield(t) == []
    ensures Stands(g, fm, a, Push(st, q, t), Moved(o))
  {
    hide AutomatonOk, Derives, Plain, ReadsLeft, StackOk, Linked;
    PushOk(g, a, st, PathOf(g, o), Next(g, ItemOf(o)).value, q, t);
    YieldsAppend(st.values, [t]);
    YieldsOne(t);
    assert Yields(st.values + [t]) == Yields(st.values);
  }

  // What an item looks below fits on its stack.
  lemma PeeksFit(g: Grammar, fm: FirstMap, a: Automaton, st: Stack, o: Origin)
    requires WellFormed(g) && AutomatonOk(g, a) && Stands(g, fm, a, st, o) && Next(g, ItemOf(o)).Some?
    ensures Peeks(g, Next(g, ItemOf(o)).value, |st.values|)
  {
    hide WellFormed, AutomatonOk, StackOk, Legal;
    var it := ItemOf(o);
    StackSizes(g, a, st, PathOf(g, o));
    StandsState(g, fm, a, st, o);
    var k := ItemOnStack(g, a, st, PathOf(g, o), it);
    PeekFits(g, it.rule, it.dot);
  }

  /** A symbol that vanishes is reduced to in place, when what can come next does come. */
  lemma Vanish(g: Grammar, fm: FirstMap, a: Automaton, m: Mode, pt: ParseTables, o: Origin, st: Stack, input: seq<Token>, pos: nat, x: Terminal)
      returns (acts: seq<Action>, st': Stack)
    requires Setting(g, fm, a, m, pt) && Sound(g, fm) && Stands(g, fm, a, st, o) && Next(g, ItemOf(o)).Some? && NullableSym(fm, Next(g, ItemOf(o)).value)
    requires pos <= |input| && TokenAt(input, pos).kind == x && x in FirstOf(fm, Rest(g, ItemOf(o)) + [Term(AheadOf(o))])
    ensures Runs(g, pt, input, Config(st, pos), acts, Config(st', pos)) && Stands(g, fm, a, st', Moved(o)) && x in Coming(g, fm, Moved(o))
  {
    hide WellFormed, AutomatonOk, Spreads, Closed, Offers, GotosOk, FirstOf, StackOk, Legal, Runs, Derives, Plain, ReadsLeft, Sound, Stands;
    var s := Next(g, ItemOf(o)).value;
    StandsState(g, fm, a, st, o);
    NotEnd(g, fm, s);
    var h := SymbolVanishes(g, fm, s);
    PeeksFit(g, fm, a, st, o);
    StandsPlain(g, fm, a, st, o);
    var t := EmptyTree(g, s, h, st.values);
    ExpectsNext(g, fm, a, m, o, st, s, x);
    ReadsNothing(input, pos, x);
    var run, q := Simulate(g, fm, a, m, pt, input, Config(st, pos), ItemOf(o), s, t, x);
    StandsMoved(g, fm, a, st, o, q, t);
    RemainingNext(g, ItemOf(o));
    acts, st' := run, Push(st, q, t);
  }

  lemma StandsPlain(g: Grammar, fm: FirstMap, a: Automaton, st: Stack, o: Origin)
    requires Stands(g, fm, a, st, o)
    ensures AllPlain(st.values)
  {
  }

  lemma NotEnd(g: Grammar, fm: FirstMap, s: Symbol)
    requires Closed(g, fm) && NullableSym(fm, s)
    ensures s != Term(End)
  {
  }

  lemma ReadsNothing(input: seq<Token>, pos: nat, x: Terminal)
    requires pos <= |input| && TokenAt(input, pos).kind == x
    ensures Reads(input, pos, [], x)
  {
  }

  // Something can always be called for.
  lemma SomeAhead(g: Grammar, fm: FirstMap, o: Origin) returns (t: Terminal)
    requires WellFormed(g) && Closed(g, fm) && Shape(g, fm) && LA.Fertile(g, fm) && Legal(g, fm, o)
    ensures t in FirstOf(fm, Rest(g, ItemOf(o)) + [Term(AheadOf(o))])
  {
    hide WellFormed, Closed, LA.Fertile, FirstOf, NullableSeq;
    var rest := Rest(g, ItemOf(o));
    LA.RestKnown(g, ItemOf(o));
    LA.FertileSequence(g, fm, rest);
    FirstOfAppend(fm, rest, [Term(AheadOf(o))]);
    if NullableSeq(fm, rest) {
      AheadKnown(g, fm, o);
      LA.JustTerminal(g, fm, AheadOf(o));
      t := AheadOf(o);
    } else {
      t :| t in FirstOf(fm, rest);
    }
  }

  lemma {:induction false} AheadKnown(g: Grammar, fm: FirstMap, o: Origin)
    requires WellFormed(g) && Closed(g, fm) && Shape(g, fm) && Legal(g, fm, o)
    ensures AheadOf(o) in TerminalsOf(g) + {End}
  {
    hide WellFormed, Closed, FirstOf, Shape;
    match o
    case Initial =>
    case Called(caller, _, t) =>
      AheadKnown(g, fm, caller);
      EndingHandout(g, fm, Rest(g, ItemOf(caller)), AheadOf(caller), t);
      FirstOfBounded(g, fm, Rest(g, ItemOf(caller)));
    case Moved(from) => AheadKnown(g, fm, from);
  }

  /** Towards a terminal that an item can still begin with: what stands before it vanishes, rules are entered,
      and the terminal is shifted. */
  lemma {:induction false} Approach(g: Grammar, fm: FirstMap, a: Automaton, m: Mode, pt: ParseTables, o: Origin, st: Stack, input: seq<Token>, pos: nat,
                                    x: Terminal, i: nat, h: nat) returns (acts: seq<Action>, st': Stack)
    requires Setting(g, fm, a, m, pt) && Sound(g, fm) && Shape(g, fm) && LA.Fertile(g, fm) && Stands(g, fm, a, st, o)
    requires pos <= |input| && TokenAt(input, pos).kind == x
    requires i < |Remaining(g, ItemOf(o))| && StartsAt(g, fm, Remaining(g, ItemOf(o)), i, x, h)
    ensures Runs(g, pt, input, Config(st, pos), acts, Config(st', pos)) && Shaped(st') && Leaves(pt, st', x)
    decreases h, i
  {
    hide WellFormed, AutomatonOk, Spreads, Closed, Offers, GotosOk, FirstOf, StackOk, Legal, Runs, Sound, Stands, Shape, LA.Fertile, NullableSeq, Leaves;
    var it := ItemOf(o);
    var s := Remaining(g, it)[0];
    NextRemaining(g, it);
    if i > 0 {
      HeadVanishes(g, fm, it, i, x, h);
      ComingLater(g, fm, o, i, x, h);
      var run, next := Vanish(g, fm, a, m, pt, o, st, input, pos, x);
      var more, last := Approach(g, fm, a, m, pt, Moved(o), next, input, pos, x, i - 1, h);
      RunsTransitive(g, pt, input, Config(st, pos), run, Config(next, pos), more, Config(last, pos));
      acts, st' := run + more, last;
    } else if s == Term(x) {
      acts, st' := [], st;
      RunsNone(g, pt, input, Config(st, pos));
      ShiftHere(g, fm, a, m, pt, o, st, x);
    } else {
      var r, j := Enter(g, fm, it, x, h);
      var t := Ahead1(g, fm, a, st, o);
      CalledStands(g, fm, a, st, o, r, t);
      acts, st' := Approach(g, fm, a, m, pt, Called(o, r, t), st, input, pos, x, j, h - 1);
    }
  }

  lemma NextRemaining(g: Grammar, it: Item)
    requires Remaining(g, it) != []
    ensures Next(g, it) == Some(Remaining(g, it)[0]) && Remaining(g, Advance(it)) == Remaining(g, it)[1..] && Rest(g, it) == Remaining(g, it)[1..]
  {
  }

  lemma HeadVanishes(g: Grammar, fm: FirstMap, it: Item, i: nat, x: Terminal, h: nat)
    requires 0 < i < |Remaining(g, it)| && StartsAt(g, fm, Remaining(g, it), i, x, h)
    ensures NullableSym(fm, Remaining(g, it)[0]) && StartsAt(g, fm, Remaining(g, Advance(it)), i - 1, x, h)
  {
    var a := Remaining(g, it);
    NextRemaining(g, it);
    assert a[..i] == [a[0]] + a[1..][..i - 1];
    NullableSeqAppend(fm, [a[0]], a[1..][..i - 1]);
    JustOne(fm, a[0]);
  }

  lemma ComingLater(g: Grammar, fm: FirstMap, o: Origin, i: nat, x: Terminal, h: nat)
    requires Closed(g, fm) && 0 < i < |Remaining(g, ItemOf(o))| && StartsAt(g, fm, Remaining(g, ItemOf(o)), i, x, h)
    ensures x in FirstOf(fm, Rest(g, ItemOf(o)) + [Term(AheadOf(o))])
  {
    hide Closed, FirstOf, NullableSeq, StartsIn;
    var it := ItemOf(o);
    HeadVanishes(g, fm, it, i, x, h);
    NextRemaining(g, it);
    var rest := Rest(g, it);
    RemainingKnown(g, fm, it, i);
    StartsInFirst(g, fm, rest[i - 1], x, h);
    FirstBehind(fm, rest, i - 1, x);
    FirstOfAppend(fm, rest, [Term(AheadOf(o))]);
  }

  lemma RemainingKnown(g: Grammar, fm: FirstMap, it: Item, i: nat)
    requires Closed(g, fm) && i < |Remaining(g, it)|
    ensures Remaining(g, it)[i] in fm
  {
    assert Remaining(g, it)[i] == g[it.rule].rhs[it.dot + i];
  }

  lemma ShiftHere(g: Grammar, fm: FirstMap, a: Automaton, m: Mode, pt: ParseTables, o: Origin, st: Stack, x: Terminal)
    requires Setting(g, fm, a, m, pt) && Stands(g, fm, a, st, o) && Next(g, ItemOf(o)) == Some(Term(x))
    ensures Shaped(st) && Leaves(pt, st, x)
  {
    hide WellFormed, AutomatonOk, Spreads, Closed, GotosOk, StackOk, Legal, Choices;
    StandsState(g, fm, a, st, o);
    MoveInState(g, a, Top(st), ItemOf(o), Term(x));
    var shift := ShiftAction(a, Top(st), x)[0];
    assert shift in ShiftAction(a, Top(st), x);
    assert shift in Incoming(g, a, m, Top(st), x);
  }

  lemma Enter(g: Grammar, fm: FirstMap, it: Item, x: Terminal, h: nat) returns (r: nat, j: nat)
    requires Remaining(g, it) != [] && StartsAt(g, fm, Remaining(g, it), 0, x, h) && Remaining(g, it)[0] != Term(x)
    ensures h > 0 && Calls(g, it, r) && j < |Remaining(g, Item(r, 0))| && StartsAt(g, fm, Remaining(g, Item(r, 0)), j, x, h - 1)
  {
    hide NullableSeq;
    NextRemaining(g, it);
    r, j :| Fronts(g, fm, r, j) && Remaining(g, it)[0] == NonTerm(g[r].lhs) && StartsIn(g, fm, g[r].rhs[j], x, h - 1);
    assert Remaining(g, Item(r, 0)) == g[r].rhs;
  }

  lemma Ahead1(g: Grammar, fm: FirstMap, a: Automaton, st: Stack, o: Origin) returns (t: Terminal)
    requires WellFormed(g) && Closed(g, fm) && Shape(g, fm) && LA.Fertile(g, fm) && Stands(g, fm, a, st, o)
    ensures t in FirstOf(fm, Rest(g, ItemOf(o)) + [Term(AheadOf(o))])
  {
    hide WellFormed, Closed, Shape, LA.Fertile, FirstOf, StackOk;
    t := SomeAhead(g, fm, o);
  }

  lemma CalledStands(g: Grammar, fm: FirstMap, a: Automaton, st: Stack, o: Origin, r: nat, t: Terminal)
    requires Stands(g, fm, a, st, o) && Calls(g, ItemOf(o), r) && t in FirstOf(fm, Rest(g, ItemOf(o)) + [Term(AheadOf(o))])
    ensures Stands(g, fm, a, st, Called(o, r, t))
  {
    hide StackOk, FirstOf;
  }

  // ----- completing an item -----

  /** What is left of an item vanishes, when its lookahead comes. */
  lemma {:induction false} Completed(g: Grammar, fm: FirstMap, a: Automaton, m: Mode, pt: ParseTables, o: Origin, st: Stack, input: seq<Token>, pos: nat)
      returns (acts: seq<Action>, st': Stack, o': Origin)
    requires Setting(g, fm, a, m, pt) && Sound(g, fm) && Shape(g, fm) && Stands(g, fm, a, st, o)
    requires pos <= |input| && TokenAt(input, pos).kind == AheadOf(o) && NullableSeq(fm, Remaining(g, ItemOf(o)))
    ensures Runs(g, pt, input, Config(st, pos), acts, Config(st', pos)) && Stands(g, fm, a, st', o')
    ensures AheadOf(o') == AheadOf(o) && Caller(o') == Caller(o) && CallDepth(o') == CallDepth(o) && ItemOf(o').rule == ItemOf(o).rule
    ensures Remaining(g, ItemOf(o')) == []
    decreases |Remaining(g, ItemOf(o))|
  {
    hide WellFormed, AutomatonOk, Spreads, Closed, Offers, GotosOk, FirstOf, StackOk, Legal, Runs, Sound, Stands, Shape, NullableSeq;
    var it := ItemOf(o);
    if Remaining(g, it) == [] {
      acts, st', o' := [], st, o;
      RunsNone(g, pt, input, Config(st, pos));
    } else {
      NextRemaining(g, it);
      RestVanishes(g, fm, it);
      AheadComes(g, fm, a, st, o);
      var run, next := Vanish(g, fm, a, m, pt, o, st, input, pos, AheadOf(o));
      var more, last, done := Completed(g, fm, a, m, pt, Moved(o), next, input, pos);
      RunsTransitive(g, pt, input, Config(st, pos), run, Config(next, pos), more, Config(last, pos));
      acts, st', o' := run + more, last, done;
    }
  }

  lemma RestVanishes(g: Grammar, fm: FirstMap, it: Item)
    requires Remaining(g, it) != [] && NullableSeq(fm, Remaining(g, it))
    ensures NullableSym(fm, Remaining(g, it)[0]) && NullableSeq(fm, Rest(g, it)) && NullableSeq(fm, Remaining(g, Advance(it)))
  {
    NextRemaining(g, it);
  }

  lemma AheadComes(g: Grammar, fm: FirstMap, a: Automaton, st: Stack, o: Origin)
    requires WellFormed(g) && Closed(g, fm) && Shape(g, fm) && Stands(g, fm, a, st, o) && NullableSeq(fm, Rest(g, ItemOf(o)))
    ensures AheadOf(o) in FirstOf(fm, Rest(g, ItemOf(o)) + [Term(AheadOf(o))])
  {
    hide WellFormed, Closed, Shape, FirstOf, NullableSeq, StackOk, Legal;
    AheadKnown(g, fm, o);
    LA.JustTerminal(g, fm, AheadOf(o));
    FirstOfAppend(fm, Rest(g, ItemOf(o)), [Term(AheadOf(o))]);
  }

  /** A complete item is reduced when its lookahead comes, and the machine is back where its rule was called. */
  lemma Returned(g: Grammar, fm: FirstMap, a: Automaton, m: Mode, pt: ParseTables, o: Origin, st: Stack, input: seq<Token>, pos: nat)
      returns (st': Stack)
    requires Setting(g, fm, a, m, pt) && Stands(g, fm, a, st, o) && ItemOf(o).rule != 0 && Remaining(g, ItemOf(o)) == []
    requires pos <= |input| && TokenAt(input, pos).kind == AheadOf(o)
    ensures Runs(g, pt, input, Config(st, pos), [ReduceBy(ItemOf(o).rule)], Config(st', pos))
    ensures Stands(g, fm, a, st', Moved(Caller(o))) && AheadOf(o) in Coming(g, fm, Moved(Caller(o)))
  {
    hide WellFormed, AutomatonOk, Spreads, Closed, Offers, GotosOk, FirstOf, StackOk, Legal, Runs, Reduced, Choices, Derives, Plain, ReadsLeft, Linked;
    var r, c := ItemOf(o).rule, Caller(o);
    StandsState(g, fm, a, st, o);
    CallerOf(g, fm, o);
    CompleteItem(g, ItemOf(o));
    AheadThere(g, fm, a, m, o);
    ReduceThere(g, a, m, pt, Top(st), r, AheadOf(o));
    var next, node := BackBelow(g, a, pt, st, PathOf(g, c), r) by { assert PathOf(g, o) == PathOf(g, c) + g[r].rhs; }
    st' := next;
    RunsOne(g, pt, input, Config(st, pos), ReduceBy(r), Config(st', pos));
    RemainingNext(g, ItemOf(c));
    assert PathOf(g, Moved(c)) == PathOf(g, c) + [NonTerm(g[r].lhs)];
    LegalMoved(g, fm, c);
  }

  lemma LegalMoved(g: Grammar, fm: FirstMap, o: Origin)
    requires Legal(g, fm, o) && Next(g, ItemOf(o)).Some?
    ensures Legal(g, fm, Moved(o))
  {
  }

  // The stack after a right-hand side on its top was reduced.
  lemma BackBelow(g: Grammar, a: Automaton, pt: ParseTables, st: Stack, under: seq<Symbol>, r: nat) returns (st': Stack, node: Tree)
    requires WellFormed(g) && AutomatonOk(g, a) && GotosOk(a, pt) && 0 < r < |g| && StackOk(g, a, st, under + g[r].rhs) && Shaped(st)
    requires AllPlain(st.values) && Top(st) < |a.states| && Item(r, |g[r].rhs|) in a.states[Top(st)]
    ensures Reduced(g, pt, st, r) == Some(st') && StackOk(g, a, st', under + [NonTerm(g[r].lhs)])
    ensures Yields(st'.values) == Yields(st.values) && AllPlain(st'.values)
  {
    hide WellFormed, AutomatonOk, GotosOk, StackOk, Reduced, Derives, Plain, ReadsLeft, Linked;
    var syms := under + g[r].rhs;
    StackSizes(g, a, st, syms);
    var base := ReduceFits(g, a, st, syms, r);
    var s, x := st.states[base], NonTerm(g[r].lhs);
    node := Node(r, st.values[base - g[r].peek..base], st.values[base..]);
    assert base == |st.values| - |g[r].rhs| == |under| && syms[..base] == under;
    AutomatonSizes(g, a);
    ReducedShape(g, a, pt, st, r);
    LinkedBy(a, s, x);
    PushReduced(g, a, st, syms, base, x, a.trans[s][x], node);
    st' := Push(Stack(st.states[..base + 1], st.values[..base]), a.trans[s][x], node);
    ReduceYield(st.values, base, r, node.peeked);
    SizeReduced(st.values, base, r, node.peeked);
    PlainReduced(st.values, base, r, node.peeked);
  }

  lemma LinkedBy(a: Automaton, s: nat, x: Symbol)
    requires s < |a.trans| && x in a.trans[s]
    ensures Linked(a, s, x, a.trans[s][x])
  {
  }

  lemma CompleteItem(g: Grammar, it: Item)
    requires ItemOk(g, it) && Remaining(g, it) == []
    ensures it == Item(it.rule, |g[it.rule].rhs|) && g[it.rule].rhs[..it.dot] == g[it.rule].rhs
  {
  }

  lemma ReduceThere(g: Grammar, a: Automaton, m: Mode, pt: ParseTables, s: nat, r: nat, t: Terminal)
    requires WellFormed(g) && Offers(g, a, m, pt) && s < |a.states| && 0 < r < |g| && Item(r, |g[r].rhs|) in a.states[s]
    requires t in Ahead(g, m, s, Item(r, |g[r].rhs|))
    ensures ReduceBy(r) in Choices(pt, s, t)
  {
    ReducesExact(g, m, s, a.states[s], t, ReduceBy(r));
    assert ReducesOn(g, m, s, Item(r, |g[r].rhs|), t);
    assert ReduceBy(r) in Incoming(g, a, m, s, t);
  }

  /** From a stack on which an item is valid, whatever can come next is shifted after finitely many steps. */
  lemma {:induction false} Escape(g: Grammar, fm: FirstMap, a: Automaton, m: Mode, pt: ParseTables, o: Origin, st: Stack, input: seq<Token>, pos: nat,
                                  x: Terminal) returns (acts: seq<Action>, st': Stack)
    requires Setting(g, fm, a, m, pt) && Sound(g, fm) && Shape(g, fm) && LA.Fertile(g, fm) && Stands(g, fm, a, st, o)
    requires pos <= |input| && TokenAt(input, pos).kind == x && x in Coming(g, fm, o)
    ensures Runs(g, pt, input, Config(st, pos), acts, Config(st', pos)) && Shaped(st') && Leaves(pt, st', x)
    decreases CallDepth(o)
  {
    hide WellFormed, AutomatonOk, Spreads, Closed, Offers, GotosOk, FirstOf, StackOk, Legal, Runs, Sound, Stands, Shape, LA.Fertile, NullableSeq, Leaves, StartsIn;
    var rem := Remaining(g, ItemOf(o));
    EndingHandout(g, fm, rem, AheadOf(o), x);
    if x in FirstOf(fm, rem) {
      var i := FirstWhere(fm, rem, x);
      var h := SymbolStarts(g, fm, rem[i], x);
      acts, st' := Approach(g, fm, a, m, pt, o, st, input, pos, x, i, h);
    } else {
      NotStart(g, fm, a, st, o);
      var run, next, done := Completed(g, fm, a, m, pt, o, st, input, pos);
      var back := Returned(g, fm, a, m, pt, done, next, input, pos);
      var up := Moved(Caller(done));
      CallerShallower(g, fm, a, st, o);
      var more, last := Escape(g, fm, a, m, pt, up, back, input, pos, x);
      RunsTransitive(g, pt, input, Config(st, pos), run, Config(next, pos), [ReduceBy(ItemOf(done).rule)], Config(back, pos));
      RunsTransitive(g, pt, input, Config(st, pos), run + [ReduceBy(ItemOf(done).rule)], Config(back, pos), more, Config(last, pos));
      acts, st' := run + [ReduceBy(ItemOf(done).rule)] + more, last;
    }
  }

  lemma CallerShallower(g: Grammar, fm: FirstMap, a: Automaton, st: Stack, o: Origin)
    requires WellFormed(g) && Stands(g, fm, a, st, o) && ItemOf(o).rule != 0
    ensures CallDepth(Moved(Caller(o))) < CallDepth(o)
  {
    hide WellFormed, StackOk, Legal;
    CallerOf(g, fm, o);
  }

  // The augmented rule never vanishes from where it stands.
  lemma NotStart(g: Grammar, fm: FirstMap, a: Automaton, st: Stack, o: Origin)
    requires WellFormed(g) && Closed(g, fm) && Stands(g, fm, a, st, o) && NullableSeq(fm, Remaining(g, ItemOf(o)))
    ensures ItemOf(o).rule != 0
  {
    hide WellFormed, Closed, FirstOf, Legal;
    if ItemOf(o).rule == 0 {
      StartOrigin(g, fm, o);
      StackSizes(g, a, st, PathOf(g, o));
      if ItemOf(o).dot < 2 {
        StartLeft(g, fm, ItemOf(o));
      } else {
        var i :| 0 <= i < |PathOf(g, o)| && PathOf(g, o)[i] == Term(End);
        EndThere(g, a, st, PathOf(g, o), i);
      }
    }
  }

  lemma StartLeft(g: Grammar, fm: FirstMap, it: Item)
    requires WellFormed(g) && Closed(g, fm) && it.rule == 0 && it.dot < 2
    ensures !NullableSeq(fm, Remaining(g, it))
  {
    var a := Remaining(g, it);
    assert a[1 - it.dot] == Term(End);
    assert !NullableSym(fm, a[1 - it.dot]);
  }

  lemma EndThere(g: Grammar, a: Automaton, st: Stack, syms: seq<Symbol>, i: nat)
    requires StackOk(g, a, st, syms) && AllPlain(st.values) && i < |syms| && syms[i] == Term(End)
    ensures !Kinds(Yields(st.values))
  {
    var v := st.values[i];
    assert Derives(g, v, Term(End)) && Plain(v);
    YieldsSplit(st.values, i);
    assert st.values[i..] == [v] + st.values[i + 1..];
    YieldsAppend([v], st.values[i + 1..]);
    YieldsOne(v);
    assert Yields(st.values)[|Yields(st.values[..i])|] == v.tok;
  }

  // ----- every stack has a valid item -----

  ghost predicate PlacedHere(g: Grammar, o: Origin, syms: seq<Symbol>, it: Item) {
    LA.Placed(g, o) && PathOf(g, o) == syms && ItemOf(o) == it
  }

  // The items of a state that come about over the symbols of the stack are all of them.
  lemma PlacedAll(g: Grammar, kernel: set<Item>, all: set<Item>, syms: seq<Symbol>, it: Item)
    requires IsClosure(g, kernel, all) && it in all && forall k | k in kernel :: exists o :: PlacedHere(g, o, syms, k)
    ensures exists o :: PlacedHere(g, o, syms, it)
  {
    var placed := set i | i in all && exists o :: PlacedHere(g, o, syms, i);
    forall i, r | i in placed && Calls(g, i, r) ensures Item(r, 0) in placed {
      var o :| PlacedHere(g, o, syms, i);
      assert PlacedHere(g, Called(o, r, End), syms, Item(r, 0));
    }
    assert kernel <= placed;
    assert ClosedUnder(g, placed);
  }

  lemma {:induction false} PlacedFor(g: Grammar, a: Automaton, st: Stack, syms: seq<Symbol>, it: Item) returns (o: Origin)
    requires AutomatonOk(g, a) && StackOk(g, a, st, syms) && Top(st) < |a.states| && it in a.states[Top(st)]
    ensures PlacedHere(g, o, syms, it)
    decreases |syms|
  {
    hide AutomatonOk, StackOk, IsClosure, LA.Placed;
    StackSizes(g, a, st, syms);
    var all := Items(a.states[Top(st)]);
    assert it in all;
    if syms == [] {
      AtBottom(g, a, st);
      assert PlacedHere(g, Initial, syms, Item(0, 0)) by { StartPlaced(g); }
      PlacedAll(g, {Item(0, 0)}, all, syms, it);
    } else {
      var n := |syms| - 1;
      var under := Stack(st.states[..n + 1], st.values[..n]);
      LastLinked(g, a, st, syms);
      UnderOk(g, a, st, syms, n);
      StatesInRange(g, a, st, syms);
      TransitionOk(g, a, st.states[n], syms[n]);
      var kernel := Kernel(g, Items(a.states[st.states[n]]), syms[n]);
      forall k | k in kernel ensures exists o :: PlacedHere(g, o, syms, k) {
        var p :| p in Items(a.states[st.states[n]]) && Next(g, p) == Some(syms[n]) && Advance(p) == k;
        var from := PlacedFor(g, a, under, syms[..n], p);
        PlacedOn(g, from, syms[..n], p);
        assert syms == syms[..n] + [syms[n]];
      }
      PlacedAll(g, kernel, all, syms, it);
    }
    o :| PlacedHere(g, o, syms, it);
  }

  lemma AtBottom(g: Grammar, a: Automaton, st: Stack)
    requires AutomatonOk(g, a) && StackOk(g, a, st, [])
    ensures st == EMPTY && |a.states| > 0 && IsClosure(g, {Item(0, 0)}, Items(a.states[0])) && Item(0, 0) in a.states[0]
  {
    assert Item(0, 0) in Items(a.states[0]);
  }

  lemma StartPlaced(g: Grammar)
    ensures LA.Placed(g, Initial)
  {
  }

  lemma PlacedOn(g: Grammar, o: Origin, syms: seq<Symbol>, it: Item)
    requires PlacedHere(g, o, syms, it) && Next(g, it).Some?
    ensures PlacedHere(g, Moved(o), syms + [Next(g, it).value], Advance(it))
  {
  }

  lemma SomeItem(g: Grammar, a: Automaton, st: Stack, syms: seq<Symbol>) returns (it: Item)
    requires AutomatonOk(g, a) && StackOk(g, a, st, syms)
    ensures Shaped(st) && Top(st) < |a.states| && it in a.states[Top(st)]
  {
    hide AutomatonOk, StackOk;
    StackSizes(g, a, st, syms);
    StatesInRange(g, a, st, syms);
    if syms == [] {
      AtBottom(g, a, st);
      it := Item(0, 0);
    } else {
      var n := |syms| - 1;
      LastLinked(g, a, st, syms);
      var p := Mover(g, a, st.states[n], syms[n]);
      MoveInState(g, a, st.states[n], p, syms[n]);
      it := Advance(p);
    }
  }

  lemma Mover(g: Grammar, a: Automaton, s: nat, x: Symbol) returns (p: Item)
    requires AutomatonOk(g, a) && s < |a.states| && x in a.trans[s]
    ensures p in a.states[s] && Next(g, p) == Some(x)
  {
    assert RowOk(g, a.states, a.trans[s], s);
    p :| p in Items(a.states[s]) && Next(g, p) == Some(x);
  }

  /** Every well-built stack has a valid LR(1) item, and something that can come next. */
  lemma StandsSomehow(g: Grammar, fm: FirstMap, a: Automaton, st: Stack, syms: seq<Symbol>) returns (o: Origin, x: Terminal)
    requires WellFormed(g) && Closed(g, fm) && Shape(g, fm) && LA.Fertile(g, fm) && AutomatonOk(g, a) && StackOk(g, a, st, syms)
    requires AllPlain(st.values) && Kinds(Yields(st.values))
    ensures Stands(g, fm, a, st, o) && x in Coming(g, fm, o) && x in TerminalsOf(g) + {End}
  {
    hide WellFormed, Closed, Shape, LA.Fertile, AutomatonOk, StackOk, FirstOf, LA.Placed, LA.ContextOf;
    var it := SomeItem(g, a, st, syms);
    var placed := PlacedFor(g, a, st, syms, it);
    LA.ContextBegins(g, fm, placed);
    var t :| t in FirstOf(fm, LA.ContextOf(g, placed));
    o := LA.ContextLegal(g, fm, placed, t);
    x := SomeComing(g, fm, o);
  }

  lemma SomeComing(g: Grammar, fm: FirstMap, o: Origin) returns (x: Terminal)
    requires WellFormed(g) && Closed(g, fm) && Shape(g, fm) && LA.Fertile(g, fm) && Legal(g, fm, o)
    ensures x in Coming(g, fm, o) && x in TerminalsOf(g) + {End}
  {
    hide WellFormed, Closed, Shape, LA.Fertile, FirstOf, NullableSeq, Legal;
    var rem := Remaining(g, ItemOf(o));
    RemainingSymbols(g, ItemOf(o));
    LA.FertileSequence(g, fm, rem);
    FirstOfAppend(fm, rem, [Term(AheadOf(o))]);
    AheadKnown(g, fm, o);
    if NullableSeq(fm, rem) {
      LA.JustTerminal(g, fm, AheadOf(o));
      x := AheadOf(o);
    } else {
      x :| x in FirstOf(fm, rem);
      FirstOfBounded(g, fm, rem);
    }
  }

  lemma RemainingSymbols(g: Grammar, it: Item)
    ensures forall i | 0 <= i < |Remaining(g, it)| :: Remaining(g, it)[i] in SymbolsOf(g)
  {
    forall i | 0 <= i < |Remaining(g, it)| ensures Remaining(g, it)[i] in SymbolsOf(g) {
      assert Remaining(g, it)[i] == g[it.rule].rhs[it.dot + i];
    }
  }

  // ----- one run only -----

  // The tokens `w`, and then `x`.
  function WithNext(w: seq<Token>, x: Terminal): seq<Token> {
    if x == End then w else w + [Token(x, 0)]
  }

  // After `w`, it takes `n` steps from the start until `x` is shifted.
  ghost predicate ShiftsAfter(g: Grammar, pt: ParseTables, w: seq<Token>, x: Terminal, n: nat) {
    exists acts, st :: |acts| == n && Runs(g, pt, WithNext(w, x), INITIAL, acts, Config(st, |w|)) && Shaped(st) && Leaves(pt, st, x)
  }

  lemma LeavesSoon(g: Grammar, pt: ParseTables, input: seq<Token>, c: Config, y: Action)
    requires Deterministic(pt) && Shaped(c.st) && Leaves(pt, c.st, TokenAt(input, c.pos).kind) && Act(g, pt, input, c, y).Some?
    ensures Act(g, pt, input, c, y).value.pos == c.pos + 1
  {
    var s, t := Top(c.st), TokenAt(input, c.pos).kind;
    assert |Choices(pt, s, t)| <= 1 && y in Choices(pt, s, t);
  }

  lemma SameChoice(g: Grammar, pt: ParseTables, input: seq<Token>, c: Config, x: Action, y: Action)
    requires Deterministic(pt) && Shaped(c.st) && Act(g, pt, input, c, x).Some? && Act(g, pt, input, c, y).Some?
    ensures x == y
  {
    hide Reduced;
    var s, t := Top(c.st), TokenAt(input, c.pos).kind;
    assert |Choices(pt, s, t)| <= 1 && x in Choices(pt, s, t) && y in Choices(pt, s, t);
  }

  /** With one choice at most, no run is longer than the one that comes to shift the next token. */
  lemma {:induction false} NoLonger(g: Grammar, pt: ParseTables, input: seq<Token>, c: Config, x: seq<Action>, c1: Config, y: seq<Action>, c2: Config)
    requires Deterministic(pt) && Shaped(c.st) && Runs(g, pt, input, c, x, c1) && Runs(g, pt, input, c, y, c2) && c2.pos <= c1.pos
    requires Shaped(c1.st) && Leaves(pt, c1.st, TokenAt(input, c1.pos).kind)
    ensures |y| <= |x|
    decreases |x|
  {
    hide Choices, Reduced, Deterministic, Leaves;
    if y != [] {
      var next := Act(g, pt, input, c, y[0]).value;
      StepSize(g, pt, input, c, y[0]);
      if x == [] {
        LeavesSoon(g, pt, input, c, y[0]);
        RunSize(g, pt, input, next, y[1..], c2);
      } else {
        SameChoice(g, pt, input, c, x[0], y[0]);
        NoLonger(g, pt, input, next, x[1..], c1, y[1..], c2);
      }
    }
  }

  lemma NextAfter(w: seq<Token>, x: Terminal)
    ensures |w| <= |WithNext(w, x)| && TokenAt(WithNext(w, x), |w|).kind == x && WithNext(w, x)[..|w|] == w
    ensures Reads(WithNext(w, x), 0, w, x)
  {
  }

  lemma ShiftsOnce(g: Grammar, pt: ParseTables, w: seq<Token>, x: Terminal, n: nat, k: nat)
    requires Deterministic(pt) && ShiftsAfter(g, pt, w, x, n) && ShiftsAfter(g, pt, w, x, k)
    ensures k <= n
  {
    hide Deterministic, Runs, Leaves;
    NextAfter(w, x);
    var xs, s :| |xs| == n && Runs(g, pt, WithNext(w, x), INITIAL, xs, Config(s, |w|)) && Shaped(s) && Leaves(pt, s, x);
    var ys, s' :| |ys| == k && Runs(g, pt, WithNext(w, x), INITIAL, ys, Config(s', |w|)) && Shaped(s') && Leaves(pt, s', x);
    NoLonger(g, pt, WithNext(w, x), INITIAL, xs, Config(s, |w|), ys, Config(s', |w|));
  }

  ghost predicate BoundsAfter(g: Grammar, pt: ParseTables, w: seq<Token>, ts: set<Terminal>, n: nat) {
    forall x, k: nat | x in ts && ShiftsAfter(g, pt, w, x, k) :: k <= n
  }

  lemma {:induction false} BoundAfter(g: Grammar, pt: ParseTables, w: seq<Token>, ts: set<Terminal>) returns (n: nat)
    requires Deterministic(pt)
    ensures BoundsAfter(g, pt, w, ts, n)
    decreases ts
  {
    hide Deterministic, ShiftsAfter;
    n := 0;
    if ts != {} {
      var x :| x in ts;
      n := BoundAfter(g, pt, w, ts - {x});
      if k: nat :| ShiftsAfter(g, pt, w, x, k) {
        n := if k > n then k else n;
        forall j: nat | ShiftsAfter(g, pt, w, x, j) ensures j <= k { ShiftsOnce(g, pt, w, x, k, j); }
      }
    }
  }

  ghost predicate BoundsUpTo(g: Grammar, pt: ParseTables, input: seq<Token>, i: nat, ts: set<Terminal>, n: nat)
    requires i <= |input|
  {
    forall j: nat | j <= i :: BoundsAfter(g, pt, input[..j], ts, n)
  }

  lemma {:induction false} BoundUpTo(g: Grammar, pt: ParseTables, input: seq<Token>, i: nat, ts: set<Terminal>) returns (n: nat)
    requires Deterministic(pt) && i <= |input|
    ensures BoundsUpTo(g, pt, input, i, ts, n)
  {
    hide Deterministic, ShiftsAfter;
    n := BoundAfter(g, pt, input[..i], ts);
    if i > 0 {
      var m := BoundUpTo(g, pt, input, i - 1, ts);
      n := if m > n then m else n;
      forall j: nat | j <= i ensures BoundsAfter(g, pt, input[..j], ts, n) {
        if j < i { assert BoundsAfter(g, pt, input[..j], ts, m); }
      }
    }
  }

  /** What stands on a well-built stack after `w` was built in no more steps than it takes to shift some terminal. */
  lemma StackBounded(g: Grammar, fm: FirstMap, a: Automaton, m: Mode, pt: ParseTables, st: Stack, syms: seq<Symbol>, w: seq<Token>, n: nat)
    requires Setting(g, fm, a, m, pt) && Sound(g, fm) && Shape(g, fm) && LA.Fertile(g, fm) && Deterministic(pt)
    requires StackOk(g, a, st, syms) && AllPlain(st.values) && Yields(st.values) == w && Kinds(w)
    requires BoundsAfter(g, pt, w, TerminalsOf(g) + {End}, n)
    ensures SizeAll(st.values) <= n
  {
    hide WellFormed, AutomatonOk, Spreads, Closed, Offers, GotosOk, Sound, Shape, LA.Fertile, StackOk, Stands, Coming, Runs, Deterministic, Leaves, Reads;
    var o, x := StandsSomehow(g, fm, a, st, syms);
    var input := WithNext(w, x);
    NextAfter(w, x);
    var run := Rebuilt(g, fm, a, m, pt, o, st, input, x);
    var more, last := Escape(g, fm, a, m, pt, o, st, input, |w|, x);
    RunsTransitive(g, pt, input, INITIAL, run, Config(st, |w|), more, Config(last, |w|));
    RunSize(g, pt, input, INITIAL, run, Config(st, |w|));
    assert SizeAll(st.values) == |run|;
    assert ShiftsAfter(g, pt, w, x, |run + more|);
  }

  // ----- runs on the raw tables, or with gotos rewritten -----

  lemma {:induction false} RaisedSize(rules: seq<nat>, t: Tree)
    ensures Size(Raise(rules, t)) >= Size(t) && (Plain(t) ==> Plain(Raise(rules, t)))
    decreases |rules|
  {
    if rules != [] {
      SizeOne(t);
      RaisedSize(rules[1..], Node(rules[0], [], [t]));
    }
  }

  /** The stack stands for a well-built one that holds at least `k` nodes and leaves. */
  ghost predicate Holds(g: Grammar, b: Basis, input: seq<Token>, st: Stack, pos: nat, k: nat) {
    exists shadow, syms :: Shadows(g, b, st, shadow, syms) && Consumed(shadow, input, pos) && AllPlain(shadow.values) && SizeAll(shadow.values) >= k
  }

  lemma HoldsNothing(g: Grammar, b: Basis, input: seq<Token>)
    ensures Holds(g, b, input, EMPTY, 0, 0)
  {
    assert Shadows(g, b, EMPTY, EMPTY, []) && Consumed(EMPTY, input, 0);
  }

  lemma HoldsShift(g: Grammar, b: Basis, pt: ParseTables, input: seq<Token>, st: Stack, pos: nat, k: nat, q: nat)
    requires Backed(g, b, pt) && Kinds(input) && Holds(g, b, input, st, pos, k)
    requires Shaped(st) && ShiftTo(q) in Choices(pt, Top(st), TokenAt(input, pos).kind)
    ensures Holds(g, b, input, Push(st, q, Leaf(TokenAt(input, pos))), pos + 1, k + 1)
  {
    hide WellFormed, AutomatonOk, ActionsJustified, GotosLead, StackOk, Choices, Consumed, Kinds, SameAll;
    var shadow, syms :| Shadows(g, b, st, shadow, syms) && Consumed(shadow, input, pos) && AllPlain(shadow.values) && SizeAll(shadow.values) >= k;
    ShadowSizes(g, b, st, shadow, syms);
    ShiftKeeps(g, b.auto, pt, shadow, syms, input, pos, q);
    var leaf := Leaf(input[pos]);
    SamePush(g, b.exact, shadow.values, st.values, leaf, leaf);
    SizeAppend(shadow.values, [leaf]);
    SizeOne(leaf);
    assert Shadows(g, b, Push(st, q, leaf), Push(shadow, q, leaf), syms + [Term(input[pos].kind)]);
  }

  lemma HoldsReduce(g: Grammar, b: Basis, pt: ParseTables, input: seq<Token>, st: Stack, pos: nat, k: nat, t: Terminal, r: nat)
    requires Backed(g, b, pt) && Holds(g, b, input, st, pos, k) && Shaped(st) && ReduceBy(r) in Choices(pt, Top(st), t)
    ensures r < |g| && Reduced(g, pt, st, r).Some? && Holds(g, b, input, Reduced(g, pt, st, r).value, pos, k + 1)
  {
    hide WellFormed, AutomatonOk, ActionsJustified, GotosLead, StackOk, Choices, Consumed, SameAll, Derives, ReadsLeft, Reduced, GotoLeads, AllPlain,
      SizeAll, Plain;
    var shadow, syms :| Shadows(g, b, st, shadow, syms) && Consumed(shadow, input, pos) && AllPlain(shadow.values) && SizeAll(shadow.values) >= k;
    ShadowSizes(g, b, st, shadow, syms);
    ChoiceJustified(g, b.auto, pt, shadow, syms, t, ReduceBy(r));
    var base := ReduceFits(g, b.auto, shadow, syms, r);
    AutomatonSizes(g, b.auto);
    GotoOffered(g, b, pt, st.states[base], g[r].lhs);
    var target := GotoAt(pt, st.states[base], g[r].lhs).value;
    ReducedTo(g, pt, st, r, base, target);
    var shadow', syms', rules := ReducedShadow(g, b, st, shadow, syms, base, r, target, input, pos);
    var node := Node(r, shadow.values[base - g[r].peek..base], shadow.values[base..]);
    SizeReduced(shadow.values, base, r, node.peeked);
    PlainSlice(shadow.values, base - g[r].peek, base);
    PlainReduced(shadow.values, base, r, node.peeked);
    RaisedLast(shadow.values[..base], rules, node);
  }

  lemma RaisedLast(ts: seq<Tree>, rules: seq<nat>, t: Tree)
    requires AllPlain(ts + [t])
    ensures SizeAll(ts + [Raise(rules, t)]) >= SizeAll(ts + [t]) && AllPlain(ts + [Raise(rules, t)])
  {
    assert (ts + [t])[|ts|] == t;
    assert forall i | 0 <= i < |ts| :: ts[i] == (ts + [t])[i];
    RaisedSize(rules, t);
    SizeAppend(ts, [t]);
    SizeAppend(ts, [Raise(rules, t)]);
    SizeOne(t);
    SizeOne(Raise(rules, t));
  }

  /** However gotos were rewritten, a run of `n` steps leaves a stack that stands for one of `n` nodes and leaves. */
  lemma {:induction false} RunHolds(g: Grammar, b: Basis, pt: ParseTables, input: seq<Token>, c: Config, acts: seq<Action>, c': Config, k: nat)
    requires Backed(g, b, pt) && Kinds(input) && Holds(g, b, input, c.st, c.pos, k) && Runs(g, pt, input, c, acts, c')
    ensures Holds(g, b, input, c'.st, c'.pos, k + |acts|)
    decreases |acts|
  {
    hide Backed, Kinds, Holds, Choices, Reduced;
    if acts != [] {
      match acts[0]
      case ShiftTo(q) =>
        HoldsShift(g, b, pt, input, c.st, c.pos, k, q);
        RunHolds(g, b, pt, input, Act(g, pt, input, c, acts[0]).value, acts[1..], c', k + 1);
      case ReduceBy(r) =>
        HoldsReduce(g, b, pt, input, c.st, c.pos, k, TokenAt(input, c.pos).kind, r);
        RunHolds(g, b, pt, input, Act(g, pt, input, c, acts[0]).value, acts[1..], c', k + 1);
    }
  }

  ghost predicate Bounds(g: Grammar, pt: ParseTables, input: seq<Token>, n: nat) {
    forall acts, c {:trigger Runs(g, pt, input, INITIAL, acts, c)} | Runs(g, pt, input, INITIAL, acts, c) :: |acts| <= n
  }

  /** Where no two actions ever met and every symbol can begin or vanish, runs are bounded, whatever the input: over
      the tables as built (`raw`), and over the same with their gotos rewritten. */
  lemma RunsEnd(g: Grammar, fm: FirstMap, a: Automaton, m: Mode, raw: ParseTables, exact: bool, pt: ParseTables, input: seq<Token>) returns (n: nat)
    requires Setting(g, fm, a, m, raw) && Sound(g, fm) && Shape(g, fm) && LA.Fertile(g, fm) && Deterministic(raw)
    requires Backed(g, Basis(a, exact), pt) && Kinds(input)
    ensures Bounds(g, pt, input, n)
  {
    hide Grounded, Offers, GotosOk, Sound, Shape, LA.Fertile, Deterministic, Backed, Kinds, Runs, BoundsUpTo, Holds;
    n := BoundUpTo(g, raw, input, |input|, TerminalsOf(g) + {End});
    forall acts, c | Runs(g, pt, input, INITIAL, acts, c) ensures |acts| <= n {
      HoldsNothing(g, Basis(a, exact), input);
      RunHolds(g, Basis(a, exact), pt, input, INITIAL, acts, c, 0);
      HeldBounded(g, fm, a, m, raw, exact, input, c.st, c.pos, |acts|, n);
    }
  }

  lemma HeldBounded(g: Grammar, fm: FirstMap, a: Automaton, m: Mode, raw: ParseTables, exact: bool, input: seq<Token>, st: Stack, pos: nat, k: nat, n: nat)
    requires Setting(g, fm, a, m, raw) && Sound(g, fm) && Shape(g, fm) && LA.Fertile(g, fm) && Deterministic(raw) && Kinds(input)
    requires Holds(g, Basis(a, exact), input, st, pos, k) && BoundsUpTo(g, raw, input, |input|, TerminalsOf(g) + {End}, n)
    ensures k <= n
  {
    hide Grounded, Offers, GotosOk, Sound, Shape, LA.Fertile, Deterministic, StackOk, SameAll, BoundsAfter;
    var shadow, syms :| Shadows(g, Basis(a, exact), st, shadow, syms) && Consumed(shadow, input, pos) && AllPlain(shadow.values) && SizeAll(shadow.values) >= k;
    assert BoundsAfter(g, raw, input[..pos], TerminalsOf(g) + {End}, n);
    StackBounded(g, fm, a, m, raw, shadow, syms, input[..pos], n);
  }

  // ----- rules that read something -----

  // Every rule has a terminal on its right-hand side.
  ghost predicate AllRead(g: Grammar) {
    forall r | 0 <= r < |g| :: ReadsSome(g[r].rhs)
  }

  predicate ReadsSome(a: seq<Symbol>) {
    exists i :: 0 <= i < |a| && a[i].Term?
  }

  /** Then a tree has at most twice as many nodes and leaves as tokens. */
  lemma {:induction false} ReadSize(g: Grammar, t: Tree, s: Symbol)
    requires AllRead(g) && Derives(g, t, s) && Plain(t)
    ensures Size(t) <= 2 * |Yield(t)| && (s.Term? ==> Size(t) < 2 * |Yield(t)|)
    decreases t, 1
  {
    match t
    case Leaf(_) =>
    case Node(r, _, kids) =>
      assert ReadsSome(g[r].rhs);
      KidsSize(g, kids, g[r].rhs);
  }

  lemma {:induction false} KidsSize(g: Grammar, ts: seq<Tree>, rhs: seq<Symbol>)
    requires AllRead(g) && |ts| == |rhs| && forall i | 0 <= i < |ts| :: Derives(g, ts[i], rhs[i]) && Plain(ts[i])
    ensures SizeAll(ts) <= 2 * |Yields(ts)| && (ReadsSome(rhs) ==> SizeAll(ts) < 2 * |Yields(ts)|)
    decreases ts, 0
  {
    if ts != [] {
      var n := |ts| - 1;
      KidsSize(g, ts[..n], rhs[..n]);
      ReadSize(g, ts[n], rhs[n]);
      if ReadsSome(rhs) && !rhs[n].Term? {
        var i :| 0 <= i < |rhs| && rhs[i].Term?;
        assert rhs[..n][i].Term?;
      }
    }
  }

  /** Where every rule reads a token, no run is longer than twice the input, however conflicts were resolved. */
  lemma ReadingRunsEnd(g: Grammar, b: Basis, pt: ParseTables, input: seq<Token>)
    requires AllRead(g) && Backed(g, b, pt) && Kinds(input)
    ensures Bounds(g, pt, input, 2 * |input|)
  {
    hide Backed, Kinds, Runs, Holds, AllRead;
    forall acts, c | Runs(g, pt, input, INITIAL, acts, c) ensures |acts| <= 2 * |input| {
      HoldsNothing(g, b, input);
      RunHolds(g, b, pt, input, INITIAL, acts, c, 0);
      HeldRead(g, b, input, c.st, c.pos, |acts|);
    }
  }

  lemma HeldRead(g: Grammar, b: Basis, input: seq<Token>, st: Stack, pos: nat, k: nat)
    requires AllRead(g) && Holds(g, b, input, st, pos, k)
    ensures k <= 2 * |input|
  {
    hide AllRead, SameAll;
    var shadow, syms :| Shadows(g, b, st, shadow, syms) && Consumed(shadow, input, pos) && AllPlain(shadow.values) && SizeAll(shadow.values) >= k;
    KidsSize(g, shadow.values, syms);
  }
}
