/** Exactly when driving the tables never ends (src/lalr.ts:643-721): when, at one lookahead, the machine comes back
    to a state it has not popped since and pushes the same nonterminal on it. */
module Endless {
  import opened Options
  import opened Grammars
  import opened FirstSets
  import opened Automata
  import opened Tables
  import opened Machine
  import opened Restore
  import opened Completeness
  import opened Parsing

  // ----- reductions -----

  // The rule that the machine is made to reduce by.
  ghost function ByRule(g: Grammar, pt: ParseTables, input: seq<Token>, c: Config): Option<nat> {
    if Only(g, pt, input, c).None? then None
    else
      var x := RowAt(pt, Top(c.st))[TokenAt(input, c.pos).kind];
      if x.ReduceBy? then Some(x.rule) else None
  }

  // The `n`th step is a reduction.
  ghost predicate ReducesAt(g: Grammar, pt: ParseTables, input: seq<Token>, n: nat) {
    Forced(g, pt, input, n).Some? && ByRule(g, pt, input, Forced(g, pt, input, n).value).Some?
  }

  // What is exposed by one: how many states remain below the one exposed, that state, and what is pushed on it.
  ghost function BaseOf(g: Grammar, pt: ParseTables, input: seq<Token>, c: Config): (base: nat)
    requires ByRule(g, pt, input, c).Some?
    ensures Shaped(c.st) && base < |c.st.states|
  {
    var r := ByRule(g, pt, input, c).value;
    |c.st.values| - |g[r].rhs|
  }

  datatype Pushed = Pushed(state: nat, name: NonTerminal)

  ghost function PushOf(g: Grammar, pt: ParseTables, input: seq<Token>, c: Config): Pushed
    requires ByRule(g, pt, input, c).Some?
  {
    Pushed(c.st.states[BaseOf(g, pt, input, c)], g[ByRule(g, pt, input, c).value].lhs)
  }

  ghost function BaseAt(g: Grammar, pt: ParseTables, input: seq<Token>, n: nat): nat
    requires ReducesAt(g, pt, input, n)
  {
    BaseOf(g, pt, input, Forced(g, pt, input, n).value)
  }

  ghost function PushAt(g: Grammar, pt: ParseTables, input: seq<Token>, n: nat): Pushed
    requires ReducesAt(g, pt, input, n)
  {
    PushOf(g, pt, input, Forced(g, pt, input, n).value)
  }

  /** The steps `i` to `j` are reductions, of which none pops what the first exposes, and the last exposes the same
      state, there or higher up, and pushes the same nonterminal. */
  ghost predicate ComesBack(g: Grammar, pt: ParseTables, input: seq<Token>, i: nat, j: nat) {
    && i < j && (forall k: nat | i <= k <= j :: ReducesAt(g, pt, input, k))
    && (forall k: nat | i <= k <= j :: BaseAt(g, pt, input, k) >= BaseAt(g, pt, input, i))
    && PushAt(g, pt, input, i) == PushAt(g, pt, input, j)
  }

  // ----- one reduction, on any stack with that top -----

  // What a reduction leaves.
  lemma ReducedTo(g: Grammar, pt: ParseTables, input: seq<Token>, c: Config) returns (c': Config)
    requires ByRule(g, pt, input, c).Some?
    ensures Only(g, pt, input, c) == Some(c') && Shaped(c'.st) && c'.pos == c.pos
    ensures var base, p := BaseOf(g, pt, input, c), PushOf(g, pt, input, c);
            GotoAt(pt, p.state, p.name).Some? && c'.st.states == c.st.states[..base + 1] + [GotoAt(pt, p.state, p.name).value]
  {
    c' := Only(g, pt, input, c).value;
  }

  // The states from the `n`th on, on a stack above other states, take the same reduction.
  lemma SameStep(g: Grammar, pt: ParseTables, input: seq<Token>, c: Config, d: Config, x: seq<nat>, x': seq<nat>, y: seq<nat>)
    requires ByRule(g, pt, input, c).Some? && Shaped(d.st) && d.pos == c.pos && y != [] && |x| <= |x'|
    requires c.st.states == x + y && d.st.states == x' + y && BaseOf(g, pt, input, c) >= |x|
    ensures ByRule(g, pt, input, d) == ByRule(g, pt, input, c) && PushOf(g, pt, input, d) == PushOf(g, pt, input, c)
    ensures BaseOf(g, pt, input, d) == BaseOf(g, pt, input, c) + |x'| - |x|
  {
    var r, base := ByRule(g, pt, input, c).value, BaseOf(g, pt, input, c);
    assert Top(c.st) == y[|y| - 1] == Top(d.st);
    var base' := |d.st.values| - |g[r].rhs|;
    assert d.st.states[base'] == y[base - |x|] == c.st.states[base];
  }

  // And leave the same states there.
  lemma SameAfter(g: Grammar, pt: ParseTables, input: seq<Token>, c: Config, d: Config, x: seq<nat>, x': seq<nat>, y: seq<nat>)
      returns (c': Config, d': Config, y': seq<nat>)
    requires ByRule(g, pt, input, c).Some? && Shaped(d.st) && d.pos == c.pos && y != [] && |x| <= |x'|
    requires c.st.states == x + y && d.st.states == x' + y && BaseOf(g, pt, input, c) >= |x|
    ensures Only(g, pt, input, c) == Some(c') && Only(g, pt, input, d) == Some(d') && Shaped(d'.st) && d'.pos == c'.pos
    ensures y' != [] && c'.st.states == x + y' && d'.st.states == x' + y'
    ensures ByRule(g, pt, input, d) == ByRule(g, pt, input, c) && PushOf(g, pt, input, d) == PushOf(g, pt, input, c)
    ensures BaseOf(g, pt, input, d) == BaseOf(g, pt, input, c) + |x'| - |x|
  {
    hide ByRule, BaseOf, PushOf, Only;
    SameStep(g, pt, input, c, d, x, x', y);
    c' := ReducedTo(g, pt, input, c);
    d' := ReducedTo(g, pt, input, d);
    var base, p := BaseOf(g, pt, input, c), PushOf(g, pt, input, c);
    var q := GotoAt(pt, p.state, p.name).value;
    y' := y[..base - |x| + 1] + [q];
    TakeBehind(x, y, base + 1, q);
    TakeBehind(x', y, base + |x'| - |x| + 1, q);
  }

  lemma TakeBehind(x: seq<nat>, y: seq<nat>, n: nat, q: nat)
    requires |x| <= n <= |x| + |y|
    ensures (x + y)[..n] + [q] == x + (y[..n - |x|] + [q])
  {
  }

  // ----- once round is for ever -----

  ghost function At(g: Grammar, pt: ParseTables, input: seq<Token>, n: nat): Config
    requires Forced(g, pt, input, n).Some?
  {
    Forced(g, pt, input, n).value
  }

  lemma NextForced(g: Grammar, pt: ParseTables, input: seq<Token>, n: nat) returns (c: Config)
    requires ReducesAt(g, pt, input, n)
    ensures Forced(g, pt, input, n + 1) == Some(c) == Only(g, pt, input, At(g, pt, input, n)) && Shaped(c.st)
    ensures c.pos == At(g, pt, input, n).pos
    ensures var base, p := BaseAt(g, pt, input, n), PushAt(g, pt, input, n);
            && base < |At(g, pt, input, n).st.states| && GotoAt(pt, p.state, p.name).Some? && p.state == At(g, pt, input, n).st.states[base]
            && c.st.states == At(g, pt, input, n).st.states[..base + 1] + [GotoAt(pt, p.state, p.name).value]
  {
    hide ByRule, BaseOf, Only;
    c := ReducedTo(g, pt, input, At(g, pt, input, n));
  }

  lemma {:induction false} SamePlace(g: Grammar, pt: ParseTables, input: seq<Token>, i: nat, j: nat)
    requires i <= j && forall k: nat | i <= k < j :: ReducesAt(g, pt, input, k)
    requires Forced(g, pt, input, i).Some?
    ensures Forced(g, pt, input, j).Some? && At(g, pt, input, j).pos == At(g, pt, input, i).pos
    decreases j
  {
    hide Forced, ReducesAt;
    if i < j {
      SamePlace(g, pt, input, i, j - 1);
      var c := NextForced(g, pt, input, j - 1);
    }
  }

  // The stacks after `i` and after `j`, `m` steps on: the same from where they came back.
  ghost predicate Alike(g: Grammar, pt: ParseTables, input: seq<Token>, i: nat, j: nat, m: nat, x: seq<nat>, x': seq<nat>, y: seq<nat>) {
    && Forced(g, pt, input, i + 1 + m).Some? && Forced(g, pt, input, j + 1 + m).Some? && y != [] && |x| <= |x'|
    && At(g, pt, input, i + 1 + m).st.states == x + y && At(g, pt, input, j + 1 + m).st.states == x' + y
    && Shaped(At(g, pt, input, j + 1 + m).st) && At(g, pt, input, j + 1 + m).pos == At(g, pt, input, i + 1 + m).pos
  }

  lemma AlikeAtFirst(g: Grammar, pt: ParseTables, input: seq<Token>, i: nat, j: nat) returns (x: seq<nat>, x': seq<nat>, y: seq<nat>)
    requires ComesBack(g, pt, input, i, j)
    ensures |x| == BaseAt(g, pt, input, i) && |x'| == BaseAt(g, pt, input, j) && Alike(g, pt, input, i, j, 0, x, x', y)
  {
    hide Forced, ReducesAt, BaseAt, PushAt;
    assert ReducesAt(g, pt, input, i) && ReducesAt(g, pt, input, j);
    ReducesForced(g, pt, input, i);
    ReducesForced(g, pt, input, j);
    var c := NextForced(g, pt, input, i);
    var d := NextForced(g, pt, input, j);
    SamePlace(g, pt, input, i + 1, j + 1);
    var p := PushAt(g, pt, input, i);
    var q := GotoAt(pt, p.state, p.name).value;
    var s, s' := At(g, pt, input, i).st.states, At(g, pt, input, j).st.states;
    x, x', y := s[..BaseAt(g, pt, input, i)], s'[..BaseAt(g, pt, input, j)], [p.state, q];
    assert s[..|x| + 1] == x + [p.state] && s'[..|x'| + 1] == x' + [p.state];
    assert c.st.states == x + y && d.st.states == x' + y;
  }

  // The `k`th step after `j` does what that after `i` did, so much higher up.
  ghost predicate Follows(g: Grammar, pt: ParseTables, input: seq<Token>, i: nat, j: nat, k: nat, higher: int) {
    && ReducesAt(g, pt, input, i + k) && ReducesAt(g, pt, input, j + k)
    && BaseAt(g, pt, input, j + k) == BaseAt(g, pt, input, i + k) + higher && PushAt(g, pt, input, j + k) == PushAt(g, pt, input, i + k)
  }

  lemma AlikeOnce(g: Grammar, pt: ParseTables, input: seq<Token>, i: nat, j: nat, m: nat, x: seq<nat>, x': seq<nat>, y: seq<nat>)
      returns (y': seq<nat>)
    requires Alike(g, pt, input, i, j, m, x, x', y) && ReducesAt(g, pt, input, i + 1 + m) && BaseAt(g, pt, input, i + 1 + m) >= |x|
    ensures Alike(g, pt, input, i, j, m + 1, x, x', y') && Follows(g, pt, input, i, j, m + 1, |x'| - |x|)
  {
    hide ByRule, BaseOf, PushOf, Only;
    var c', d';
    c', d', y' := SameAfter(g, pt, input, At(g, pt, input, i + 1 + m), At(g, pt, input, j + 1 + m), x, x', y);
  }

  lemma {:induction false} AlikeLater(g: Grammar, pt: ParseTables, input: seq<Token>, i: nat, j: nat, x: seq<nat>, x': seq<nat>, y: seq<nat>, higher: int, m: nat)
      returns (y': seq<nat>)
    requires ComesBack(g, pt, input, i, j) && m <= j - i && higher == |x'| - |x| && |x| == BaseAt(g, pt, input, i) && Alike(g, pt, input, i, j, 0, x, x', y)
    ensures Alike(g, pt, input, i, j, m, x, x', y')
    ensures forall k: nat | 1 <= k <= m :: Follows(g, pt, input, i, j, k, higher)
    decreases m
  {
    hide Alike, ReducesAt, BaseAt, PushAt, Forced;
    if m == 0 {
      y' := y;
    } else {
      y' := AlikeLater(g, pt, input, i, j, x, x', y, higher, m - 1);
      assert i + 1 + (m - 1) == i + m && ReducesAt(g, pt, input, i + m);
      y' := AlikeOnce(g, pt, input, i, j, m - 1, x, x', y');
    }
  }

  /** Having come back once, the machine does so again after as many steps. */
  lemma Again(g: Grammar, pt: ParseTables, input: seq<Token>, i: nat, j: nat)
    requires ComesBack(g, pt, input, i, j)
    ensures ComesBack(g, pt, input, j, j + (j - i))
  {
    hide Alike, ReducesAt, BaseAt, PushAt, Forced;
    var x, x', y := AlikeAtFirst(g, pt, input, i, j);
    var y' := AlikeLater(g, pt, input, i, j, x, x', y, |x'| - |x|, j - i);
    var n := j + (j - i);
    forall k: nat | j <= k <= n ensures ReducesAt(g, pt, input, k) && BaseAt(g, pt, input, k) >= BaseAt(g, pt, input, j) {
      if k > j {
        assert Follows(g, pt, input, i, j, k - j, |x'| - |x|);
        assert BaseAt(g, pt, input, i + (k - j)) >= BaseAt(g, pt, input, i);
      }
    }
    assert Follows(g, pt, input, i, j, j - i, |x'| - |x|);
  }

  lemma {:induction false} Onwards(g: Grammar, pt: ParseTables, input: seq<Token>, i: nat, j: nat, n: nat)
    requires ComesBack(g, pt, input, i, j)
    ensures Forced(g, pt, input, n).Some?
    decreases if n > j then n - j else 0
  {
    hide ReducesAt, BaseAt, PushAt, Forced;
    if n <= j {
      if Forced(g, pt, input, n).None? { NotForced(g, pt, input, n, j); }
      ReducesForced(g, pt, input, j);
    } else {
      Again(g, pt, input, i, j);
      Onwards(g, pt, input, j, j + (j - i), n);
    }
  }

  lemma ReducesForced(g: Grammar, pt: ParseTables, input: seq<Token>, n: nat)
    ensures ReducesAt(g, pt, input, n) ==> Forced(g, pt, input, n).Some?
  {
    hide Forced;
  }

  // ----- for ever is once round -----

  // Every step from `n` on is a reduction where the `n`th is.
  ghost predicate Stays(g: Grammar, pt: ParseTables, input: seq<Token>, n: nat) {
    forall k: nat | k >= n :: ReducesAt(g, pt, input, k)
  }

  // A step takes a token or reduces.
  lemma StepMoves(g: Grammar, b: Basis, pt: ParseTables, input: seq<Token>, c: Config)
    requires ActionsJustified(g, b.auto, pt) && Kinds(input) && Only(g, pt, input, c).Some? && c.pos <= |input|
    ensures var c' := Only(g, pt, input, c).value;
            c.pos <= c'.pos <= |input| && (c'.pos == c.pos ==> ByRule(g, pt, input, c).Some?)
  {
    var s, t := Top(c.st), TokenAt(input, c.pos).kind;
    var x := RowAt(pt, s)[t];
    assert x in Choices(pt, s, t);
    assert ActionJustified(g, b.auto, s, t, x);
  }

  lemma {:induction false} InsideInput(g: Grammar, b: Basis, pt: ParseTables, input: seq<Token>, n: nat)
    requires ActionsJustified(g, b.auto, pt) && Kinds(input) && Forced(g, pt, input, n).Some?
    ensures At(g, pt, input, n).pos <= |input|
  {
    hide ActionsJustified, Kinds, Only;
    if n > 0 {
      InsideInput(g, b, pt, input, n - 1);
      StepMoves(g, b, pt, input, At(g, pt, input, n - 1));
    }
  }

  // Where no token is read any more.
  lemma {:induction false} Settled(g: Grammar, b: Basis, pt: ParseTables, input: seq<Token>, from: nat) returns (n: nat)
    requires ActionsJustified(g, b.auto, pt) && Kinds(input) && forall k: nat :: Forced(g, pt, input, k).Some?
    ensures Stays(g, pt, input, n)
    decreases |input| - At(g, pt, input, from).pos
  {
    hide ActionsJustified, Kinds, Only, Forced, ByRule;
    if exists k: nat :: k >= from && !ReducesAt(g, pt, input, k) {
      var k: nat :| k >= from && !ReducesAt(g, pt, input, k);
      NotBack(g, b, pt, input, from, k);
      InsideInput(g, b, pt, input, k + 1);
      ReadsOn(g, b, pt, input, k);
      n := Settled(g, b, pt, input, k + 1);
    } else {
      n := from;
    }
  }

  lemma ReadsOn(g: Grammar, b: Basis, pt: ParseTables, input: seq<Token>, k: nat)
    requires ActionsJustified(g, b.auto, pt) && Kinds(input) && Forced(g, pt, input, k).Some? && Forced(g, pt, input, k + 1).Some?
    ensures At(g, pt, input, k).pos <= At(g, pt, input, k + 1).pos
    ensures !ReducesAt(g, pt, input, k) ==> At(g, pt, input, k).pos < At(g, pt, input, k + 1).pos
  {
    hide ActionsJustified, Kinds, Only, ByRule;
    InsideInput(g, b, pt, input, k);
    StepMoves(g, b, pt, input, At(g, pt, input, k));
  }

  lemma {:induction false} NotBack(g: Grammar, b: Basis, pt: ParseTables, input: seq<Token>, i: nat, j: nat)
    requires ActionsJustified(g, b.auto, pt) && Kinds(input) && i <= j && forall k: nat :: Forced(g, pt, input, k).Some?
    ensures At(g, pt, input, i).pos <= At(g, pt, input, j).pos
    decreases j
  {
    hide ActionsJustified, Kinds, Only, Forced;
    if i < j {
      NotBack(g, b, pt, input, i, j - 1);
      ReadsOn(g, b, pt, input, j - 1);
    }
  }

  // Nothing below what is exposed by the `n`th step is ever exposed again.
  ghost predicate Lasting(g: Grammar, pt: ParseTables, input: seq<Token>, n: nat)
    requires Stays(g, pt, input, n)
  {
    forall k: nat | k >= n :: BaseAt(g, pt, input, k) >= BaseAt(g, pt, input, n)
  }

  lemma StaysLater(g: Grammar, pt: ParseTables, input: seq<Token>, n: nat, k: nat)
    requires Stays(g, pt, input, n) && k >= n
    ensures Stays(g, pt, input, k) && ReducesAt(g, pt, input, k)
  {
    hide ReducesAt;
  }

  /** From any step on, some step is lasting. */
  lemma {:induction false} SomeLasting(g: Grammar, pt: ParseTables, input: seq<Token>, n: nat) returns (k: nat)
    requires Stays(g, pt, input, n)
    ensures k >= n && Stays(g, pt, input, k) && Lasting(g, pt, input, k)
    decreases BaseAt(g, pt, input, n)
  {
    hide ReducesAt, BaseAt;
    if exists l: nat :: l >= n && ReducesAt(g, pt, input, l) && BaseAt(g, pt, input, l) < BaseAt(g, pt, input, n) {
      var l: nat :| l >= n && ReducesAt(g, pt, input, l) && BaseAt(g, pt, input, l) < BaseAt(g, pt, input, n);
      StaysLater(g, pt, input, n, l);
      k := SomeLasting(g, pt, input, l);
    } else {
      k := n;
      forall l: nat | l >= n ensures BaseAt(g, pt, input, l) >= BaseAt(g, pt, input, n) { assert ReducesAt(g, pt, input, l); }
    }
  }

  // What can be pushed on what.
  ghost function Pushes(g: Grammar, pt: ParseTables): set<Pushed> {
    set s, r | 0 <= s < |pt.goto| && 0 <= r < |g| :: Pushed(s, g[r].lhs)
  }

  lemma PushKnown(g: Grammar, pt: ParseTables, input: seq<Token>, n: nat)
    requires ReducesAt(g, pt, input, n)
    ensures PushAt(g, pt, input, n) in Pushes(g, pt)
  {
    hide Forced;
    var c := NextForced(g, pt, input, n);
    var p, r := PushAt(g, pt, input, n), ByRule(g, pt, input, At(g, pt, input, n)).value;
    assert 0 <= p.state < |pt.goto| && 0 <= r < |g| && p == Pushed(p.state, g[r].lhs);
  }

  /** Among lasting steps, of which there is always another, two push the same on the same state. */
  lemma {:induction false} TwoAlike(g: Grammar, pt: ParseTables, input: seq<Token>, n: nat, all: set<Pushed>) returns (i: nat, j: nat)
    requires Stays(g, pt, input, n)
    requires forall k: nat | k >= n && Stays(g, pt, input, k) && Lasting(g, pt, input, k) :: PushAt(g, pt, input, k) in all
    ensures ComesBack(g, pt, input, i, j)
    decreases |all|
  {
    hide ReducesAt, BaseAt, PushAt;
    i := SomeLasting(g, pt, input, n);
    var p := PushAt(g, pt, input, i);
    if exists k: nat :: k > i && ReducesAt(g, pt, input, k) && PushAt(g, pt, input, k) == p {
      j :| j > i && ReducesAt(g, pt, input, j) && PushAt(g, pt, input, j) == p;
    } else {
      StaysLater(g, pt, input, i, i + 1);
      i, j := TwoAlike(g, pt, input, i + 1, all - {p});
    }
  }

  ghost predicate NeverEnds(g: Grammar, pt: ParseTables, input: seq<Token>) {
    forall n: nat :: Forced(g, pt, input, n).Some?
  }

  lemma Repeats(g: Grammar, pt: ParseTables, input: seq<Token>, i: nat, j: nat)
    requires ComesBack(g, pt, input, i, j)
    ensures NeverEnds(g, pt, input)
  {
    hide ComesBack, Forced;
    forall n: nat ensures Forced(g, pt, input, n).Some? { Onwards(g, pt, input, i, j, n); }
  }

  /** The machine is forced to go on for ever exactly if it comes back once. */
  lemma EndlessExactly(g: Grammar, b: Basis, pt: ParseTables, input: seq<Token>)
    requires Backed(g, b, pt) && Kinds(input)
    ensures NeverEnds(g, pt, input) <==> exists i: nat, j: nat :: ComesBack(g, pt, input, i, j)
  {
    hide Forced, ComesBack, Kinds, ActionsJustified, WellFormed, AutomatonOk, GotosLead, Stays, Lasting;
    if NeverEnds(g, pt, input) {
      var n := Settled(g, b, pt, input, 0);
      KnownPushes(g, pt, input, n);
      var i, j := TwoAlike(g, pt, input, n, Pushes(g, pt));
      assert ComesBack(g, pt, input, i, j);
    }
    if exists i: nat, j: nat :: ComesBack(g, pt, input, i, j) {
      var i: nat, j: nat :| ComesBack(g, pt, input, i, j);
      Repeats(g, pt, input, i, j);
    }
  }

  lemma KnownPushes(g: Grammar, pt: ParseTables, input: seq<Token>, n: nat)
    requires Stays(g, pt, input, n)
    ensures forall k: nat | k >= n && Stays(g, pt, input, k) && Lasting(g, pt, input, k) :: PushAt(g, pt, input, k) in Pushes(g, pt)
  {
    hide ReducesAt, BaseAt, PushAt, Pushes;
    forall k: nat | k >= n && Stays(g, pt, input, k) && Lasting(g, pt, input, k) ensures PushAt(g, pt, input, k) in Pushes(g, pt) {
      PushKnown(g, pt, input, k);
    }
  }

  /** So, without conflict entries, a parser that answers as `RunParser` does runs out of every amount of fuel exactly
      if the machine comes back once. */
  lemma NeverStops(g: Grammar, b: Basis, pt: ParseTables, input: seq<Token>)
    requires Backed(g, b, pt) && Kinds(input) && NoConflicts(pt)
    ensures (forall fuel: nat, out | EndsRight(g, pt, input, false, fuel, out) :: out.OutOfFuel?)
            <==> exists i: nat, j: nat :: ComesBack(g, pt, input, i, j)
  {
    hide Forced, ComesBack, Kinds, Backed, NoConflicts;
    EndlessExactly(g, b, pt, input);
    if !NeverEnds(g, pt, input) {
      var n: nat :| Forced(g, pt, input, n).None?;
      assert EndsRight(g, pt, input, false, n, SyntaxError(0));
    }
  }
}
