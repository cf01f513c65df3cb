/** Grammars on which the parser does less than one might expect (src/lalr.ts:312-363, 643-721). */
module Witnesses {
  import opened Options
  import opened Grammars
  import opened FirstSets
  import opened Automata
  import opened Lookaheads
  import opened Tables
  import opened Resolution
  import opened Machine
  import opened Restore
  import opened Completeness
  import opened Control
  import opened Parsing
  import opened Language
  import opened Build
  import Endless
  import LA = LookaheadTheory
  import opened Glr
  import T = OperatorTables

  function Alternative(lhs: nat, rhs: seq<Symbol>, prec: Option<Prec>): Rule {
    Rule(Nt(lhs), rhs, prec, false, 0, false)
  }

  function Augmented(start: nat): Rule {
    Rule(Accept, [NonTerm(Nt(start)), Term(End)], None, true, 0, false)
  }

  function Name(n: nat): Symbol {
    NonTerm(Nt(n))
  }

  // ----- steps through an automaton -----

  lemma Begin(g: Grammar, a: Automaton)
    requires AutomatonOk(g, a)
    ensures |a.states| == |a.trans| && |a.states| > 0 && Item(0, 0) in a.states[0]
  {
    assert Item(0, 0) in Items(a.states[0]);
  }

  // A rule that is called for, and a terminal that can follow it.
  lemma CalledWith(g: Grammar, fm: FirstMap, a: Automaton, m: Mode, s: nat, it: Item, r: nat, t: Terminal)
    requires Grounded(g, fm, a, m) && s < |a.states| && it in a.states[s] && Calls(g, it, r) && (if it == Item(0, 0) then s == 0 else Ahead(g, m, s, it) != {})
    requires t in FirstOf(fm, Rest(g, it)) || (NullableSeq(fm, Rest(g, it)) && t in Ahead(g, m, s, it))
    ensures Item(r, 0) in a.states[s] && t in Ahead(g, m, s, Item(r, 0))
  {
    hide WellFormed, AutomatonOk, Closed, FirstOf, NullableSeq;
    CallInState(g, a, s, it, r);
    assert Hands(g, fm, a, m, s, it);
  }

  lemma MovedWith(g: Grammar, fm: FirstMap, a: Automaton, m: Mode, s: nat, it: Item, x: Symbol, t: Terminal) returns (q: nat)
    requires Grounded(g, fm, a, m) && s < |a.states| && it in a.states[s] && it != Item(0, 0) && Next(g, it) == Some(x) && t in Ahead(g, m, s, it)
    ensures Linked(a, s, x, q) && q < |a.states| && Advance(it) in a.states[q] && t in Ahead(g, m, q, Advance(it))
  {
    hide WellFormed, AutomatonOk, Closed, Spreads;
    HandsMove(g, fm, a, m, s, it, x, t);
    q := a.trans[s][x];
  }

  lemma JustTerminal(g: Grammar, fm: FirstMap, t: Terminal)
    requires Closed(g, fm) && Term(t) in fm
    ensures FirstOf(fm, [Term(t)]) == {t} && !NullableSeq(fm, [Term(t)])
  {
    assert [Term(t)][1..] == [];
    assert !NullableSym(fm, [Term(t)][0]);
  }

  lemma EntrySettled(g: Grammar, a: Automaton, m: Mode, pt: ParseTables, s: nat, t: Terminal)
    requires TablesOk(g, a, m, pt) && s < |a.states| && Incoming(g, a, m, s, t) != []
    ensures t in RowAt(pt, s) && RowAt(pt, s)[t] == Settle(g, Incoming(g, a, m, s, t), ShiftPrec(g, a.states[s], t))
  {
    hide GotoFilled, Incoming, ShiftPrec, Settle;
    assert RowDone(g, a, m, s, pt.action[s]);
    assert EntryIs(g, pt.action[s], t, Incoming(g, a, m, s, t), ShiftPrec(g, a.states[s], t));
  }

  // A state with nothing but a complete item reduces.
  lemma Reducing(g: Grammar, a: Automaton, m: Mode, pt: ParseTables, s: nat, r: nat, t: Terminal)
    requires WellFormed(g) && AutomatonOk(g, a) && TablesOk(g, a, m, pt) && s < |a.states| && 0 < r < |g|
    requires Item(r, |g[r].rhs|) in a.states[s] && t in Ahead(g, m, s, Item(r, |g[r].rhs|))
    requires forall it | it in a.states[s] :: it == Item(r, |g[r].rhs|)
    ensures Choices(pt, s, t) == [ReduceBy(r)] && t in RowAt(pt, s) && RowAt(pt, s)[t] == ReduceBy(r)
  {
    hide WellFormed, AutomatonOk, TablesOk, Choices, Reduces, ShiftPrec, RowAt;
    SameSizes(g, a);
    T.StatesDistinct(g, a, s);
    T.ReducesOnly(g, m, s, a.states[s], t, r);
    ReducesExact(g, m, s, a.states[s], t, ReduceBy(r));
    NotAccept(g, r);
    assert ReducesOn(g, m, s, Item(r, |g[r].rhs|), t);
    T.SettledChoice(g, a, m, pt, s, t);
    EntrySettled(g, a, m, pt, s, t);
    if Term(t) in a.trans[s] { var it := T.Shifter(g, a, s, t); }
  }

  lemma NotAccept(g: Grammar, r: nat)
    requires WellFormed(g) && 0 < r < |g|
    ensures g[r].lhs != Accept
  {
  }

  // ----- a loop that never ends -----

  // `S -> B c`, `B -> A`, `A -> B` above it, and `A -> a`.
  function Looping(): (g: Grammar)
    ensures |g| == 5
  {
    [Augmented(0),
     Alternative(0, [Name(1), Term(Named("c"))], Some(Prec(Left, Some(0)))),
     Alternative(1, [Name(2)], None),
     Alternative(2, [Name(1)], Some(Prec(Left, Some(1)))),
     Alternative(2, [Term(Named("a"))], None)]
  }

  lemma LoopingWellFormed()
    ensures WellFormed(Looping())
  {
    var g := Looping();
    forall r | 0 < r < |g| ensures g[r].lhs != Accept && g[r].peek == 0 && forall i | 0 <= i < |g[r].rhs| :: g[r].rhs[i] != Term(End) && g[r].rhs[i] != Term(Error) && g[r].rhs[i] != NonTerm(Accept) {
      assert r == 1 || r == 2 || r == 3 || r == 4;
    }
  }

  // What is in a state one move from the start, when nothing is called for there.
  lemma FromStart(g: Grammar, a: Automaton, x: Symbol, q: nat, it: Item)
    requires AutomatonOk(g, a) && Linked(a, 0, x, q) && q < |a.states| && it in a.states[q]
    requires forall r | 0 <= r < |g| && |g[r].rhs| > 1 && g[r].rhs[0] == x :: g[r].rhs[1].Term?
    ensures it.rule < |g| && it.dot == 1 && |g[it.rule].rhs| > 0 && g[it.rule].rhs[0] == x
  {
    hide AutomatonOk;
    Begin(g, a);
    forall p | p in a.states[0] && Next(g, p) == Some(x) ensures !(Next(g, Advance(p)).Some? && Next(g, Advance(p)).value.NonTerm?) {
      StartItemsOnly(g, a, p);
    }
    T.NoneBegins(g, a, 0, x, it);
    T.CameFrom(g, a, 0, x, it);
    StartItemsOnly(g, a, Item(it.rule, it.dot - 1));
  }

  lemma LoopingItems(fm: FirstMap, a: Automaton, m: Mode)
    requires Grounded(Looping(), fm, a, m)
    ensures |a.states| > 0 && Item(1, 0) in a.states[0] && End in Ahead(Looping(), m, 0, Item(1, 0))
    ensures forall r | 2 <= r <= 4 :: Item(r, 0) in a.states[0] && Named("c") in Ahead(Looping(), m, 0, Item(r, 0))
  {
    hide WellFormed, AutomatonOk, Closed, Spreads, FirstOf, NullableSeq;
    var g, c := Looping(), Named("c");
    Begin(g, a);
    assert Rest(g, Item(0, 0)) == [Term(End)] && Rest(g, Item(1, 0)) == [Term(c)] && Rest(g, Item(2, 0)) == [];
    LoopingKnown(fm);
    JustTerminal(g, fm, End);
    JustTerminal(g, fm, c);
    CalledWith(g, fm, a, m, 0, Item(0, 0), 1, End);
    CalledWith(g, fm, a, m, 0, Item(1, 0), 2, c);
    assert NullableSeq(fm, []) by { NothingVanishes(fm); }
    CalledWith(g, fm, a, m, 0, Item(2, 0), 3, c);
    CalledWith(g, fm, a, m, 0, Item(2, 0), 4, c);
  }

  lemma NothingVanishes(fm: FirstMap)
    ensures NullableSeq(fm, [])
  {
  }

  lemma LoopingKnown(fm: FirstMap)
    requires Closed(Looping(), fm)
    ensures Term(End) in fm && Term(Named("c")) in fm
  {
    var g := Looping();
    assert g[0].rhs[1] == Term(End) && g[1].rhs[1] == Term(Named("c"));
  }

  /** The states after `a`, after `A` and after `B`. */
  lemma LoopingStates(fm: FirstMap, a: Automaton, m: Mode) returns (qa: nat, qA: nat, qB: nat)
    requires Grounded(Looping(), fm, a, m)
    ensures Linked(a, 0, Term(Named("a")), qa) && Linked(a, 0, Name(2), qA) && Linked(a, 0, Name(1), qB)
    ensures qa < |a.states| && qA < |a.states| && qB < |a.states|
    ensures var g, c := Looping(), Named("c");
      && (Item(4, 1) in a.states[qa] && c in Ahead(g, m, qa, Item(4, 1)) && forall it | it in a.states[qa] :: it == Item(4, 1))
      && (Item(2, 1) in a.states[qA] && c in Ahead(g, m, qA, Item(2, 1)) && forall it | it in a.states[qA] :: it == Item(2, 1))
      && (Item(3, 1) in a.states[qB] && c in Ahead(g, m, qB, Item(3, 1)) && Item(1, 1) in a.states[qB]
          && forall it | it in a.states[qB] :: it == Item(3, 1) || it == Item(1, 1))
  {
    hide WellFormed, AutomatonOk, Closed, Spreads;
    var g, c := Looping(), Named("c");
    LoopingItems(fm, a, m);
    Begin(g, a);
    qa := MovedWith(g, fm, a, m, 0, Item(4, 0), Term(Named("a")), c);
    qA := MovedWith(g, fm, a, m, 0, Item(2, 0), Name(2), c);
    qB := MovedWith(g, fm, a, m, 0, Item(3, 0), Name(1), c);
    var q := MovedWith(g, fm, a, m, 0, Item(1, 0), Name(1), End);
    forall it | it in a.states[qa] ensures it == Item(4, 1) { FromStart(g, a, Term(Named("a")), qa, it); }
    forall it | it in a.states[qA] ensures it == Item(2, 1) { FromStart(g, a, Name(2), qA, it); }
    forall it | it in a.states[qB] ensures it == Item(3, 1) || it == Item(1, 1) { FromStart(g, a, Name(1), qB, it); }
  }

  /** After `B`, the reduction to `A` outranks the shift of `c`. */
  lemma LoopingChoice(a: Automaton, m: Mode, pt: ParseTables, q: nat)
    requires WellFormed(Looping()) && AutomatonOk(Looping(), a) && TablesOk(Looping(), a, m, pt) && q < |a.states|
    requires Item(3, 1) in a.states[q] && Named("c") in Ahead(Looping(), m, q, Item(3, 1)) && Item(1, 1) in a.states[q]
    requires forall it | it in a.states[q] :: it == Item(3, 1) || it == Item(1, 1)
    ensures Named("c") in RowAt(pt, q) && RowAt(pt, q)[Named("c")] == ReduceBy(3)
  {
    hide WellFormed, AutomatonOk, TablesOk, Choices, Reduces, ShiftPrec, RowAt;
    var g, c := Looping(), Named("c");
    SameSizes(g, a);
    T.StatesDistinct(g, a, q);
    T.ReducesOnly(g, m, q, a.states[q], c, 3);
    ReducesExact(g, m, q, a.states[q], c, ReduceBy(3));
    assert ReducesOn(g, m, q, Item(3, 1), c);
    MoveInState(g, a, q, Item(1, 1), Term(c));
    EntrySettled(g, a, m, pt, q, c);
    T.ShiftPrecIs(g, a.states[q], c, Item(1, 1), 1);
    SettleTwo(g, [ShiftTo(a.trans[q][Term(c)]), ReduceBy(3)], PrecOf(g, 1));
  }

  // A node of a rule whose action looks at nothing below.
  lemma NodeDerived(g: Grammar, r: nat, kids: seq<Tree>)
    requires r < |g| && g[r].peek == 0 && |kids| == |g[r].rhs|
    requires forall i | 0 <= i < |kids| :: Derives(g, kids[i], g[r].rhs[i]) && Plain(kids[i]) && ReadsLeft(kids[i], kids[..i])
    ensures var t := Node(r, [], kids); Derives(g, t, NonTerm(g[r].lhs)) && Plain(t) && (forall left :: ReadsLeft(t, left)) && Yield(t) == Yields(kids)
  {
    forall left: seq<Tree> ensures ReadsLeft(Node(r, [], kids), left) { assert left[|left|..] == []; }
  }

  /** The grammar derives `a c`. */
  lemma LoopingDerives()
    ensures InLanguage(Looping(), Tokens(["a", "c"]))
  {
    hide Derives, Plain, ReadsLeft, Yield, Yields;
    var g, input := Looping(), Tokens(["a", "c"]);
    var x, y := Leaf(input[0]), Leaf(input[1]);
    LeafDerived(g, input[0]);
    LeafDerived(g, input[1]);
    NodeDerived(g, 4, [x]);
    var u := Node(4, [], [x]);
    NodeDerived(g, 2, [u]);
    var v := Node(2, [], [u]);
    NodeDerived(g, 1, [v, y]);
    YieldsOne(x);
    YieldsOne(u);
    YieldsOne(v);
    YieldsOne(y);
    YieldsAppend([v], [y]);
    assert [v] + [y] == [v, y] && [input[0]] + [input[1]] == input;
    assert DerivedBy(g, Node(1, [], [v, y]), input);
  }

  lemma LeafDerived(g: Grammar, tok: Token)
    ensures var t := Leaf(tok); Derives(g, t, Term(tok.kind)) && Plain(t) && Yield(t) == [tok] && forall left :: ReadsLeft(t, left)
  {
  }

  function Tokens(names: seq<string>): seq<Token> {
    seq(|names|, i requires 0 <= i < |names| => Token(Named(names[i]), i))
  }

  // Popping one value and following a goto from the start.
  lemma UnitStep(g: Grammar, a: Automaton, pt: ParseTables, input: seq<Token>, v: Tree, s: nat, r: nat, q: nat)
    requires GotosOk(a, pt) && r < |g| && |g[r].rhs| == 1 && g[r].peek == 0 && Linked(a, 0, NonTerm(g[r].lhs), q)
    requires ReduceBy(r) in Choices(pt, s, TokenAt(input, 1).kind)
    ensures Act(g, pt, input, Config(Stack([0, s], [v]), 1), ReduceBy(r)) == Some(Config(Stack([0, q], [Node(r, [], [v])]), 1))
  {
    hide GotosOk, Choices, Reduced;
    var st := Stack([0, s], [v]);
    ReducedShape(g, a, pt, st, r);
    OneValue(s, v, q, r);
    assert Reduced(g, pt, st, r) == Some(Stack([0, q], [Node(r, [], [v])]));
  }

  lemma OneValue(s: nat, v: Tree, q: nat, r: nat)
    ensures var st := Stack([0, s], [v]);
      Push(Stack(st.states[..1], st.values[..0]), q, Node(r, st.values[0..0], st.values[0..])) == Stack([0, q], [Node(r, [], [v])])
  {
    assert [0, s][..1] == [0] && [v][..0] == [] && [v][0..] == [v] && [v][0..0] == [];
  }

  // Where the machine is after `n` steps over `a c`: behind `a`, then behind `A` and behind `B` by turns.
  function StateAt(qa: nat, qA: nat, qB: nat, n: nat): nat {
    if n <= 1 then qa else if n % 2 == 0 then qA else qB
  }

  function RuleAt(n: nat): nat {
    if n <= 1 then 4 else if n % 2 == 0 then 2 else 3
  }

  ghost predicate LoopTables(a: Automaton, pt: ParseTables, qa: nat, qA: nat, qB: nat) {
    && GotosOk(a, pt) && Linked(a, 0, Name(2), qA) && Linked(a, 0, Name(1), qB)
    && Named("a") in RowAt(pt, 0) && RowAt(pt, 0)[Named("a")] == ShiftTo(qa)
    && forall n: nat | n > 0 :: Named("c") in RowAt(pt, StateAt(qa, qA, qB, n)) && RowAt(pt, StateAt(qa, qA, qB, n))[Named("c")] == ReduceBy(RuleAt(n))
  }

  lemma LoopStarts(pt: ParseTables, qa: nat)
    requires Named("a") in RowAt(pt, 0) && RowAt(pt, 0)[Named("a")] == ShiftTo(qa)
    ensures var input := Tokens(["a", "c"]); Only(Looping(), pt, input, INITIAL) == Some(Config(Stack([0, qa], [Leaf(input[0])]), 1))
  {
    var input := Tokens(["a", "c"]);
    assert [0] + [qa] == [0, qa] && [] + [Leaf(input[0])] == [Leaf(input[0])] && input[0].kind == Named("a");
    assert ShiftTo(qa) in Choices(pt, 0, Named("a"));
  }

  lemma LoopSteps(a: Automaton, pt: ParseTables, qa: nat, qA: nat, qB: nat, n: nat, v: Tree)
    requires n > 0 && LoopTables(a, pt, qa, qA, qB)
    ensures var g, input, c := Looping(), Tokens(["a", "c"]), Config(Stack([0, StateAt(qa, qA, qB, n)], [v]), 1);
      Only(g, pt, input, c) == Some(Config(Stack([0, StateAt(qa, qA, qB, n + 1)], [Node(RuleAt(n), [], [v])]), 1))
  {
    hide GotosOk, Act, Linked, RowAt;
    var g, input, s := Looping(), Tokens(["a", "c"]), StateAt(qa, qA, qB, n);
    assert TokenAt(input, 1).kind == Named("c");
    EntryChosen(pt, s, Named("c"));
    UnitStep(g, a, pt, input, v, s, RuleAt(n), StateAt(qa, qA, qB, n + 1));
  }

  lemma EntryChosen(pt: ParseTables, s: nat, t: Terminal)
    requires t in RowAt(pt, s) && RowAt(pt, s)[t].ReduceBy?
    ensures RowAt(pt, s)[t] in Choices(pt, s, t)
  {
  }

  lemma {:induction false} LoopForced(a: Automaton, pt: ParseTables, qa: nat, qA: nat, qB: nat, n: nat) returns (v: Tree)
    requires n > 0 && LoopTables(a, pt, qa, qA, qB)
    ensures Forced(Looping(), pt, Tokens(["a", "c"]), n) == Some(Config(Stack([0, StateAt(qa, qA, qB, n)], [v]), 1))
    decreases n
  {
    hide Only, LoopTables, StateAt;
    if n == 1 {
      v := Leaf(Tokens(["a", "c"])[0]);
      LoopBegun(a, pt, qa, qA, qB);
    } else {
      var u := LoopForced(a, pt, qa, qA, qB, n - 1);
      LoopSteps(a, pt, qa, qA, qB, n - 1, u);
      v := Node(RuleAt(n - 1), [], [u]);
    }
  }

  lemma LoopBegun(a: Automaton, pt: ParseTables, qa: nat, qA: nat, qB: nat)
    requires LoopTables(a, pt, qa, qA, qB)
    ensures Forced(Looping(), pt, Tokens(["a", "c"]), 1) == Some(Config(Stack([0, StateAt(qa, qA, qB, 1)], [Leaf(Tokens(["a", "c"])[0])]), 1))
  {
    hide Only;
    LoopStarts(pt, qa);
    assert Forced(Looping(), pt, Tokens(["a", "c"]), 0) == Some(INITIAL);
  }

  /** A grammar whose conflict is settled by precedence, on which the machine never ends: over `a c`, which the grammar
      derives, every step is forced, and none after the first reads on. */
  lemma LoopsForEver(fm: FirstMap, a: Automaton, m: Mode, pt: ParseTables)
    requires BuiltFrom(Looping(), fm, a, m, pt)
    ensures Endless.NeverEnds(Looping(), pt, Tokens(["a", "c"]))
    ensures forall n: nat | n > 0 :: Forced(Looping(), pt, Tokens(["a", "c"]), n).value.pos == 1
  {
    hide BuiltFrom, Forced, LoopTables;
    var g, input := Looping(), Tokens(["a", "c"]);
    var qa, qA, qB := LoopingTables(fm, a, m, pt);
    forall n: nat ensures Forced(g, pt, input, n).Some? && (n > 0 ==> Forced(g, pt, input, n).value.pos == 1) {
      if n > 0 { var v := LoopForced(a, pt, qa, qA, qB, n); } else { BeginForced(g, pt, input); }
    }
  }

  lemma BeginForced(g: Grammar, pt: ParseTables, input: seq<Token>)
    ensures Forced(g, pt, input, 0).Some?
  {
  }

  lemma LoopingTables(fm: FirstMap, a: Automaton, m: Mode, pt: ParseTables) returns (qa: nat, qA: nat, qB: nat)
    requires BuiltFrom(Looping(), fm, a, m, pt)
    ensures LoopTables(a, pt, qa, qA, qB)
  {
    hide WellFormed, AutomatonOk, Closed, Spreads, TablesOk, Choices, RowAt, GotosOk, ActionsJustified, Backed;
    var g, c := Looping(), Named("c");
    BuiltBacked(g, fm, a, m, pt);
    qa, qA, qB := LoopingStates(fm, a, m);
    Reducing(g, a, m, pt, qa, 4, c);
    Reducing(g, a, m, pt, qA, 2, c);
    LoopingChoice(a, m, pt, qB);
    ShiftEntry(g, a, m, pt, Named("a"), qa);
  }

  // In the first state nothing is complete, unless a rule is empty.
  lemma ShiftEntry(g: Grammar, a: Automaton, m: Mode, pt: ParseTables, t: Terminal, q: nat)
    requires WellFormed(g) && AutomatonOk(g, a) && TablesOk(g, a, m, pt) && Linked(a, 0, Term(t), q) && t != End
    requires forall r | 0 <= r < |g| :: g[r].rhs != []
    ensures t in RowAt(pt, 0) && RowAt(pt, 0)[t] == ShiftTo(q)
  {
    hide WellFormed, AutomatonOk, Reduces, ShiftPrec, GotoFilled;
    Begin(g, a);
    forall it | it in a.states[0] ensures !ReducesOn(g, m, 0, it, t) { StartItemsOnly(g, a, it); }
    T.NoReductions(g, m, 0, a.states[0], t);
    assert RowDone(g, a, m, 0, pt.action[0]);
    assert EntryIs(g, pt.action[0], t, Incoming(g, a, m, 0, t), ShiftPrec(g, a.states[0], t));
  }

  // ----- reductions dropped against the accept entry -----

  // `S -> A`, `A -> S` and `A -> a`: a cycle through the start symbol.
  function Cyclic(): (g: Grammar)
    ensures |g| == 4
  {
    [Augmented(0), Alternative(0, [Name(1)], None), Alternative(1, [Name(0)], None), Alternative(1, [Term(Named("a"))], None)]
  }

  lemma CyclicWellFormed()
    ensures WellFormed(Cyclic())
  {
    var g := Cyclic();
    forall r | 0 < r < |g| ensures g[r].lhs != Accept && g[r].peek == 0 && |g[r].rhs| == 1 && (g[r].rhs[0] == Name(0) || g[r].rhs[0] == Name(1) || g[r].rhs[0] == Term(Named("a"))) {
      assert r == 1 || r == 2 || r == 3;
    }
  }

  // Which state a state was discovered from.
  lemma Before(g: Grammar, a: Automaton, s: nat) returns (p: nat, x: Symbol)
    requires AutomatonOk(g, a) && 0 < s < |a.states|
    ensures p < s && p < |a.trans| == |a.states| && Linked(a, p, x, s)
  {
    hide StatesOk, RowsOk;
    assert Discovered(a.trans, s);
    p :| p < |a.trans| && p < s && Leads(a.trans[p], s);
    x :| LeadsTo(a.trans[p], x, s);
  }

  // Where every rule but the augmented one has one symbol, no state but the first calls for anything.
  lemma OneSymbolState(g: Grammar, a: Automaton, s: nat, it: Item)
    requires AutomatonOk(g, a) && 0 < s < |a.states| && it in a.states[s] && g != [] && |g[0].rhs| == 2 && g[0].rhs[1].Term?
    requires forall r | 0 < r < |g| :: |g[r].rhs| == 1
    ensures it.rule < |g| && it.dot > 0 && (it.rule > 0 ==> it.dot == 1)
  {
    hide AutomatonOk;
    ItemInRange(g, a, s, it);
    var p, x := Before(g, a, s);
    forall i | i in a.states[p] && Next(g, i) == Some(x) ensures !(Next(g, Advance(i)).Some? && Next(g, Advance(i)).value.NonTerm?) {
      ItemInRange(g, a, p, i);
    }
    T.NoneBegins(g, a, p, x, it);
  }

  // Then what is complete in a state came over the same symbol.
  lemma OneSymbolComplete(g: Grammar, a: Automaton, s: nat) returns (x: Symbol)
    requires AutomatonOk(g, a) && s < |a.states| && g != [] && |g[0].rhs| == 2 && g[0].rhs[1].Term?
    requires forall r | 0 < r < |g| :: |g[r].rhs| == 1
    ensures forall it | it in a.states[s] && 0 < it.rule < |g| && it.dot >= 1 :: g[it.rule].rhs[0] == x && it.dot == 1
  {
    hide AutomatonOk;
    if s == 0 {
      x := Term(End);
      forall it | it in a.states[0] ensures it.dot == 0 { StartItemsOnly(g, a, it); }
    } else {
      var p, y := Before(g, a, s);
      x := y;
      forall it | it in a.states[s] && 0 < it.rule < |g| && it.dot >= 1 ensures g[it.rule].rhs[0] == x && it.dot == 1 {
        OneSymbolState(g, a, s, it);
        T.CameFrom(g, a, p, x, it);
      }
    }
  }

  lemma CyclicQuiet(a: Automaton, m: Mode, s: nat, t: Terminal)
    requires AutomatonOk(Cyclic(), a) && s < |a.states| == |a.trans|
    ensures Quiet(Cyclic(), Incoming(Cyclic(), a, m, s, t), ShiftPrec(Cyclic(), a.states[s], t))
  {
    hide AutomatonOk, Reduces, ShiftPrec;
    var g := Cyclic();
    var x := OneSymbolComplete(g, a, s);
    T.StatesDistinct(g, a, s);
    var r := if x == Name(1) then 1 else if x == Name(0) then 2 else 3;
    forall it | it in a.states[s] && it.rule < |g| && it.dot == |g[it.rule].rhs| && g[it.rule].lhs != Accept ensures it.rule == r {
      assert it.rule == 1 || it.rule == 2 || it.rule == 3;
    }
    T.ReducesOnly(g, m, s, a.states[s], t, r);
    if Term(t) in a.trans[s] && Reduces(g, m, s, a.states[s], t) != [] {
      CyclicShift(a, m, s, t);
      AcceptStays(g, Incoming(g, a, m, s, t), ShiftPrec(g, a.states[s], t));
    }
  }

  // Where something is complete, only the end can be shifted.
  lemma CyclicShift(a: Automaton, m: Mode, s: nat, t: Terminal)
    requires AutomatonOk(Cyclic(), a) && s < |a.states| == |a.trans| && Term(t) in a.trans[s] && Reduces(Cyclic(), m, s, a.states[s], t) != []
    ensures t == End
  {
    hide AutomatonOk, Reduces;
    var g := Cyclic();
    var it := T.Shifter(g, a, s, t);
    ItemInRange(g, a, s, it);
    ReducesExact(g, m, s, a.states[s], t, Reduces(g, m, s, a.states[s], t)[0]);
    if s == 0 {
      forall i | i in a.states[0] ensures !ReducesOn(g, m, 0, i, t) {
        StartItemsOnly(g, a, i);
        ItemInRange(g, a, s, i);
      }
    } else {
      OneSymbolState(g, a, s, it);
    }
  }

  /** No report tells that a reduction met the accept entry: every row of the tables is filled quietly, and yet
      after `S` the reduction to `A` was dropped. */
  lemma QuietlyDropped(fm: FirstMap, a: Automaton, m: Mode)
    requires Grounded(Cyclic(), fm, a, m)
    ensures forall s | 0 <= s < |a.states| :: |a.states| == |a.trans| && RowQuiet(Cyclic(), a, m, s)
    ensures !Clean(Cyclic(), a, m) && !KeepsAll(Cyclic(), a, m)
  {
    hide WellFormed, AutomatonOk, Closed, Spreads, Reduces, FirstOf, NullableSeq;
    var g := Cyclic();
    Begin(g, a);
    forall s, t | 0 <= s < |a.states| ensures Quiet(g, Incoming(g, a, m, s, t), ShiftPrec(g, a.states[s], t)) { CyclicQuiet(a, m, s, t); }
    var q := CyclicMeet(fm, a, m);
    var inc := Incoming(g, a, m, q, End);
    assert !CleanAt(g, a, m, q, End) && !KeepsAt(g, a, m, q, End) by {
      AcceptStays(g, inc, ShiftPrec(g, a.states[q], End));
      assert ReduceBy(2) in inc && ReduceBy(2) !in Alternatives(AcceptAll);
    }
  }

  // Both meet on the end of the input, after `S`.
  lemma CyclicMeet(fm: FirstMap, a: Automaton, m: Mode) returns (q: nat)
    requires Grounded(Cyclic(), fm, a, m) && |a.states| == |a.trans|
    ensures q < |a.states| && var inc := Incoming(Cyclic(), a, m, q, End); |inc| > 1 && inc[0] == AcceptAll && ReduceBy(2) in inc
  {
    hide WellFormed, AutomatonOk, Closed, Spreads, Reduces, FirstOf, NullableSeq;
    var g := Cyclic();
    Begin(g, a);
    assert Rest(g, Item(0, 0)) == [Term(End)] && Rest(g, Item(1, 0)) == [];
    assert Term(End) in fm by { CyclicKnown(fm); }
    JustTerminal(g, fm, End);
    NothingVanishes(fm);
    CalledWith(g, fm, a, m, 0, Item(0, 0), 1, End);
    CalledWith(g, fm, a, m, 0, Item(1, 0), 2, End);
    q := MovedWith(g, fm, a, m, 0, Item(2, 0), Name(0), End);
    MoveInState(g, a, 0, Item(0, 0), Name(0));
    MoveInState(g, a, q, Item(0, 1), Term(End));
    ReducesExact(g, m, q, a.states[q], End, ReduceBy(2));
    assert ReducesOn(g, m, q, Item(2, 1), End);
    assert ShiftAction(a, q, End) == [AcceptAll];
  }

  lemma CyclicKnown(fm: FirstMap)
    requires Closed(Cyclic(), fm)
    ensures Term(End) in fm
  {
    assert Cyclic()[0].rhs[1] == Term(End);
  }

  // ----- a third action dropped at a fork -----

  const FORK := Some(Prec(Fork, Some(0)))

  // `S -> A`, `S -> B`, `S -> C`, and each of the three is `a`, to be forked.
  function Threefold(): (g: Grammar)
    ensures |g| == 7
  {
    [Augmented(0), Alternative(0, [Name(1)], None), Alternative(0, [Name(2)], None), Alternative(0, [Name(3)], None),
     Alternative(1, [Term(Named("a"))], FORK), Alternative(2, [Term(Named("a"))], FORK), Alternative(3, [Term(Named("a"))], FORK)]
  }

  /** Three reductions that are all to be forked: one of them is dropped, though every conflict is reported. */
  lemma ThirdDropped(fm: FirstMap, a: Automaton, m: Mode)
    requires Grounded(Threefold(), fm, a, m)
    ensures !KeepsAll(Threefold(), a, m)
    ensures forall r | 4 <= r <= 6 :: Forks(PrecOf(Threefold(), r))
  {
    hide WellFormed, AutomatonOk, Closed, Spreads, Reduces, FirstOf, NullableSeq, AtMostAFork;
    var g := Threefold();
    Begin(g, a);
    var q := ThreeMeet(fm, a, m);
    if KeepsAll(g, a, m) {
      KeepsAllIff(g, a, m);
      assert AtMostAFork(g, a, m, q, End);
      FewMeet(a, m, q);
    }
  }

  lemma FewMeet(a: Automaton, m: Mode, q: nat)
    requires q < |a.states| == |a.trans| && AtMostAFork(Threefold(), a, m, q, End)
    ensures |Incoming(Threefold(), a, m, q, End)| <= 2
  {
  }

  lemma ThreeMeet(fm: FirstMap, a: Automaton, m: Mode) returns (q: nat)
    requires Grounded(Threefold(), fm, a, m) && |a.states| == |a.trans|
    ensures q < |a.states| && Linked(a, 0, Term(Named("a")), q) && |Reduces(Threefold(), m, q, a.states[q], End)| > 2
  {
    hide WellFormed, AutomatonOk, Closed, Spreads, Reduces, FirstOf, NullableSeq;
    var g, x := Threefold(), Term(Named("a"));
    Begin(g, a);
    assert Rest(g, Item(0, 0)) == [Term(End)];
    assert Term(End) in fm by { ThreefoldKnown(fm); }
    JustTerminal(g, fm, End);
    NothingVanishes(fm);
    q := 0;
    for k := 0 to 3
      invariant k > 0 ==> q < |a.states| && Linked(a, 0, x, q)
      invariant forall r | 4 <= r < 4 + k :: ReduceBy(r) in Reduces(g, m, q, a.states[q], End)
    {
      assert Rest(g, Item(k + 1, 0)) == [];
      CalledWith(g, fm, a, m, 0, Item(0, 0), k + 1, End);
      CalledWith(g, fm, a, m, 0, Item(k + 1, 0), k + 4, End);
      q := MovedWith(g, fm, a, m, 0, Item(k + 4, 0), x, End);
      ReducesExact(g, m, q, a.states[q], End, ReduceBy(k + 4));
      assert ReducesOn(g, m, q, Item(k + 4, 1), End);
    }
    ThreeNeedThree(ReduceBy(4), ReduceBy(5), ReduceBy(6), Reduces(g, m, q, a.states[q], End));
  }

  lemma ThreefoldKnown(fm: FirstMap)
    requires Closed(Threefold(), fm)
    ensures Term(End) in fm
  {
    assert Threefold()[0].rhs[1] == Term(End);
  }

  // ----- a boundary behind a token that was not shifted -----

  lemma ThreefoldTerminals()
    ensures Named("b") !in TerminalsOf(Threefold()) + {End}
  {
    var g := Threefold();
    forall r, i | 0 <= r < |g| && 0 <= i < |g[r].rhs| ensures g[r].rhs[i] != Term(Named("b")) {
      assert "a"[0] != "b"[0];
      assert r == 0 || r == 1 || r == 2 || r == 3 || r == 4 || r == 5 || r == 6;
    }
  }

  lemma NeverAhead(g: Grammar, fm: FirstMap, a: Automaton, la: Table, s: nat, it: Item, t: Terminal)
    requires WellFormed(g) && Closed(g, fm) && Shape(g, fm) && AutomatonOk(g, a) && LaClosed(g, fm, a, la) && Least(g, fm, a, la) && |la| == |a.states|
    requires t !in TerminalsOf(g) + {End}
    ensures t !in At(la, s, it)
  {
    hide WellFormed, Closed, Shape, AutomatonOk, LaClosed, Least, FirstOf, LA.Reaches;
    LA.LookaheadsBetween(g, fm, a, la, s, it, t);
    if t in At(la, s, it) {
      var o :| LA.Reaches(g, a, o, s, it) && t in FirstOf(fm, LA.ContextOf(g, o));
      LA.ContextKnown(g, fm, o);
    }
  }

  lemma {:induction false} ForksSettle(g: Grammar, inc: seq<Action>, p: Option<Prec>)
    requires |inc| >= 2 && forall x | x in inc :: x.ReduceBy? && Forks(PrecOf(g, x.rule))
    ensures Settle(g, inc, p).Conflict?
  {
    var init, last := inc[..|inc| - 1], inc[|inc| - 1];
    assert last in inc && forall x | x in init :: x in inc;
    if |init| >= 2 { ForksSettle(g, init, p); } else { assert init[0] in inc; }
  }

  /** In prefix mode over `a b`: after `a`, the `b` that was lexed does not fit, and the end taken for it is a fork
      that accepts. Whatever the parser returns, it is not an error, and the value, which is of `a`, is reported to
      end behind `b`. */
  lemma PrefixStopsBehind(fm: FirstMap, a: Automaton, la: Table, pt: ParseTables, fuel: nat, out: Outcome)
    requires BuiltFrom(Threefold(), fm, a, Lalr(la), pt) && Shape(Threefold(), fm)
    requires LaClosed(Threefold(), fm, a, la) && Least(Threefold(), fm, a, la) && |la| == |a.states| && NotIgnored(pt, Named("b"))
    requires fuel > 1 && StopsBehind(Threefold(), pt, Tokens(["a", "b"]), fuel, out)
    ensures out.Parsed? || out.TooMuchWork?
    ensures out.Parsed? ==> out.shifted == 1 && out.boundary == 2
  {
    hide WellFormed, AutomatonOk, Closed, Spreads, TablesOk, Choices, LaClosed, Least, Shape, NotIgnored, CanAccept, Only, Linked;
    var g, m, input := Threefold(), Lalr(la), Tokens(["a", "b"]);
    var q := PrefixForks(fm, a, la, pt);
    ForkAccepts(fm, a, m, pt, q);
    var c := Config(Stack([0, q], [Leaf(input[0])]), 1);
    OnlyShift(pt, q);
    assert Forced(g, pt, input, 0) == Some(INITIAL);
    assert Forced(g, pt, input, 1) == Some(c);
    assert ForksAt(g, pt, input, 1);
  }

  lemma OnlyShift(pt: ParseTables, q: nat)
    requires Named("a") in RowAt(pt, 0) && RowAt(pt, 0)[Named("a")] == ShiftTo(q)
    ensures Only(Threefold(), pt, Tokens(["a", "b"]), INITIAL) == Some(Config(Stack([0, q], [Leaf(Tokens(["a", "b"])[0])]), 1))
  {
    var input := Tokens(["a", "b"]);
    assert [0] + [q] == [0, q] && [] + [Leaf(input[0])] == [Leaf(input[0])] && input[0].kind == Named("a");
    assert ShiftTo(q) in Choices(pt, 0, Named("a"));
  }

  lemma PrefixForks(fm: FirstMap, a: Automaton, la: Table, pt: ParseTables) returns (q: nat)
    requires BuiltFrom(Threefold(), fm, a, Lalr(la), pt) && Shape(Threefold(), fm)
    requires LaClosed(Threefold(), fm, a, la) && Least(Threefold(), fm, a, la) && |la| == |a.states| && NotIgnored(pt, Named("b"))
    ensures Named("a") in RowAt(pt, 0) && RowAt(pt, 0)[Named("a")] == ShiftTo(q) && ForksOnEnd(pt, Tokens(["a", "b"]), q, 1)
    ensures q < |a.states| && Linked(a, 0, Term(Named("a")), q)
    ensures forall it | it in a.states[q] :: 4 <= it.rule <= 6 && it.dot == 1
  {
    hide WellFormed, AutomatonOk, Closed, Spreads, TablesOk, Choices, Reduces, Incoming, LaClosed, Least, Shape, NotIgnored, RowDone;
    var g, m := Threefold(), Lalr(la);
    Begin(g, a);
    q := ThreeMeet(fm, a, m);
    ShiftEntry(g, a, m, pt, Named("a"), q);
    ThreefoldTerminals();
    BehindA(fm, a, la, q);
    NothingComes(g, a, m, pt, q, Named("b"));
    EndForks(a, m, pt, q);
    assert Tokens(["a", "b"])[1].kind == Named("b");
  }

  // After `a`, only complete items of the three rules are left, and none of them waits for `b`.
  lemma BehindA(fm: FirstMap, a: Automaton, la: Table, q: nat)
    requires WellFormed(Threefold()) && AutomatonOk(Threefold(), a) && Closed(Threefold(), fm) && Shape(Threefold(), fm)
    requires q < |a.states| && Linked(a, 0, Term(Named("a")), q) && Named("b") !in TerminalsOf(Threefold()) + {End}
    requires LaClosed(Threefold(), fm, a, la) && Least(Threefold(), fm, a, la) && |la| == |a.states|
    ensures forall it | it in a.states[q] :: 4 <= it.rule <= 6 && it.dot == 1
    ensures forall it | it in a.states[q] :: Next(Threefold(), it) != Some(Term(Named("b"))) && !ReducesOn(Threefold(), Lalr(la), q, it, Named("b"))
  {
    hide WellFormed, AutomatonOk, Closed, Spreads, LaClosed, Least, Shape;
    var g := Threefold();
    forall it | it in a.states[q] ensures 4 <= it.rule <= 6 && it.dot == 1 { FromStart(g, a, Term(Named("a")), q, it); }
    forall it | it in a.states[q] ensures !ReducesOn(g, Lalr(la), q, it, Named("b")) { NeverAhead(g, fm, a, la, q, it, Named("b")); }
  }

  // No action comes for a terminal that no item waits for.
  lemma NothingComes(g: Grammar, a: Automaton, m: Mode, pt: ParseTables, q: nat, t: Terminal)
    requires AutomatonOk(g, a) && TablesOk(g, a, m, pt) && q < |a.states| && NotIgnored(pt, t)
    requires forall it | it in a.states[q] :: Next(g, it) != Some(Term(t)) && !ReducesOn(g, m, q, it, t)
    ensures Unfit(pt, q, t)
  {
    hide AutomatonOk, Reduces, GotoFilled, ShiftPrec, Settle;
    SameSizes(g, a);
    T.NoReductions(g, m, q, a.states[q], t);
    if Term(t) in a.trans[q] { var it := T.Shifter(g, a, q, t); }
    assert RowDone(g, a, m, q, pt.action[q]);
    assert Incoming(g, a, m, q, t) == [];
  }

  lemma EndForks(a: Automaton, m: Mode, pt: ParseTables, q: nat)
    requires AutomatonOk(Threefold(), a) && TablesOk(Threefold(), a, m, pt) && q < |a.states|
    requires (forall it | it in a.states[q] :: 4 <= it.rule <= 6 && it.dot == 1) && |Reduces(Threefold(), m, q, a.states[q], End)| > 2
    ensures End in RowAt(pt, q) && RowAt(pt, q)[End].Conflict?
  {
    hide AutomatonOk, Reduces, GotoFilled, ShiftPrec, Settle;
    var g := Threefold();
    SameSizes(g, a);
    if Term(End) in a.trans[q] { var it := T.Shifter(g, a, q, End); }
    var inc := Incoming(g, a, m, q, End);
    assert inc == Reduces(g, m, q, a.states[q], End);
    forall x | x in inc ensures x.ReduceBy? && Forks(PrecOf(g, x.rule)) { ReducesExact(g, m, q, a.states[q], End, x); }
    ForksSettle(g, inc, ShiftPrec(g, a.states[q], End));
    assert RowDone(g, a, m, q, pt.action[q]);
    assert EntryIs(g, pt.action[q], End, inc, ShiftPrec(g, a.states[q], End));
  }

  // From a state that reduces by a unit rule, what the state that it leads to accepts is accepted.
  lemma UnitAccepts(g: Grammar, a: Automaton, pt: ParseTables, input: seq<Token>, s: nat, r: nat, q: nat)
    requires GotosOk(a, pt) && r < |g| && |g[r].rhs| == 1 && Linked(a, 0, NonTerm(g[r].lhs), q) && |a.trans| > 0
    requires ReduceBy(r) in Choices(pt, s, TokenAt(input, 1).kind) && CanAccept(g, pt, input, [0, q], 1)
    ensures CanAccept(g, pt, input, [0, s], 1)
  {
    hide Choices, CanAccept;
    assert GotoFilled(a, 0, pt.goto[0]);
    assert [0, s][..1] + [q] == [0, q];
    StepAccepts(g, pt, input, [0, s], 1, ReduceBy(r), [0, q], 1);
  }

  // Behind the start symbol the input can end.
  lemma AcceptingState(a: Automaton, m: Mode, pt: ParseTables) returns (q: nat)
    requires WellFormed(Threefold()) && AutomatonOk(Threefold(), a) && TablesOk(Threefold(), a, m, pt)
    ensures Linked(a, 0, Name(0), q) && AcceptAll in Choices(pt, q, End)
  {
    hide WellFormed, AutomatonOk, TablesOk, Choices, Reduces, ShiftPrec;
    var g := Threefold();
    Begin(g, a);
    MoveInState(g, a, 0, Item(0, 0), Name(0));
    q := a.trans[0][Name(0)];
    MoveInState(g, a, q, Item(0, 1), Term(End));
    forall it | it in a.states[q] ensures !ReducesOn(g, m, q, it, End) { FromStart(g, a, Name(0), q, it); }
    T.NoReductions(g, m, q, a.states[q], End);
    T.SettledChoice(g, a, m, pt, q, End);
  }

  lemma {:induction false} ForkAccepts(fm: FirstMap, a: Automaton, m: Mode, pt: ParseTables, q: nat)
    requires BuiltFrom(Threefold(), fm, a, m, pt) && q < |a.states| && Linked(a, 0, Term(Named("a")), q)
    requires End in RowAt(pt, q) && RowAt(pt, q)[End].Conflict?
    ensures CanAccept(Threefold(), pt, Tokens(["a", "b"])[..1], [0, q], 1)
  {
    hide WellFormed, AutomatonOk, Closed, Spreads, TablesOk, Choices, Reduces, CanAccept, GotosOk, ActionsJustified, Backed, FirstOf, NullableSeq;
    var g, input := Threefold(), Tokens(["a", "b"])[..1];
    Begin(g, a);
    BuiltBacked(g, fm, a, m, pt);
    var qS := AcceptingState(a, m, pt);
    assert AcceptsBy(g, pt, input, [0, qS], 1, []);
    assert CanAccept(g, pt, input, [0, qS], 1) by { AcceptsNothingMore(g, pt, input, qS); }
    var r := OneOfThree(fm, a, m, pt, q);
    var qA := AfterName(fm, a, m, pt, r - 3);
    UnitAccepts(g, a, pt, input, qA, r - 3, qS);
    UnitAccepts(g, a, pt, input, q, r, qA);
  }

  lemma AcceptsNothingMore(g: Grammar, pt: ParseTables, input: seq<Token>, q: nat)
    requires AcceptsBy(g, pt, input, [0, q], 1, [])
    ensures CanAccept(g, pt, input, [0, q], 1)
  {
  }

  // One of the three reductions is there.
  lemma OneOfThree(fm: FirstMap, a: Automaton, m: Mode, pt: ParseTables, q: nat) returns (r: nat)
    requires BuiltFrom(Threefold(), fm, a, m, pt) && q < |a.states| && Linked(a, 0, Term(Named("a")), q)
    requires End in RowAt(pt, q) && RowAt(pt, q)[End].Conflict?
    ensures 4 <= r <= 6 && ReduceBy(r) in Choices(pt, q, End)
  {
    hide WellFormed, AutomatonOk, Closed, Spreads, TablesOk, ShiftPrec, Settle, Incoming, Choices;
    var g := Threefold();
    Begin(g, a);
    var inc, p := Incoming(g, a, m, q, End), ShiftPrec(g, a.states[q], End);
    OnlyThree(a, m, q);
    SomethingComes(g, a, m, pt, q, End);
    SettleFromIncoming(g, inc, p);
    T.SettledChoice(g, a, m, pt, q, End);
    var x := Alternatives(Settle(g, inc, p))[0];
    assert x in inc;
    r := x.rule;
  }

  lemma SomethingComes(g: Grammar, a: Automaton, m: Mode, pt: ParseTables, q: nat, t: Terminal)
    requires TablesOk(g, a, m, pt) && q < |a.states| == |a.trans| && t in RowAt(pt, q) && RowAt(pt, q)[t].Conflict?
    ensures Incoming(g, a, m, q, t) != []
  {
    hide Incoming, GotoFilled, ShiftPrec, EntryIs;
    assert RowDone(g, a, m, q, pt.action[q]);
  }

  lemma OnlyThree(a: Automaton, m: Mode, q: nat)
    requires AutomatonOk(Threefold(), a) && q < |a.states| == |a.trans| && Linked(a, 0, Term(Named("a")), q)
    ensures forall x | x in Incoming(Threefold(), a, m, q, End) :: x.ReduceBy? && 4 <= x.rule <= 6
  {
    hide AutomatonOk, Reduces;
    var g := Threefold();
    forall it | it in a.states[q] ensures 4 <= it.rule <= 6 && it.dot == 1 { FromStart(g, a, Term(Named("a")), q, it); }
    if Term(End) in a.trans[q] { var it := T.Shifter(g, a, q, End); }
    assert Incoming(g, a, m, q, End) == Reduces(g, m, q, a.states[q], End);
    forall x | x in Reduces(g, m, q, a.states[q], End) ensures x.ReduceBy? && 4 <= x.rule <= 6 { ReducesExact(g, m, q, a.states[q], End, x); }
  }

  // The state after one of the three names.
  lemma AfterName(fm: FirstMap, a: Automaton, m: Mode, pt: ParseTables, k: nat) returns (q: nat)
    requires BuiltFrom(Threefold(), fm, a, m, pt) && 1 <= k <= 3
    ensures Linked(a, 0, Name(k), q) && ReduceBy(k) in Choices(pt, q, End)
  {
    hide WellFormed, AutomatonOk, Closed, Spreads, TablesOk, Choices, FirstOf, NullableSeq;
    var g := Threefold();
    Begin(g, a);
    assert Rest(g, Item(0, 0)) == [Term(End)];
    assert Term(End) in fm by { ThreefoldKnown(fm); }
    JustTerminal(g, fm, End);
    CalledWith(g, fm, a, m, 0, Item(0, 0), k, End);
    q := MovedWith(g, fm, a, m, 0, Item(k, 0), Name(k), End);
    forall it | it in a.states[q] ensures it == Item(k, 1) { FromStart(g, a, Name(k), q, it); }
    Reducing(g, a, m, pt, q, k, End);
  }

  // ----- a lookahead that no valid item has -----

  // `S -> X Z`, `X -> Y c`, `Y -> y`, and a `Z -> Z z` that never begins with anything.
  function Barren(): (g: Grammar)
    ensures |g| == 5
  {
    [Augmented(0), Alternative(0, [Name(1), Name(3)], None), Alternative(1, [Name(2), Term(Named("c"))], None),
     Alternative(2, [Term(Named("y"))], None), Alternative(3, [Name(3), Term(Named("z"))], None)]
  }

  lemma BarrenWellFormed()
    ensures WellFormed(Barren())
  {
    var g := Barren();
    forall r | 0 < r < |g| ensures g[r].lhs != Accept && g[r].peek == 0 && forall i | 0 <= i < |g[r].rhs| :: g[r].rhs[i] != Term(End) && g[r].rhs[i] != Term(Error) && g[r].rhs[i] != NonTerm(Accept) {
      assert r == 1 || r == 2 || r == 3 || r == 4;
    }
  }

  lemma {:induction false} BarrenForms(b: seq<Symbol>, b': seq<Symbol>, p: seq<Step>)
    requires Rewrites(Barren(), b, b', p) && b != [] && b[0] == Name(3)
    ensures b' != [] && b'[0] == Name(3)
    decreases |p|
  {
    if p != [] {
      BarrenStep(b, p[0]);
      BarrenForms(Apply(Barren(), b, p[0]), b', p[1..]);
    }
  }

  lemma BarrenStep(b: seq<Symbol>, s: Step)
    requires CanApply(Barren(), b, s) && b != [] && b[0] == Name(3)
    ensures var c := Apply(Barren(), b, s); c != [] && c[0] == Name(3)
  {
    if s.at == 0 { assert s.rule == 4; }
  }

  lemma BarrenFirst(fm: FirstMap)
    requires Sound(Barren(), fm)
    ensures TermsOf(fm, Name(3)) == {} && !NullableSym(fm, Name(3))
  {
    var g, z := Barren(), Name(3);
    forall t ensures t !in TermsOf(fm, z) {
      if t in TermsOf(fm, z) {
        assert BeginsWith(g, [z], t);
        var p, rest: seq<Symbol> :| Rewrites(g, [z], [Term(t)] + rest, p);
        BarrenForms([z], [Term(t)] + rest, p);
      }
    }
    if NullableSym(fm, z) {
      assert Vanishes(g, [z]);
      var p :| Rewrites(g, [z], [], p);
      BarrenForms([z], [], p);
    }
  }

  // No valid LR(1) item begins `X`, so none begins `Y`.
  lemma BarrenOrigins(fm: FirstMap, o: Origin)
    requires Sound(Barren(), fm) && Legal(Barren(), fm, o)
    ensures ItemOf(o) != Item(2, 0) && ItemOf(o) != Item(3, 0)
  {
    assert Rest(Barren(), Item(1, 0)) == [Name(3)];
    BarrenFirst(fm);
    if o.Called? {
      BarrenOrigins(fm, o.caller);
      if o.rule == 2 || o.rule == 3 { BarrenCaller(ItemOf(o.caller), o.rule); }
    }
  }

  lemma BarrenCaller(it: Item, r: nat)
    requires Calls(Barren(), it, r)
    ensures r == 2 ==> it == Item(1, 0)
    ensures r == 3 ==> it == Item(2, 0)
  {
    var g := Barren();
    assert it.rule == 0 || it.rule == 1 || it.rule == 2 || it.rule == 3 || it.rule == 4;
  }

  /** A table that propagation can stop at records `c` for `Y -> .y` at the start, where no valid LR(1) item has
      any lookahead for it; so such tables are not all the merge. */
  lemma BarrenRecordsMore(fm: FirstMap, a: Automaton) returns (la: Table)
    requires Closed(Barren(), fm) && Sound(Barren(), fm) && Shape(Barren(), fm) && AutomatonOk(Barren(), a)
    ensures LA.Stops(Barren(), fm, a, la) && Named("c") in At(la, 0, Item(3, 0)) && !Merged(Barren(), fm, a, 0, Item(3, 0), Named("c"))
    ensures !LA.HandsNothingNew(Barren(), fm, a)
  {
    hide WellFormed, Closed, Sound, Shape, AutomatonOk, Merged, FirstOf, SelfContained, LA.Placed, LaClosed, Least, LA.ForcedTable;
    var g, c := Barren(), Named("c");
    BarrenWellFormed();
    LA.ForcedStops(g, fm, a);
    LA.ForcedSelfContained(g, fm, a);
    la := LA.ForcedTable(g, fm, a);
    LA.StartReached(g, a);
    LA.ReachedCall(g, a, 0, Item(0, 0), 1);
    LA.ReachedCall(g, a, 0, Item(1, 0), 2);
    assert Rest(g, Item(2, 0)) == [Term(c)];
    BarrenKnown(fm);
    JustTerminal(g, fm, c);
    LA.GivenThere(g, fm, a, la, 0, Item(2, 0), 3, c);
    if Merged(g, fm, a, 0, Item(3, 0), c) {
      var o := LA.MergedOrigin(g, fm, a, 0, Item(3, 0), c);
      BarrenOrigins(fm, o);
    }
    if LA.HandsNothingNew(g, fm, a) { LA.StopsAtMerge(g, fm, a, la); }
  }

  lemma BarrenKnown(fm: FirstMap)
    requires Closed(Barren(), fm)
    ensures Term(Named("c")) in fm
  {
    assert Barren()[2].rhs[1] == Term(Named("c"));
  }
}
