/** Conflict resolution by precedence makes the tables of an operator grammar read it as precedence says
    (src/lalr.ts:312-363, 643-722; README.md:45-58, 111-114). */
module OperatorTables {
  import opened Options
  import opened Grammars
  import opened FirstSets
  import opened Automata
  import opened Lookaheads
  import opened Tables
  import opened Resolution
  import opened Machine
  import opened Completeness
  import opened Operators

  // ----- operator grammars -----

  // The tokens of an operator grammar, numbered.
  type Codes = map<Terminal, nat>

  function CodeOf(code: Codes, t: Terminal): nat {
    if t in code then code[t] else 0
  }

  // The terminal that tells a rule: its operator, or what it begins with.
  function Sign(r: Rule): Terminal {
    if |r.rhs| == 3 && r.rhs[0].NonTerm? && r.rhs[1].Term? then r.rhs[1].t
    else if |r.rhs| > 0 && r.rhs[0].Term? then r.rhs[0].t else End
  }

  predicate Starter(r: Rule) {
    r.rhs != [] && r.rhs[0].Term?
  }

  // The terminal a parenthesised rule ends with.
  function Closer(r: Rule): Terminal {
    if |r.rhs| == 3 && r.rhs[2].Term? then r.rhs[2].t else End
  }

  // `e -> e op e`, of the level and associativity of `op`.
  predicate IsBinary(r: Rule, e: NonTerminal, code: Codes, tbl: OpTable) {
    && r.rhs == [NonTerm(e), Term(Sign(r)), NonTerm(e)] && Sign(r) in code && CodeOf(code, Sign(r)) in tbl.binary
    && r.prec == Some(Prec(if RightAssoc(tbl, CodeOf(code, Sign(r))) then Right else Left, Some(Level(tbl, CodeOf(code, Sign(r))))))
  }

  // `e -> op e`, right-associative on the level above all others.
  predicate IsPrefix(r: Rule, e: NonTerminal, code: Codes, tbl: OpTable) {
    && r.rhs == [Term(Sign(r)), NonTerm(e)] && Sign(r) in code && CodeOf(code, Sign(r)) in tbl.prefixes
    && r.prec == Some(Prec(Right, Some(tbl.tight)))
  }

  // `e -> ( e )`.
  predicate IsGroup(r: Rule, e: NonTerminal, code: Codes, tbl: OpTable) {
    && r.rhs == [Term(Sign(r)), NonTerm(e), Term(Closer(r))] && Sign(r) in code && Closer(r) in code
    && CodeOf(code, Sign(r)) == tbl.open && CodeOf(code, Closer(r)) == tbl.close && r.prec == None
  }

  // `e -> operand`.
  predicate IsOperand(r: Rule, code: Codes, tbl: OpTable) {
    && r.rhs == [Term(Sign(r))] && Sign(r) in code && CodeOf(code, Sign(r)) !in tbl.prefixes && CodeOf(code, Sign(r)) != tbl.open
    && r.prec == None
  }

  function StartName(g: Grammar): NonTerminal {
    if g != [] && g[0].rhs != [] && g[0].rhs[0].NonTerm? then g[0].rhs[0].n else Accept
  }

  ghost predicate RulesShaped(g: Grammar, code: Codes, tbl: OpTable) {
    forall r | 1 <= r < |g| :: RuleShaped(g, code, tbl, r)
  }

  predicate RuleShaped(g: Grammar, code: Codes, tbl: OpTable, r: nat) {
    && r < |g| && g[r].lhs == StartName(g) && g[r].peek == 0
    && (IsBinary(g[r], StartName(g), code, tbl) || IsPrefix(g[r], StartName(g), code, tbl)
        || IsGroup(g[r], StartName(g), code, tbl) || IsOperand(g[r], code, tbl))
  }

  ghost predicate SignsDiffer(g: Grammar) {
    forall q, r | 1 <= q < |g| && 1 <= r < |g| && Sign(g[q]) == Sign(g[r]) && Starter(g[q]) == Starter(g[r]) :: q == r
  }

  ghost predicate OperatorGrammar(g: Grammar, code: Codes, tbl: OpTable) {
    && WellFormed(g) && g[0].prec == None && TableOk(tbl) && RulesShaped(g, code, tbl) && SignsDiffer(g)
    && (forall x, y | x in code && y in code && code[x] == code[y] :: x == y)
  }

  // The four forms of rules, by the shape of their right-hand sides.
  predicate Infix(g: Grammar, r: nat) {
    0 < r < |g| && |g[r].rhs| == 3 && g[r].rhs[0].NonTerm?
  }

  predicate Bracket(g: Grammar, r: nat) {
    0 < r < |g| && |g[r].rhs| == 3 && g[r].rhs[0].Term?
  }

  lemma ShapeOf(g: Grammar, code: Codes, tbl: OpTable, r: nat)
    requires OperatorGrammar(g, code, tbl) && r < |g|
    ensures g[0].rhs == [NonTerm(StartName(g)), Term(End)] && StartName(g) != Accept && g[0].lhs == Accept
    ensures r > 0 ==> RuleShaped(g, code, tbl, r) && 1 <= |g[r].rhs| <= 3
    ensures r > 0 && |g[r].rhs| == 1 ==> IsOperand(g[r], code, tbl)
    ensures r > 0 && |g[r].rhs| == 2 ==> IsPrefix(g[r], StartName(g), code, tbl)
    ensures Infix(g, r) ==> IsBinary(g[r], StartName(g), code, tbl)
    ensures Bracket(g, r) ==> IsGroup(g[r], StartName(g), code, tbl)
    ensures r > 0 ==> Sign(g[r]) != End && Sign(g[r]) in code
    ensures Bracket(g, r) ==> Closer(g[r]) != End
  {
    hide SignsDiffer, TableOk;
    if r > 0 {
      assert RuleShaped(g, code, tbl, r);
      forall i | 0 <= i < |g[r].rhs| ensures g[r].rhs[i] != Term(End) { assert g[r].rhs[i] != Term(End); }
    }
  }

  // What comes first in a rule.
  lemma FirstSymbol(g: Grammar, code: Codes, tbl: OpTable, r: nat)
    requires OperatorGrammar(g, code, tbl) && r < |g|
    ensures g[r].rhs != []
    ensures g[r].rhs[0] == NonTerm(StartName(g)) <==> r == 0 || Infix(g, r)
    ensures g[r].rhs[0] != NonTerm(StartName(g)) ==> r > 0 && Starter(g[r]) && g[r].rhs[0] == Term(Sign(g[r]))
  {
    hide OperatorGrammar;
    ShapeOf(g, code, tbl, r);
  }

  // ----- the states -----

  // The item of `outer` that waits for its last operand, and the one after it.
  function Hole(g: Grammar, outer: nat): Item {
    Item(outer, if Infix(g, outer) then 2 else 1)
  }

  function Filled(g: Grammar, outer: nat): Item {
    Item(outer, if Infix(g, outer) then 3 else 2)
  }

  // Where an operand is called for: at the start, or as the last operand of `outer`.
  ghost predicate Base(g: Grammar, a: Automaton, s: nat, outer: nat) {
    && s < |a.states| && outer < |g| && (outer > 0 ==> |g[outer].rhs| > 1)
    && forall it | it in a.states[s] :: it.rule < |g| && (if it.dot == 0 then outer > 0 ==> it.rule > 0 else outer > 0 && it == Hole(g, outer))
  }

  // After an operand.
  ghost predicate Done(g: Grammar, a: Automaton, s: nat, outer: nat) {
    && s < |a.states| && outer < |g| && (outer > 0 ==> |g[outer].rhs| > 1)
    && forall it | it in a.states[s] :: it.rule < |g| &&
         ((it.dot == 1 && ((it.rule == 0 && outer == 0) || Infix(g, it.rule))) || (outer > 0 && it == Filled(g, outer)))
  }

  lemma NothingCalled(g: Grammar, kernel: set<Item>, s: set<Item>)
    requires IsClosure(g, kernel, s) && forall it | it in kernel :: !(Next(g, it).Some? && Next(g, it).value.NonTerm?)
    ensures s == kernel
  {
    assert ClosedUnder(g, kernel);
  }

  // Where the items of a state come from.
  lemma CameFrom(g: Grammar, a: Automaton, s: nat, x: Symbol, it: Item)
    requires AutomatonOk(g, a) && s < |a.states| && x in a.trans[s] && a.trans[s][x] < |a.states| && it in a.states[a.trans[s][x]]
    requires it.dot != 0
    ensures Item(it.rule, it.dot - 1) in a.states[s] && Next(g, Item(it.rule, it.dot - 1)) == Some(x)
  {
    hide RowsOk, StatesOk, AllDiscovered, ClosedUnder;
    TransitionOk(g, a, s, x);
    var k := Kernel(g, Items(a.states[s]), x);
    assert it in Items(a.states[a.trans[s][x]]);
    InKernel(g, k, Items(a.states[a.trans[s][x]]), it);
  }

  lemma InKernel(g: Grammar, kernel: set<Item>, s: set<Item>, it: Item)
    requires IsClosure(g, kernel, s) && it in s && it.dot != 0
    ensures it in kernel
  {
    assert it in kernel || CalledIn(g, s, it);
  }

  // No rule begins after an operand, nor after a token that ends one.
  lemma NoneBegins(g: Grammar, a: Automaton, s: nat, x: Symbol, it: Item)
    requires AutomatonOk(g, a) && s < |a.states| && x in a.trans[s] && a.trans[s][x] < |a.states| && it in a.states[a.trans[s][x]]
    requires forall p | p in a.states[s] && Next(g, p) == Some(x) :: !(Next(g, Advance(p)).Some? && Next(g, Advance(p)).value.NonTerm?)
    ensures it.dot != 0
  {
    hide RowsOk, StatesOk, AllDiscovered, ClosedUnder, IsClosure;
    TransitionOk(g, a, s, x);
    var k := Kernel(g, Items(a.states[s]), x);
    NothingCalled(g, k, Items(a.states[a.trans[s][x]]));
    assert it in Items(a.states[a.trans[s][x]]);
  }

  lemma ItemInside(g: Grammar, a: Automaton, s: nat, it: Item)
    requires AutomatonOk(g, a) && s < |a.states| && it in a.states[s]
    ensures ItemOk(g, it)
  {
    assert StateOk(g, a.states[s]);
    assert it in Items(a.states[s]);
  }

  lemma StartBase(g: Grammar, code: Codes, tbl: OpTable, a: Automaton)
    requires OperatorGrammar(g, code, tbl) && AutomatonOk(g, a)
    ensures Base(g, a, 0, 0)
  {
    hide OperatorGrammar, RowsOk, AllDiscovered, ClosedUnder;
    forall it | it in a.states[0] ensures it.rule < |g| && it.dot == 0 {
      ItemInside(g, a, 0, it);
      assert it in Items(a.states[0]);
      if it != Item(0, 0) { assert CalledIn(g, Items(a.states[0]), it); }
    }
  }

  lemma HoleShape(g: Grammar, code: Codes, tbl: OpTable, outer: nat)
    requires OperatorGrammar(g, code, tbl) && 0 < outer < |g| && |g[outer].rhs| > 1
    ensures Next(g, Hole(g, outer)) == Some(NonTerm(StartName(g))) && Advance(Hole(g, outer)) == Filled(g, outer)
    ensures Next(g, Filled(g, outer)) == if Bracket(g, outer) then Some(Term(Closer(g[outer]))) else None
    ensures Hole(g, outer).dot > 0 && ItemOk(g, Filled(g, outer))
    ensures Filled(g, outer).dot == |g[outer].rhs| <==> !Bracket(g, outer)
  {
    hide OperatorGrammar;
    ShapeOf(g, code, tbl, outer);
  }

  lemma OperandDone(g: Grammar, code: Codes, tbl: OpTable, a: Automaton, s: nat, outer: nat, q: nat)
    requires OperatorGrammar(g, code, tbl) && AutomatonOk(g, a) && Base(g, a, s, outer) && Linked(a, s, NonTerm(StartName(g)), q)
    ensures Done(g, a, q, outer)
  {
    hide OperatorGrammar, RowsOk, AllDiscovered, ClosedUnder, AutomatonOk, Hole, Filled;
    var x := NonTerm(StartName(g));
    TransitionBound(g, a);
    SameSizes(g, a);
    if outer > 0 { HoleShape(g, code, tbl, outer); }
    forall p | p in a.states[s] && Next(g, p) == Some(x) ensures !(Next(g, Advance(p)).Some? && Next(g, Advance(p)).value.NonTerm?) {
      ShapeOf(g, code, tbl, p.rule);
    }
    forall it | it in a.states[q]
      ensures it.rule < |g| && ((it.dot == 1 && ((it.rule == 0 && outer == 0) || Infix(g, it.rule))) || (outer > 0 && it == Filled(g, outer)))
    {
      ItemInside(g, a, q, it);
      NoneBegins(g, a, s, x, it);
      CameFrom(g, a, s, x, it);
      FirstSymbol(g, code, tbl, it.rule);
      if it.dot > 1 { assert Item(it.rule, it.dot - 1) == Hole(g, outer); assert it == Advance(Hole(g, outer)); }
    }
  }

  // After a binary operator.
  lemma OperatorBase(g: Grammar, code: Codes, tbl: OpTable, a: Automaton, s: nat, outer: nat, r: nat, q: nat)
    requires OperatorGrammar(g, code, tbl) && AutomatonOk(g, a) && Done(g, a, s, outer) && Infix(g, r) && Linked(a, s, Term(Sign(g[r])), q)
    ensures Base(g, a, q, r)
  {
    hide OperatorGrammar, RowsOk, AllDiscovered, ClosedUnder, AutomatonOk, Filled;
    var x := Term(Sign(g[r]));
    TransitionBound(g, a);
    SameSizes(g, a);
    ShapeOf(g, code, tbl, r);
    forall it | it in a.states[q] ensures it.rule < |g| && if it.dot == 0 then it.rule > 0 else it == Hole(g, r) {
      ItemInside(g, a, q, it);
      if it.dot == 0 {
        NotStart(g, code, tbl, a, s, x, it);
      } else {
        CameFrom(g, a, s, x, it);
        OperatorItem(g, code, tbl, a, s, outer, r, Item(it.rule, it.dot - 1));
      }
    }
  }

  // The one item that can move over a binary operator.
  lemma OperatorItem(g: Grammar, code: Codes, tbl: OpTable, a: Automaton, s: nat, outer: nat, r: nat, p: Item)
    requires OperatorGrammar(g, code, tbl) && Done(g, a, s, outer) && Infix(g, r) && p in a.states[s] && Next(g, p) == Some(Term(Sign(g[r])))
    ensures p == Item(r, 1)
  {
    hide OperatorGrammar, Filled;
    ShapeOf(g, code, tbl, r);
    ShapeOf(g, code, tbl, p.rule);
    if outer > 0 {
      HoleShape(g, code, tbl, outer);
      ShapeOf(g, code, tbl, outer);
      CloseIsNone(g, code, tbl, outer, r);
    }
    SameSign(g, code, tbl, p.rule, r);
  }

  lemma CloseIsNone(g: Grammar, code: Codes, tbl: OpTable, outer: nat, r: nat)
    requires OperatorGrammar(g, code, tbl) && 0 < outer < |g| && Infix(g, r)
    ensures Bracket(g, outer) ==> Closer(g[outer]) != Sign(g[r])
  {
    hide RulesShaped, SignsDiffer, WellFormed;
    ShapeOf(g, code, tbl, outer);
    ShapeOf(g, code, tbl, r);
  }

  // After the beginning of a prefix or parenthesised operand.
  lemma StarterBase(g: Grammar, code: Codes, tbl: OpTable, a: Automaton, s: nat, outer: nat, r: nat, q: nat)
    requires OperatorGrammar(g, code, tbl) && AutomatonOk(g, a) && Base(g, a, s, outer)
    requires 0 < r < |g| && |g[r].rhs| > 1 && Starter(g[r]) && Linked(a, s, Term(Sign(g[r])), q)
    ensures Base(g, a, q, r)
  {
    hide OperatorGrammar, RowsOk, AllDiscovered, ClosedUnder, AutomatonOk;
    var x := Term(Sign(g[r]));
    TransitionBound(g, a);
    SameSizes(g, a);
    forall it | it in a.states[q] ensures it.rule < |g| && if it.dot == 0 then it.rule > 0 else it == Hole(g, r) {
      ItemInside(g, a, q, it);
      if it.dot == 0 {
        NotStart(g, code, tbl, a, s, x, it);
      } else {
        CameFrom(g, a, s, x, it);
        StarterItem(g, code, tbl, a, s, outer, r, Item(it.rule, it.dot - 1));
      }
    }
  }

  // The one item that can move over what an operand begins with.
  lemma StarterItem(g: Grammar, code: Codes, tbl: OpTable, a: Automaton, s: nat, outer: nat, r: nat, p: Item)
    requires OperatorGrammar(g, code, tbl) && Base(g, a, s, outer) && 0 < r < |g| && Starter(g[r])
    requires p in a.states[s] && Next(g, p) == Some(Term(Sign(g[r])))
    ensures p == Item(r, 0)
  {
    hide OperatorGrammar, Hole;
    if outer > 0 { HoleShape(g, code, tbl, outer); }
    FirstSymbol(g, code, tbl, p.rule);
    SameSign(g, code, tbl, p.rule, r);
  }

  // Only the start state holds the start item.
  lemma NotStart(g: Grammar, code: Codes, tbl: OpTable, a: Automaton, s: nat, x: Symbol, it: Item)
    requires OperatorGrammar(g, code, tbl) && AutomatonOk(g, a) && s < |a.states| && x in a.trans[s] && a.trans[s][x] < |a.states|
    requires it in a.states[a.trans[s][x]] && it.dot == 0
    ensures it.rule > 0
  {
    hide OperatorGrammar, RowsOk, StatesOk, AllDiscovered, ClosedUnder;
    TransitionOk(g, a, s, x);
    var k := Kernel(g, Items(a.states[s]), x);
    var all := Items(a.states[a.trans[s][x]]);
    assert it in all && it !in k;
    assert CalledIn(g, all, it);
    var p :| p in all && Calls(g, p, it.rule);
    ItemInside(g, a, a.trans[s][x], p);
    GrammarFits(g, code, tbl);
    AcceptNeverCalled(g, p);
    ShapeOf(g, code, tbl, 0);
  }

  lemma GrammarFits(g: Grammar, code: Codes, tbl: OpTable)
    requires OperatorGrammar(g, code, tbl)
    ensures WellFormed(g) && |g| > 0
  {
    hide SignsDiffer, TableOk, RulesShaped;
  }

  lemma SameSign(g: Grammar, code: Codes, tbl: OpTable, q: nat, r: nat)
    requires OperatorGrammar(g, code, tbl) && q < |g| && 0 < r < |g|
    ensures q > 0 && Sign(g[q]) == Sign(g[r]) && Starter(g[q]) == Starter(g[r]) ==> q == r
  {
  }

  // After the token of an operand, there is one thing to do.
  lemma TokenDone(g: Grammar, code: Codes, tbl: OpTable, a: Automaton, s: nat, outer: nat, r: nat, q: nat, it: Item)
    requires OperatorGrammar(g, code, tbl) && AutomatonOk(g, a) && Base(g, a, s, outer)
    requires 0 < r < |g| && |g[r].rhs| == 1 && Linked(a, s, Term(Sign(g[r])), q) && q < |a.states| && it in a.states[q]
    ensures it == Item(r, 1)
  {
    hide OperatorGrammar, RowsOk, AllDiscovered, ClosedUnder, AutomatonOk, Base;
    var x := Term(Sign(g[r]));
    SameSizes(g, a);
    BaseInside(g, a, s, outer);
    ShapeOf(g, code, tbl, r);
    forall p | p in a.states[s] && Next(g, p) == Some(x) ensures !(Next(g, Advance(p)).Some? && Next(g, Advance(p)).value.NonTerm?) {
      StarterItem(g, code, tbl, a, s, outer, r, p);
    }
    NoneBegins(g, a, s, x, it);
    CameFrom(g, a, s, x, it);
    StarterItem(g, code, tbl, a, s, outer, r, Item(it.rule, it.dot - 1));
  }

  lemma BaseInside(g: Grammar, a: Automaton, s: nat, outer: nat)
    requires Base(g, a, s, outer)
    ensures s < |a.states| && outer < |g| && (outer > 0 ==> |g[outer].rhs| > 1)
  {
  }

  // After a closing parenthesis too.
  lemma CloseDone(g: Grammar, code: Codes, tbl: OpTable, a: Automaton, s: nat, r: nat, q: nat, it: Item)
    requires OperatorGrammar(g, code, tbl) && AutomatonOk(g, a) && Done(g, a, s, r)
    requires Bracket(g, r) && Linked(a, s, Term(Closer(g[r])), q) && q < |a.states| && it in a.states[q]
    ensures it == Item(r, 3)
  {
    hide OperatorGrammar, RowsOk, AllDiscovered, ClosedUnder, AutomatonOk, Done;
    var x := Term(Closer(g[r]));
    SameSizes(g, a);
    DoneInside(g, a, s, r);
    forall p | p in a.states[s] && Next(g, p) == Some(x) ensures !(Next(g, Advance(p)).Some? && Next(g, Advance(p)).value.NonTerm?) {
      CloseItem(g, code, tbl, a, s, r, p);
    }
    NoneBegins(g, a, s, x, it);
    CameFrom(g, a, s, x, it);
    CloseItem(g, code, tbl, a, s, r, Item(it.rule, it.dot - 1));
  }

  lemma DoneInside(g: Grammar, a: Automaton, s: nat, outer: nat)
    requires Done(g, a, s, outer)
    ensures s < |a.states| && outer < |g| && (outer > 0 ==> |g[outer].rhs| > 1)
  {
  }

  lemma CloseItem(g: Grammar, code: Codes, tbl: OpTable, a: Automaton, s: nat, r: nat, p: Item)
    requires OperatorGrammar(g, code, tbl) && Done(g, a, s, r) && Bracket(g, r) && p in a.states[s] && Next(g, p) == Some(Term(Closer(g[r])))
    ensures p == Item(r, 2)
  {
    hide OperatorGrammar;
    ShapeOf(g, code, tbl, p.rule);
    if Infix(g, p.rule) { CloseIsNone(g, code, tbl, r, p.rule); }
  }

  // ----- the entries -----

  lemma {:induction false} ShiftPrecIs(g: Grammar, items: seq<Item>, t: Terminal, it: Item, r: nat)
    requires it in items && Next(g, it) == Some(Term(t))
    requires forall p | p in items && Next(g, p) == Some(Term(t)) :: p.rule == r
    ensures ShiftPrec(g, items, t) == PrecOf(g, r)
    decreases |items|
  {
    if Next(g, items[0]) != Some(Term(t)) {
      assert it in items[1..];
      ShiftPrecIs(g, items[1..], t, it, r);
    } else {
      assert items[0] in items;
    }
  }

  lemma ReducesOnly(g: Grammar, m: Mode, s: nat, items: seq<Item>, t: Terminal, r: nat)
    requires Distinct(items) && (forall it | it in items :: ItemOk(g, it))
    requires forall it | it in items && it.rule < |g| && it.dot == |g[it.rule].rhs| && g[it.rule].lhs != Accept :: it.rule == r
    ensures Reduces(g, m, s, items, t) == [] || Reduces(g, m, s, items, t) == [ReduceBy(r)]
  {
    hide Reduces;
    var rs := Reduces(g, m, s, items, t);
    ReducesDistinct(g, m, s, items, t);
    forall x | x in rs ensures x == ReduceBy(r) { ReducesExact(g, m, s, items, t, x); }
    OneAtMost(rs, ReduceBy(r));
  }

  lemma OneAtMost(rs: seq<Action>, x: Action)
    requires Distinct(rs) && forall y | y in rs :: y == x
    ensures rs == [] || rs == [x]
  {
    if rs != [] {
      assert rs[0] in rs && rs[|rs| - 1] in rs;
      assert rs[0] == rs[|rs| - 1];
    }
  }

  // What the table holds is what was settled.
  lemma SettledChoice(g: Grammar, a: Automaton, m: Mode, pt: ParseTables, s: nat, t: Terminal)
    requires TablesOk(g, a, m, pt) && s < |a.states| && Incoming(g, a, m, s, t) != []
    ensures Choices(pt, s, t) == Alternatives(Settle(g, Incoming(g, a, m, s, t), ShiftPrec(g, a.states[s], t)))
  {
    hide GotoFilled, Incoming, ShiftPrec, Settle;
    assert RowDone(g, a, m, s, pt.action[s]);
    assert EntryIs(g, pt.action[s], t, Incoming(g, a, m, s, t), ShiftPrec(g, a.states[s], t));
  }

  // `r` may be shifted where `outer` could be reduced.
  ghost predicate Takes(g: Grammar, code: Codes, tbl: OpTable, r: nat, outer: nat)
    requires r < |g| && outer < |g|
  {
    outer == 0 || Bracket(g, outer) || (Infix(g, outer) && RightFits(tbl, CodeOf(code, Sign(g[r])), CodeOf(code, Sign(g[outer]))))
  }

  /** A shift meets at most the reduction by `outer`, and wins when `r` binds to the right of it. */
  lemma ShiftWins(g: Grammar, code: Codes, tbl: OpTable, a: Automaton, m: Mode, pt: ParseTables, s: nat, outer: nat, r: nat, q: nat)
    requires OperatorGrammar(g, code, tbl) && AutomatonOk(g, a) && TablesOk(g, a, m, pt) && Done(g, a, s, outer)
    requires Infix(g, r) && Linked(a, s, Term(Sign(g[r])), q) && Item(r, 1) in a.states[s]
    requires Takes(g, code, tbl, r, outer)
    ensures Choices(pt, s, Sign(g[r])) == [ShiftTo(q)]
  {
    hide OperatorGrammar, AutomatonOk, TablesOk, Choices, Reduces, ShiftPrec;
    var t := Sign(g[r]);
    ShapeOf(g, code, tbl, r);
    if outer > 0 { ShapeOf(g, code, tbl, outer); }
    SameSizes(g, a);
    DoneCompletes(g, code, tbl, a, s, outer);
    ReducesOnly(g, m, s, a.states[s], t, outer);
    DoneShifts(g, code, tbl, a, s, outer, r);
    ShiftPrecIs(g, a.states[s], t, Item(r, 1), r);
    assert ShiftAction(a, s, t) == [ShiftTo(q)];
    SettledChoice(g, a, m, pt, s, t);
    TableFacts(g, code, tbl);
    if Reduces(g, m, s, a.states[s], t) != [] {
      NoReduceAtStart(g, m, s, a.states[s], t);
      NoReduceInside(g, code, tbl, a, m, s, outer, t);
      SettleTwo(g, [ShiftTo(q), ReduceBy(outer)], PrecOf(g, r));
    }
  }

  lemma TableFacts(g: Grammar, code: Codes, tbl: OpTable)
    requires OperatorGrammar(g, code, tbl)
    ensures TableOk(tbl)
  {
    hide TableOk;
  }

  lemma DoneCompletes(g: Grammar, code: Codes, tbl: OpTable, a: Automaton, s: nat, outer: nat)
    requires OperatorGrammar(g, code, tbl) && AutomatonOk(g, a) && Done(g, a, s, outer)
    ensures Distinct(a.states[s]) && (forall it | it in a.states[s] :: ItemOk(g, it))
    ensures forall it | it in a.states[s] && it.dot == |g[it.rule].rhs| :: it.rule == outer && (outer > 0 ==> !Bracket(g, outer))
  {
    hide OperatorGrammar, RowsOk, AllDiscovered, ClosedUnder;
    assert StateOk(g, a.states[s]);
    forall it | it in a.states[s] ensures ItemOk(g, it) { ItemInside(g, a, s, it); }
    if outer > 0 { HoleShape(g, code, tbl, outer); }
    forall it | it in a.states[s] && it.dot == |g[it.rule].rhs| ensures it.rule == outer && (outer > 0 ==> !Bracket(g, outer)) {
      ShapeOf(g, code, tbl, it.rule);
    }
  }

  // Inside parentheses nothing is complete.
  lemma NoReduceInside(g: Grammar, code: Codes, tbl: OpTable, a: Automaton, m: Mode, s: nat, outer: nat, t: Terminal)
    requires OperatorGrammar(g, code, tbl) && AutomatonOk(g, a) && Done(g, a, s, outer)
    ensures Bracket(g, outer) ==> Reduces(g, m, s, a.states[s], t) == []
  {
    hide OperatorGrammar, AutomatonOk, Reduces;
    if Bracket(g, outer) {
      DoneCompletes(g, code, tbl, a, s, outer);
      forall it | it in a.states[s] ensures !ReducesOn(g, m, s, it, t) { }
      NoReductions(g, m, s, a.states[s], t);
    }
  }

  lemma DoneShifts(g: Grammar, code: Codes, tbl: OpTable, a: Automaton, s: nat, outer: nat, r: nat)
    requires OperatorGrammar(g, code, tbl) && Done(g, a, s, outer) && Infix(g, r)
    ensures forall p | p in a.states[s] && Next(g, p) == Some(Term(Sign(g[r]))) :: p.rule == r
    ensures Next(g, Item(r, 1)) == Some(Term(Sign(g[r])))
  {
    hide OperatorGrammar;
    ShapeOf(g, code, tbl, r);
    forall p | p in a.states[s] && Next(g, p) == Some(Term(Sign(g[r]))) ensures p.rule == r {
      OperatorItem(g, code, tbl, a, s, outer, r, p);
    }
  }

  lemma NoReduceAtStart(g: Grammar, m: Mode, s: nat, items: seq<Item>, t: Terminal)
    requires g != [] && g[0].lhs == Accept
    ensures ReduceBy(0) !in Reduces(g, m, s, items, t)
  {
    hide Reduces;
    ReducesExact(g, m, s, items, t, ReduceBy(0));
  }

  // `t` does not take the operand to the right of rule `r`: it ends an expression, or binds less.
  ghost predicate GivesWay(g: Grammar, code: Codes, tbl: OpTable, r: nat, t: Terminal)
    requires r < |g|
  {
    t == End || (t in code && (CodeOf(code, t) == tbl.close ||
      (CodeOf(code, t) in tbl.binary && (Infix(g, r) ==> LeftFits(tbl, CodeOf(code, Sign(g[r])), CodeOf(code, t))))))
  }

  /** A reduction meets at most a shift, and wins when the operator that would be shifted gives way to it. */
  lemma ReduceWins(g: Grammar, code: Codes, tbl: OpTable, a: Automaton, m: Mode, pt: ParseTables, s: nat, r: nat, t: Terminal)
    requires OperatorGrammar(g, code, tbl) && AutomatonOk(g, a) && TablesOk(g, a, m, pt) && Done(g, a, s, r)
    requires 0 < r < |g| && !Bracket(g, r) && Filled(g, r) in a.states[s] && t in Ahead(g, m, s, Filled(g, r))
    requires GivesWay(g, code, tbl, r, t)
    ensures Choices(pt, s, t) == [ReduceBy(r)]
  {
    hide OperatorGrammar, AutomatonOk, TablesOk, Choices, Reduces, ShiftPrec, Filled;
    DoneInside(g, a, s, r);
    ShapeOf(g, code, tbl, r);
    HoleShape(g, code, tbl, r);
    SameSizes(g, a);
    DoneCompletes(g, code, tbl, a, s, r);
    ReducesOnly(g, m, s, a.states[s], t, r);
    ReducesExact(g, m, s, a.states[s], t, ReduceBy(r));
    FilledRule(g, r);
    assert ReducesOn(g, m, s, Filled(g, r), t);
    SettledChoice(g, a, m, pt, s, t);
    if Term(t) in a.trans[s] {
      var it := Shifter(g, a, s, t);
      ShiftedIs(g, code, tbl, a, s, r, it, t);
      DoneShifts(g, code, tbl, a, s, r, it.rule);
      ShiftPrecIs(g, a.states[s], t, it, it.rule);
      SettleTwo(g, [ShiftTo(a.trans[s][Term(t)]), ReduceBy(r)], PrecOf(g, it.rule));
      Outranks(g, code, tbl, r, it.rule);
    }
  }

  lemma FilledRule(g: Grammar, r: nat)
    ensures Filled(g, r).rule == r
  {
  }

  // Where an operand is complete, only a binary operator could be shifted.
  lemma ShiftedIs(g: Grammar, code: Codes, tbl: OpTable, a: Automaton, s: nat, r: nat, it: Item, t: Terminal)
    requires OperatorGrammar(g, code, tbl) && Done(g, a, s, r) && 0 < r < |g| && !Bracket(g, r) && it in a.states[s] && Next(g, it) == Some(Term(t))
    ensures Infix(g, it.rule) && t == Sign(g[it.rule]) && t != End && t in code && CodeOf(code, t) in tbl.binary && CodeOf(code, t) != tbl.close
  {
    hide OperatorGrammar, Filled;
    HoleShape(g, code, tbl, r);
    ShapeOf(g, code, tbl, it.rule);
    TableFacts(g, code, tbl);
  }

  // How the reduction and the shift compare.
  lemma Outranks(g: Grammar, code: Codes, tbl: OpTable, r: nat, x: nat)
    requires OperatorGrammar(g, code, tbl) && 0 < r < |g| && |g[r].rhs| > 1 && !Bracket(g, r) && Infix(g, x)
    requires Infix(g, r) ==> LeftFits(tbl, CodeOf(code, Sign(g[r])), CodeOf(code, Sign(g[x])))
    ensures forall q: nat :: Resolve(g, ShiftTo(q), ReduceBy(r), PrecOf(g, x)).0 == ReduceBy(r)
  {
    hide OperatorGrammar;
    ShapeOf(g, code, tbl, r);
    ShapeOf(g, code, tbl, x);
    TableFacts(g, code, tbl);
  }

  lemma Shifter(g: Grammar, a: Automaton, s: nat, t: Terminal) returns (it: Item)
    requires AutomatonOk(g, a) && s < |a.states| && Term(t) in a.trans[s]
    ensures it in a.states[s] && Next(g, it) == Some(Term(t))
  {
    hide StatesOk, AllDiscovered;
    assert RowOk(g, a.states, a.trans[s], s);
    it :| it in Items(a.states[s]) && Next(g, it) == Some(Term(t));
  }

  // Where an operand is called for, its token is shifted.
  lemma TokenShifts(g: Grammar, code: Codes, tbl: OpTable, a: Automaton, m: Mode, pt: ParseTables, s: nat, outer: nat, r: nat, q: nat)
    requires OperatorGrammar(g, code, tbl) && AutomatonOk(g, a) && TablesOk(g, a, m, pt) && Base(g, a, s, outer)
    requires 0 < r < |g| && Starter(g[r]) && Linked(a, s, Term(Sign(g[r])), q)
    ensures Choices(pt, s, Sign(g[r])) == [ShiftTo(q)]
  {
    hide OperatorGrammar, AutomatonOk, TablesOk, Choices, Reduces, ShiftPrec;
    var t := Sign(g[r]);
    ShapeOf(g, code, tbl, r);
    SameSizes(g, a);
    if outer > 0 { HoleShape(g, code, tbl, outer); }
    forall it | it in a.states[s] ensures !ReducesOn(g, m, s, it, t) { ShapeOf(g, code, tbl, it.rule); }
    NoReductions(g, m, s, a.states[s], t);
    SettledChoice(g, a, m, pt, s, t);
  }

  // A parenthesis is closed where it can be.
  lemma CloseShifts(g: Grammar, code: Codes, tbl: OpTable, a: Automaton, m: Mode, pt: ParseTables, s: nat, r: nat, q: nat)
    requires OperatorGrammar(g, code, tbl) && AutomatonOk(g, a) && TablesOk(g, a, m, pt) && Done(g, a, s, r)
    requires Bracket(g, r) && Linked(a, s, Term(Closer(g[r])), q)
    ensures Choices(pt, s, Closer(g[r])) == [ShiftTo(q)]
  {
    hide OperatorGrammar, AutomatonOk, TablesOk, Choices, Reduces, ShiftPrec;
    ShapeOf(g, code, tbl, r);
    SameSizes(g, a);
    NoReduceInside(g, code, tbl, a, m, s, r, Closer(g[r]));
    SettledChoice(g, a, m, pt, s, Closer(g[r]));
  }

  lemma {:induction false} NoReductions(g: Grammar, m: Mode, s: nat, items: seq<Item>, t: Terminal)
    requires forall it | it in items :: !ReducesOn(g, m, s, it, t)
    ensures Reduces(g, m, s, items, t) == []
  {
    if items != [] {
      assert items[|items| - 1] in items;
      NoReductions(g, m, s, items[..|items| - 1], t);
    }
  }

  // A state with one complete item reduces, whatever comes.
  lemma OnlyReduces(g: Grammar, code: Codes, tbl: OpTable, a: Automaton, m: Mode, pt: ParseTables, s: nat, r: nat, t: Terminal)
    requires OperatorGrammar(g, code, tbl) && AutomatonOk(g, a) && TablesOk(g, a, m, pt) && s < |a.states|
    requires 0 < r < |g| && Item(r, |g[r].rhs|) in a.states[s] && t in Ahead(g, m, s, Item(r, |g[r].rhs|))
    requires forall it | it in a.states[s] :: it == Item(r, |g[r].rhs|)
    ensures Choices(pt, s, t) == [ReduceBy(r)]
  {
    hide OperatorGrammar, AutomatonOk, TablesOk, Choices, Reduces, ShiftPrec;
    ShapeOf(g, code, tbl, r);
    SameSizes(g, a);
    StatesDistinct(g, a, s);
    ReducesOnly(g, m, s, a.states[s], t, r);
    ReducesExact(g, m, s, a.states[s], t, ReduceBy(r));
    assert ReducesOn(g, m, s, Item(r, |g[r].rhs|), t);
    SettledChoice(g, a, m, pt, s, t);
    if Term(t) in a.trans[s] { var it := Shifter(g, a, s, t); }
  }

  lemma StatesDistinct(g: Grammar, a: Automaton, s: nat)
    requires AutomatonOk(g, a) && s < |a.states|
    ensures Distinct(a.states[s]) && forall it | it in a.states[s] :: ItemOk(g, it)
  {
    assert StateOk(g, a.states[s]);
    forall it | it in a.states[s] ensures ItemOk(g, it) { ItemInside(g, a, s, it); }
  }

  // ----- building a tree -----

  function ExprOf(code: Codes, t: Tree): Expr {
    match t
    case Leaf(tok) => Operand(CodeOf(code, tok.kind))
    case Node(_, _, kids) =>
      if |kids| == 3 && kids[1].Leaf? then Binary(CodeOf(code, kids[1].tok.kind), ExprOf(code, kids[0]), ExprOf(code, kids[2]))
      else if |kids| == 3 then Group(ExprOf(code, kids[1]))
      else if |kids| == 2 && kids[0].Leaf? then Prefix(CodeOf(code, kids[0].tok.kind), ExprOf(code, kids[1]))
      else if |kids| == 1 then ExprOf(code, kids[0]) else Operand(0)
    case Both(l, _) => ExprOf(code, l)
  }

  // `e` may be the last operand of `outer`.
  ghost predicate OuterFits(g: Grammar, code: Codes, tbl: OpTable, e: Expr, outer: nat)
    requires outer < |g|
  {
    outer == 0 || Bracket(g, outer) || (if Infix(g, outer) then AllRight(tbl, e, CodeOf(code, Sign(g[outer]))) else !e.Binary?)
  }

  // `t` ends an expression, or everything in `e` may stand to its left.
  ghost predicate AllGiveWay(code: Codes, tbl: OpTable, e: Expr, t: Terminal) {
    t == End || (t in code && (CodeOf(code, t) == tbl.close || (CodeOf(code, t) in tbl.binary && AllLeft(tbl, e, CodeOf(code, t)))))
  }

  // A tree of operator rules that respects precedence.
  ghost predicate Respects(g: Grammar, code: Codes, tbl: OpTable, t: Tree) {
    Ordered(tbl, ExprOf(code, t)) && Operators.Named(tbl, ExprOf(code, t))
  }

  // A node that is an operand somewhere.
  ghost predicate Operandly(g: Grammar, t: Tree) {
    t.Node? && 0 < t.rule < |g| && g[t.rule].lhs == StartName(g) && Derives(g, t, NonTerm(g[t.rule].lhs)) && Plain(t)
  }

  lemma OperandNode(g: Grammar, code: Codes, tbl: OpTable, t: Tree)
    requires OperatorGrammar(g, code, tbl) && Derives(g, t, NonTerm(StartName(g))) && Plain(t)
    ensures Operandly(g, t)
  {
    hide OperatorGrammar;
    GrammarFits(g, code, tbl);
    ShapeOf(g, code, tbl, 0);
  }

  lemma LeafKid(g: Grammar, t: Tree, x: Terminal)
    requires Derives(g, t, Term(x)) && Plain(t)
    ensures t.Leaf? && t.tok.kind == x
  {
  }

  // What the children of a node are.
  lemma NodeKids(g: Grammar, code: Codes, tbl: OpTable, t: Tree)
    requires OperatorGrammar(g, code, tbl) && Operandly(g, t)
    ensures |t.kids| == |g[t.rule].rhs|
    ensures Starter(g[t.rule]) ==> t.kids[0].Leaf? && t.kids[0].tok.kind == Sign(g[t.rule])
    ensures Starter(g[t.rule]) && |t.kids| > 1 ==> Operandly(g, t.kids[1])
    ensures Bracket(g, t.rule) ==> t.kids[2].Leaf? && t.kids[2].tok.kind == Closer(g[t.rule])
    ensures Infix(g, t.rule) ==> Operandly(g, t.kids[0]) && Operandly(g, t.kids[2])
    ensures Infix(g, t.rule) ==> t.kids[1].Leaf? && t.kids[1].tok.kind == Sign(g[t.rule])
  {
    hide OperatorGrammar, Derives, Plain, Operandly;
    KidsOf(g, t);
    var r, e := t.rule, StartName(g);
    ShapeOf(g, code, tbl, r);
    var rhs := g[r].rhs;
    if Starter(g[r]) {
      LeafKid(g, t.kids[0], Sign(g[r]));
      if |t.kids| > 1 { OperandNode(g, code, tbl, t.kids[1]); }
      if |t.kids| == 3 { LeafKid(g, t.kids[2], Closer(g[r])); }
    } else {
      OperandNode(g, code, tbl, t.kids[0]);
      LeafKid(g, t.kids[1], Sign(g[r]));
      OperandNode(g, code, tbl, t.kids[2]);
    }
  }

  lemma KidsOf(g: Grammar, t: Tree)
    requires Operandly(g, t)
    ensures t.Node? && 0 < t.rule < |g| && |t.kids| == |g[t.rule].rhs|
    ensures forall j | 0 <= j < |t.kids| :: Derives(g, t.kids[j], g[t.rule].rhs[j]) && Plain(t.kids[j])
  {
    KidsDerived(g, t);
    forall j | 0 <= j < |t.kids| ensures Plain(t.kids[j]) { KidFacts(g, t, j); }
  }

  // The expression of a node.
  lemma NodeExpr(g: Grammar, code: Codes, tbl: OpTable, t: Tree)
    requires OperatorGrammar(g, code, tbl) && Operandly(g, t) && |t.kids| == |g[t.rule].rhs|
    ensures |t.kids| == 2 ==> ExprOf(code, t) == Prefix(CodeOf(code, Sign(g[t.rule])), ExprOf(code, t.kids[1]))
    ensures Bracket(g, t.rule) ==> ExprOf(code, t) == Group(ExprOf(code, t.kids[1]))
    ensures Infix(g, t.rule) ==>
      ExprOf(code, t) == Binary(CodeOf(code, Sign(g[t.rule])), ExprOf(code, t.kids[0]), ExprOf(code, t.kids[2]))
    ensures Infix(g, t.rule) ==> CodeOf(code, Sign(g[t.rule])) in tbl.binary && Sign(g[t.rule]) in code
    ensures |t.kids| == 1 ==> !ExprOf(code, t).Binary?
    ensures Bracket(g, t.rule) ==> Closer(g[t.rule]) in code && CodeOf(code, Closer(g[t.rule])) == tbl.close
  {
    hide OperatorGrammar, Derives, Plain, Operandly;
    KidsOf(g, t);
    NodeKids(g, code, tbl, t);
    ShapeOf(g, code, tbl, t.rule);
    assert t.kids != [] && (|t.kids| == 2 || |t.kids| == 1 ==> Starter(g[t.rule]));
    if Starter(g[t.rule]) && |t.kids| > 1 { KidsOf(g, t.kids[1]); }
  }

  // The automaton, its lookaheads and its settled tables.
  ghost predicate Resolved(g: Grammar, fm: FirstMap, a: Automaton, m: Mode, pt: ParseTables) {
    Grounded(g, fm, a, m) && TablesOk(g, a, m, pt) && GotosOk(a, pt)
  }

  // A node that is to be built on top of `c`, in a place where an operand is called for.
  ghost predicate ToBuild(g: Grammar, code: Codes, tbl: OpTable, a: Automaton, m: Mode, input: seq<Token>, c: Config, t: Tree, after: Terminal, outer: nat) {
    && NodeNext(g, input, c, t, after) && Begins(g, a, m, Top(c.st), t.rule, after) && Base(g, a, Top(c.st), outer) && Operandly(g, t)
    && Respects(g, code, tbl, t) && OuterFits(g, code, tbl, ExprOf(code, t), outer) && AllGiveWay(code, tbl, ExprOf(code, t), after)
  }

  // Shifting the leaf that is next.
  lemma ShiftKid(g: Grammar, a: Automaton, pt: ParseTables, input: seq<Token>, c: Config, tok: Token, q: nat) returns (acts: seq<Action>)
    requires Shaped(c.st) && c.pos < |input| && input[c.pos] == tok && ShiftTo(q) in Choices(pt, Top(c.st), tok.kind)
    ensures Runs(g, pt, input, c, acts, Built(c, q, Leaf(tok)))
  {
    acts := [ShiftTo(q)];
    RunsOne(g, pt, input, c, ShiftTo(q), Built(c, q, Leaf(tok)));
  }

  // The state after `j` children, where child `j` is next.
  lemma KidAt(g: Grammar, fm: FirstMap, a: Automaton, m: Mode, input: seq<Token>, c: Config, t: Tree, j: nat, after: Terminal)
      returns (mid: Config, next: Terminal, q: nat)
    requires Grounded(g, fm, a, m) && NodeNext(g, input, c, t, after) && Begins(g, a, m, Top(c.st), t.rule, after)
    requires |t.kids| == |g[t.rule].rhs| && j < |t.kids|
    ensures mid == Midway(g, a, c, t.rule, t.kids, j) && Shaped(mid.st) && Top(mid.st) == Along(a, Top(c.st), g[t.rule].rhs[..j])
    ensures Expects(g, fm, a, m, Top(mid.st), Item(t.rule, j), g[t.rule].rhs[j], next)
    ensures Reads(input, mid.pos, Yield(t.kids[j]), next) && ReadsLeft(t.kids[j], mid.st.values)
    ensures mid.pos == c.pos + |Yields(t.kids[..j])|
    ensures Linked(a, Top(mid.st), g[t.rule].rhs[j], q) && q < |a.states|
    ensures Midway(g, a, c, t.rule, t.kids, j + 1) == Built(mid, q, t.kids[j])
    ensures Along(a, Top(c.st), g[t.rule].rhs[..j + 1]) == q
  {
    hide Expects, Derives, ReadsLeft, Plain, Along, Linked, Midway, WellFormed, AutomatonOk, Spreads, Closed;
    mid := Midway(g, a, c, t.rule, t.kids, j);
    KidReady(g, a, c, t, j);
    next := KidPlaced(g, fm, a, m, input, c, mid, t, j, after);
    q := KidLink(g, fm, a, m, Top(mid.st), Item(t.rule, j), g[t.rule].rhs[j], next);
    MidwayStep(g, a, c, t.rule, t.kids, j, q);
    AlongStep(a, Top(c.st), g[t.rule].rhs, j, q);
  }

  lemma KidLink(g: Grammar, fm: FirstMap, a: Automaton, m: Mode, s: nat, it: Item, x: Symbol, next: Terminal) returns (q: nat)
    requires AutomatonOk(g, a) && Expects(g, fm, a, m, s, it, x, next)
    ensures Linked(a, s, x, q) && q < |a.states|
  {
    hide AutomatonOk;
    ExpectsMove(g, fm, a, m, s, it, x, next);
    TransitionBound(g, a);
    q := a.trans[s][x];
  }

  lemma AlongStep(a: Automaton, s: nat, rhs: seq<Symbol>, j: nat, q: nat)
    requires j < |rhs| && Linked(a, Along(a, s, rhs[..j]), rhs[j], q)
    ensures Along(a, s, rhs[..j + 1]) == q
  {
    assert rhs[..j + 1][..j] == rhs[..j];
  }

  // The reduction at the end.
  lemma FinishRule(g: Grammar, fm: FirstMap, a: Automaton, m: Mode, pt: ParseTables, input: seq<Token>, c: Config, t: Tree,
                   after: Terminal, q: nat) returns (acts: seq<Action>)
    requires GotosOk(a, pt) && NodeNext(g, input, c, t, after) && Linked(a, Top(c.st), NonTerm(g[t.rule].lhs), q)
    requires |t.kids| == |g[t.rule].rhs| && ReduceBy(t.rule) in Choices(pt, Along(a, Top(c.st), g[t.rule].rhs), after)
    ensures Runs(g, pt, input, Midway(g, a, c, t.rule, t.kids, |t.kids|), acts, Built(c, q, t))
  {
    hide Derives, Plain, ReadsLeft, Reads, GotosOk, Choices, Along, Midway, Runs;
    NodeRebuilt(g, a, pt, input, c, t, after, q);
    acts := [ReduceBy(t.rule)];
    RunsOne(g, pt, input, Midway(g, a, c, t.rule, t.kids, |t.kids|), ReduceBy(t.rule), Built(c, q, t));
  }

  // The item at the end of the rule, with its lookahead.
  lemma EndOfRule(g: Grammar, fm: FirstMap, a: Automaton, m: Mode, s: nat, r: nat, after: Terminal)
    requires Grounded(g, fm, a, m) && Begins(g, a, m, s, r, after)
    ensures var q := Along(a, s, g[r].rhs); q < |a.states| && Item(r, |g[r].rhs|) in a.states[q] && after in Ahead(g, m, q, Item(r, |g[r].rhs|))
  {
    hide WellFormed, AutomatonOk, Spreads, Closed, Along;
    ItemAlong(g, fm, a, m, s, r, |g[r].rhs|, after);
    assert g[r].rhs[..|g[r].rhs|] == g[r].rhs;
  }

  // What the first token of the later siblings is, or what comes after them all.
  lemma NextToken(input: seq<Token>, pos: nat, kids: seq<Tree>, j: nat, after: Terminal, next: Terminal)
    requires j < |kids| && Reads(input, pos, Yields(kids), after)
    requires Reads(input, pos + |Yields(kids[..j])|, Yield(kids[j]), next)
    ensures j + 1 == |kids| ==> next == after
    ensures j + 1 < |kids| && kids[j + 1].Leaf? ==> next == kids[j + 1].tok.kind
  {
    hide Yields;
    YieldsSplit(kids, j);
    assert kids[j..] == [kids[j]] + kids[j + 1..];
    YieldsAppend([kids[j]], kids[j + 1..]);
    YieldsOne(kids[j]);
    ReadsSplit(input, pos, Yields(kids[..j]), Yields(kids[j..]), after);
    ReadsSplit(input, pos + |Yields(kids[..j])|, Yield(kids[j]), Yields(kids[j + 1..]), after);
    if j + 1 == |kids| {
      NoYields(kids[j + 1..]);
    } else if kids[j + 1].Leaf? {
      assert kids[j + 1..] == [kids[j + 1]] + kids[j + 2..];
      YieldsAppend([kids[j + 1]], kids[j + 2..]);
      YieldsOne(kids[j + 1]);
      LeafYield(kids[j + 1]);
    }
  }

  lemma NoYields(kids: seq<Tree>)
    requires kids == []
    ensures Yields(kids) == []
  {
  }

  lemma LeafYield(t: Tree)
    requires t.Leaf?
    ensures Yield(t) == [t.tok]
  {
  }

  lemma AlongNone(a: Automaton, s: nat, rhs: seq<Symbol>)
    ensures Along(a, s, rhs[..0]) == s
  {
    assert rhs[..0] == [];
  }

  lemma TokenRead(input: seq<Token>, pos: nat, t: Tree, next: Terminal)
    requires t.Leaf? && Reads(input, pos, Yield(t), next)
    ensures pos < |input| && input[pos] == t.tok
  {
    assert input[pos..pos + 1][0] == input[pos];
  }

  // The children up to the first `j` have been built.
  ghost predicate UpTo(g: Grammar, a: Automaton, pt: ParseTables, input: seq<Token>, c: Config, t: Tree, j: nat, acts: seq<Action>)
    requires Shaped(c.st) && t.Node? && t.rule < |g| && j <= |t.kids| == |g[t.rule].rhs|
  {
    Runs(g, pt, input, c, acts, Midway(g, a, c, t.rule, t.kids, j))
  }

  // A leaf child that is shifted.
  lemma LeafBuilt(g: Grammar, fm: FirstMap, a: Automaton, m: Mode, pt: ParseTables, code: Codes, tbl: OpTable, input: seq<Token>,
                  c: Config, t: Tree, after: Terminal, outer: nat, j: nat, before: seq<Action>) returns (acts: seq<Action>, q: nat)
    requires OperatorGrammar(g, code, tbl) && Resolved(g, fm, a, m, pt) && ToBuild(g, code, tbl, a, m, input, c, t, after, outer)
    requires |t.kids| == |g[t.rule].rhs| && j < |t.kids| && t.kids[j].Leaf? && UpTo(g, a, pt, input, c, t, j, before)
    requires forall q | Linked(a, Along(a, Top(c.st), g[t.rule].rhs[..j]), g[t.rule].rhs[j], q) ::
      ShiftTo(q) in Choices(pt, Along(a, Top(c.st), g[t.rule].rhs[..j]), t.kids[j].tok.kind)
    ensures UpTo(g, a, pt, input, c, t, j + 1, acts)
    ensures Linked(a, Along(a, Top(c.st), g[t.rule].rhs[..j]), g[t.rule].rhs[j], q) && Along(a, Top(c.st), g[t.rule].rhs[..j + 1]) == q < |a.states|
  {
    hide OperatorGrammar, WellFormed, AutomatonOk, Spreads, Closed, TablesOk, GotosOk, Derives, ReadsLeft, Plain, Base, Expects, Choices,
      Along, Midway, Runs, Respects, OuterFits, AllGiveWay, Linked, Reads, Operandly;
    var mid, next, s := KidAt(g, fm, a, m, input, c, t, j, after);
    q := s;
    TokenRead(input, mid.pos, t.kids[j], next);
    var shift := ShiftKid(g, a, pt, input, mid, t.kids[j].tok, q);
    RunsTransitive(g, pt, input, c, before, mid, shift, Built(mid, q, t.kids[j]));
    acts := before + shift;
  }

  // An operand where it is called for.
  lemma KidToBuild(g: Grammar, fm: FirstMap, code: Codes, tbl: OpTable, a: Automaton, m: Mode, input: seq<Token>, c: Config, t: Tree,
                   after: Terminal, outer: nat, it: Item)
    requires OperatorGrammar(g, code, tbl) && Grounded(g, fm, a, m) && Shaped(c.st) && Operandly(g, t) && ReadsLeft(t, c.st.values)
    requires Reads(input, c.pos, Yield(t), after) && Expects(g, fm, a, m, Top(c.st), it, NonTerm(StartName(g)), after)
    requires Base(g, a, Top(c.st), outer) && Respects(g, code, tbl, t)
    requires OuterFits(g, code, tbl, ExprOf(code, t), outer) && AllGiveWay(code, tbl, ExprOf(code, t), after)
    ensures ToBuild(g, code, tbl, a, m, input, c, t, after, outer)
  {
    hide OperatorGrammar, WellFormed, AutomatonOk, Spreads, Closed, Derives, ReadsLeft, Plain, Base, Expects, Respects, OuterFits, AllGiveWay, Reads;
    EnterRule(g, fm, a, m, Top(c.st), it, t.rule, after);
  }

  // The conditions on a tree carry over to its operands.
  lemma BinaryFits(g: Grammar, code: Codes, tbl: OpTable, e: Expr, outer: nat, r: nat, after: Terminal)
    requires OperatorGrammar(g, code, tbl) && outer < |g| && Infix(g, r) && (outer > 0 ==> |g[outer].rhs| > 1)
    requires e.Binary? && e.op == CodeOf(code, Sign(g[r])) && Ordered(tbl, e) && Operators.Named(tbl, e)
    requires OuterFits(g, code, tbl, e, outer) && AllGiveWay(code, tbl, e, after)
    ensures OuterFits(g, code, tbl, e.left, outer) && AllGiveWay(code, tbl, e.left, Sign(g[r]))
    ensures OuterFits(g, code, tbl, e.right, r) && AllGiveWay(code, tbl, e.right, after)
    ensures Takes(g, code, tbl, r, outer) && GivesWay(g, code, tbl, r, after)
  {
    hide OperatorGrammar, RightFits, LeftFits, TableOk;
    TableFacts(g, code, tbl);
    ShapeOf(g, code, tbl, r);
    FitsThroughout(tbl, e.left, e.op);
    FitsThroughout(tbl, e.right, e.op);
  }

  lemma UnitFits(g: Grammar, code: Codes, tbl: OpTable, e: Expr, r: nat, after: Terminal)
    requires r < |g| && !Infix(g, r) && !Bracket(g, r) && e.Prefix? && Ordered(tbl, e) && Operators.Named(tbl, e) && AllGiveWay(code, tbl, e, after)
    ensures OuterFits(g, code, tbl, e.operand, r) && AllGiveWay(code, tbl, e.operand, after) && GivesWay(g, code, tbl, r, after)
    ensures Ordered(tbl, e.operand) && Operators.Named(tbl, e.operand)
  {
  }

  lemma GroupFits(g: Grammar, code: Codes, tbl: OpTable, e: Expr, r: nat)
    requires OperatorGrammar(g, code, tbl) && Bracket(g, r) && e.Group? && Ordered(tbl, e) && Operators.Named(tbl, e)
    ensures OuterFits(g, code, tbl, e.inner, r) && AllGiveWay(code, tbl, e.inner, Closer(g[r]))
    ensures Ordered(tbl, e.inner) && Operators.Named(tbl, e.inner)
  {
    hide OperatorGrammar;
    ShapeOf(g, code, tbl, r);
  }

  lemma BinaryParts(tbl: OpTable, e: Expr)
    requires e.Binary? && Ordered(tbl, e) && Operators.Named(tbl, e)
    ensures Ordered(tbl, e.left) && Ordered(tbl, e.right) && Operators.Named(tbl, e.left) && Operators.Named(tbl, e.right)
  {
  }

  lemma StartsUpTo(g: Grammar, a: Automaton, pt: ParseTables, input: seq<Token>, c: Config, t: Tree)
    requires Shaped(c.st) && t.Node? && t.rule < |g| && |t.kids| == |g[t.rule].rhs|
    ensures UpTo(g, a, pt, input, c, t, 0, [])
  {
    MidwayStart(g, a, c, t.rule, t.kids);
    RunsNone(g, pt, input, c);
  }

  // The token an operand begins with.
  lemma StarterBuilt(g: Grammar, fm: FirstMap, a: Automaton, m: Mode, pt: ParseTables, code: Codes, tbl: OpTable, input: seq<Token>,
                     c: Config, t: Tree, after: Terminal, outer: nat) returns (acts: seq<Action>, q: nat)
    requires OperatorGrammar(g, code, tbl) && Resolved(g, fm, a, m, pt) && ToBuild(g, code, tbl, a, m, input, c, t, after, outer)
    requires |t.kids| == |g[t.rule].rhs| && Starter(g[t.rule]) && t.kids[0].Leaf? && t.kids[0].tok.kind == Sign(g[t.rule])
    ensures UpTo(g, a, pt, input, c, t, 1, acts)
    ensures Linked(a, Top(c.st), Term(Sign(g[t.rule])), q) && Along(a, Top(c.st), g[t.rule].rhs[..1]) == q < |a.states|
  {
    hide OperatorGrammar, WellFormed, AutomatonOk, Spreads, Closed, TablesOk, GotosOk, Derives, ReadsLeft, Plain, Base, Expects, Choices,
      Along, Midway, Runs, Respects, OuterFits, AllGiveWay, Linked, Reads, Operandly, UpTo;
    FirstSymbol(g, code, tbl, t.rule);
    ShapeOf(g, code, tbl, t.rule);
    AlongNone(a, Top(c.st), g[t.rule].rhs);
    StartsUpTo(g, a, pt, input, c, t);
    forall s | Linked(a, Top(c.st), Term(Sign(g[t.rule])), s) ensures ShiftTo(s) in Choices(pt, Top(c.st), Sign(g[t.rule])) {
      TokenShifts(g, code, tbl, a, m, pt, Top(c.st), outer, t.rule, s);
    }
    acts, q := LeafBuilt(g, fm, a, m, pt, code, tbl, input, c, t, after, outer, 0, []);
  }

  // All children built, the node is.
  lemma Finished(g: Grammar, fm: FirstMap, a: Automaton, m: Mode, pt: ParseTables, code: Codes, tbl: OpTable, input: seq<Token>,
                 c: Config, t: Tree, after: Terminal, outer: nat, q: nat, before: seq<Action>) returns (acts: seq<Action>)
    requires OperatorGrammar(g, code, tbl) && Resolved(g, fm, a, m, pt) && ToBuild(g, code, tbl, a, m, input, c, t, after, outer)
    requires |t.kids| == |g[t.rule].rhs| && UpTo(g, a, pt, input, c, t, |t.kids|, before) && Linked(a, Top(c.st), NonTerm(g[t.rule].lhs), q)
    requires ReduceBy(t.rule) in Choices(pt, Along(a, Top(c.st), g[t.rule].rhs), after)
    ensures Runs(g, pt, input, c, acts, Built(c, q, t))
  {
    hide OperatorGrammar, WellFormed, AutomatonOk, Spreads, Closed, TablesOk, GotosOk, Derives, ReadsLeft, Plain, Base, Expects, Choices,
      Along, Midway, Runs, Respects, OuterFits, AllGiveWay, Linked, Reads, Operandly;
    var last := FinishRule(g, fm, a, m, pt, input, c, t, after, q);
    RunsTransitive(g, pt, input, c, before, Midway(g, a, c, t.rule, t.kids, |t.kids|), last, Built(c, q, t));
    acts := before + last;
  }

  lemma OperandBuilt(g: Grammar, fm: FirstMap, a: Automaton, m: Mode, pt: ParseTables, code: Codes, tbl: OpTable, input: seq<Token>,
                     c: Config, t: Tree, after: Terminal, outer: nat, q: nat) returns (acts: seq<Action>)
    requires OperatorGrammar(g, code, tbl) && Resolved(g, fm, a, m, pt) && ToBuild(g, code, tbl, a, m, input, c, t, after, outer)
    requires Linked(a, Top(c.st), NonTerm(g[t.rule].lhs), q) && |t.kids| == |g[t.rule].rhs| == 1
    ensures Runs(g, pt, input, c, acts, Built(c, q, t))
  {
    hide OperatorGrammar, WellFormed, AutomatonOk, Spreads, Closed, TablesOk, GotosOk, Derives, ReadsLeft, Plain, Base, Expects, Choices,
      Along, Midway, Runs, Respects, OuterFits, AllGiveWay, Linked, Reads, Operandly, UpTo;
    NodeKids(g, code, tbl, t);
    FirstSymbol(g, code, tbl, t.rule);
    ShapeOf(g, code, tbl, t.rule);
    var run, q0 := StarterBuilt(g, fm, a, m, pt, code, tbl, input, c, t, after, outer);
    assert g[t.rule].rhs[..1] == g[t.rule].rhs;
    EndOfRule(g, fm, a, m, Top(c.st), t.rule, after);
    forall it | it in a.states[q0] ensures it == Item(t.rule, 1) { TokenDone(g, code, tbl, a, Top(c.st), outer, t.rule, q0, it); }
    OnlyReduces(g, code, tbl, a, m, pt, q0, t.rule, after);
    acts := Finished(g, fm, a, m, pt, code, tbl, input, c, t, after, outer, q, run);
  }

  /** Wherever a tree that respects precedence is called for, the machine builds it. */
  lemma {:induction false} NodeBuilt(g: Grammar, fm: FirstMap, a: Automaton, m: Mode, pt: ParseTables, code: Codes, tbl: OpTable,
                                     input: seq<Token>, c: Config, t: Tree, after: Terminal, outer: nat, q: nat) returns (acts: seq<Action>)
    requires OperatorGrammar(g, code, tbl) && Resolved(g, fm, a, m, pt) && ToBuild(g, code, tbl, a, m, input, c, t, after, outer)
    requires Linked(a, Top(c.st), NonTerm(g[t.rule].lhs), q)
    ensures Runs(g, pt, input, c, acts, Built(c, q, t))
    decreases t, 3
  {
    hide OperatorGrammar, WellFormed, AutomatonOk, Spreads, Closed, TablesOk, GotosOk, Derives, ReadsLeft, Plain, Base, Expects, Choices,
      Along, Midway, Runs, OuterFits, AllGiveWay, Linked, Reads, Respects, Operandly;
    NodeKids(g, code, tbl, t);
    ShapeOf(g, code, tbl, t.rule);
    if |t.kids| == 1 {
      acts := OperandBuilt(g, fm, a, m, pt, code, tbl, input, c, t, after, outer, q);
    } else if |t.kids| == 2 {
      acts := PrefixBuilt(g, fm, a, m, pt, code, tbl, input, c, t, after, outer, q);
    } else if Bracket(g, t.rule) {
      acts := GroupBuilt(g, fm, a, m, pt, code, tbl, input, c, t, after, outer, q);
    } else {
      acts := BinaryBuilt(g, fm, a, m, pt, code, tbl, input, c, t, after, outer, q);
    }
  }

  // An operand child: built by induction, on top of the children before it.
  lemma {:induction false} KidBuilt(g: Grammar, fm: FirstMap, a: Automaton, m: Mode, pt: ParseTables, code: Codes, tbl: OpTable,
                                    input: seq<Token>, c: Config, t: Tree, after: Terminal, outer: nat, j: nat, before: seq<Action>,
                                    inner: nat, next: Terminal) returns (acts: seq<Action>, q: nat)
    requires OperatorGrammar(g, code, tbl) && Resolved(g, fm, a, m, pt) && ToBuild(g, code, tbl, a, m, input, c, t, after, outer)
    requires |t.kids| == |g[t.rule].rhs| && j < |t.kids| && Operandly(g, t.kids[j]) && UpTo(g, a, pt, input, c, t, j, before)
    requires g[t.rule].rhs[j] == NonTerm(StartName(g)) && Base(g, a, Along(a, Top(c.st), g[t.rule].rhs[..j]), inner)
    requires next == if j + 1 == |t.kids| then after else if t.kids[j + 1].Leaf? then t.kids[j + 1].tok.kind else Error
    requires j + 1 < |t.kids| ==> t.kids[j + 1].Leaf?
    requires Respects(g, code, tbl, t.kids[j]) && OuterFits(g, code, tbl, ExprOf(code, t.kids[j]), inner)
    requires AllGiveWay(code, tbl, ExprOf(code, t.kids[j]), next)
    ensures UpTo(g, a, pt, input, c, t, j + 1, acts)
    ensures Linked(a, Along(a, Top(c.st), g[t.rule].rhs[..j]), NonTerm(StartName(g)), q) && Along(a, Top(c.st), g[t.rule].rhs[..j + 1]) == q < |a.states|
    ensures Done(g, a, q, inner)
    decreases t, 1
  {
    hide OperatorGrammar, WellFormed, AutomatonOk, Spreads, Closed, TablesOk, GotosOk, Derives, ReadsLeft, Plain, Base, Expects, Choices,
      Along, Midway, Runs, OuterFits, AllGiveWay, Linked, Reads, Respects, Operandly;
    var mid, then', s := KidAt(g, fm, a, m, input, c, t, j, after);
    q := s;
    NextToken(input, c.pos, t.kids, j, after, then');
    KidToBuild(g, fm, code, tbl, a, m, input, mid, t.kids[j], next, inner, Item(t.rule, j));
    KidLinked(g, a, mid, t.kids[j], q);
    var run := NodeBuilt(g, fm, a, m, pt, code, tbl, input, mid, t.kids[j], next, inner, q);
    RunsTransitive(g, pt, input, c, before, mid, run, Built(mid, q, t.kids[j]));
    acts := before + run;
    OperandDone(g, code, tbl, a, Top(mid.st), inner, q);
  }

  lemma KidLinked(g: Grammar, a: Automaton, c: Config, t: Tree, q: nat)
    requires Shaped(c.st) && Operandly(g, t) && Linked(a, Top(c.st), NonTerm(StartName(g)), q)
    ensures Linked(a, Top(c.st), NonTerm(g[t.rule].lhs), q)
  {
  }

  lemma {:induction false} PrefixBuilt(g: Grammar, fm: FirstMap, a: Automaton, m: Mode, pt: ParseTables, code: Codes, tbl: OpTable,
                                       input: seq<Token>, c: Config, t: Tree, after: Terminal, outer: nat, q: nat) returns (acts: seq<Action>)
    requires OperatorGrammar(g, code, tbl) && Resolved(g, fm, a, m, pt) && ToBuild(g, code, tbl, a, m, input, c, t, after, outer)
    requires Linked(a, Top(c.st), NonTerm(g[t.rule].lhs), q) && |t.kids| == |g[t.rule].rhs| == 2
    ensures Runs(g, pt, input, c, acts, Built(c, q, t))
    decreases t, 2
  {
    hide OperatorGrammar, WellFormed, AutomatonOk, Spreads, Closed, TablesOk, GotosOk, Derives, ReadsLeft, Plain, Base, Expects, Choices,
      Along, Midway, Runs, OuterFits, AllGiveWay, Linked, Reads, Operandly, UpTo, Ordered, Operators.Named, ExprOf;
    NodeKids(g, code, tbl, t);
    NodeExpr(g, code, tbl, t);
    ShapeOf(g, code, tbl, t.rule);
    var r := t.rule;
    var run0, q0 := StarterBuilt(g, fm, a, m, pt, code, tbl, input, c, t, after, outer);
    StarterBase(g, code, tbl, a, Top(c.st), outer, r, q0);
    UnitFits(g, code, tbl, ExprOf(code, t), r, after);
    var run1, q1 := KidBuilt(g, fm, a, m, pt, code, tbl, input, c, t, after, outer, 1, run0, r, after);
    assert g[r].rhs[..2] == g[r].rhs;
    EndOfRule(g, fm, a, m, Top(c.st), r, after);
    ReduceWins(g, code, tbl, a, m, pt, q1, r, after);
    acts := Finished(g, fm, a, m, pt, code, tbl, input, c, t, after, outer, q, run1);
  }

  lemma {:induction false} GroupBuilt(g: Grammar, fm: FirstMap, a: Automaton, m: Mode, pt: ParseTables, code: Codes, tbl: OpTable,
                                      input: seq<Token>, c: Config, t: Tree, after: Terminal, outer: nat, q: nat) returns (acts: seq<Action>)
    requires OperatorGrammar(g, code, tbl) && Resolved(g, fm, a, m, pt) && ToBuild(g, code, tbl, a, m, input, c, t, after, outer)
    requires Linked(a, Top(c.st), NonTerm(g[t.rule].lhs), q) && Bracket(g, t.rule) && |t.kids| == |g[t.rule].rhs|
    ensures Runs(g, pt, input, c, acts, Built(c, q, t))
    decreases t, 2
  {
    hide OperatorGrammar, WellFormed, AutomatonOk, Spreads, Closed, TablesOk, GotosOk, Derives, ReadsLeft, Plain, Base, Done, Expects, Choices,
      Along, Midway, Runs, OuterFits, AllGiveWay, Linked, Reads, Operandly, UpTo, Ordered, Operators.Named, ExprOf;
    NodeKids(g, code, tbl, t);
    NodeExpr(g, code, tbl, t);
    ShapeOf(g, code, tbl, t.rule);
    var r := t.rule;
    var run0, q0 := StarterBuilt(g, fm, a, m, pt, code, tbl, input, c, t, after, outer);
    StarterBase(g, code, tbl, a, Top(c.st), outer, r, q0);
    GroupFits(g, code, tbl, ExprOf(code, t), r);
    var run1, q1 := KidBuilt(g, fm, a, m, pt, code, tbl, input, c, t, after, outer, 1, run0, r, Closer(g[r]));
    forall s | Linked(a, q1, Term(Closer(g[r])), s) ensures ShiftTo(s) in Choices(pt, q1, Closer(g[r])) {
      CloseShifts(g, code, tbl, a, m, pt, q1, r, s);
    }
    var run2, q2 := LeafBuilt(g, fm, a, m, pt, code, tbl, input, c, t, after, outer, 2, run1);
    assert g[r].rhs[..3] == g[r].rhs;
    EndOfRule(g, fm, a, m, Top(c.st), r, after);
    forall it | it in a.states[q2] ensures it == Item(r, 3) { CloseDone(g, code, tbl, a, q1, r, q2, it); }
    OnlyReduces(g, code, tbl, a, m, pt, q2, r, after);
    acts := Finished(g, fm, a, m, pt, code, tbl, input, c, t, after, outer, q, run2);
  }

  lemma {:induction false} BinaryBuilt(g: Grammar, fm: FirstMap, a: Automaton, m: Mode, pt: ParseTables, code: Codes, tbl: OpTable,
                                       input: seq<Token>, c: Config, t: Tree, after: Terminal, outer: nat, q: nat) returns (acts: seq<Action>)
    requires OperatorGrammar(g, code, tbl) && Resolved(g, fm, a, m, pt) && ToBuild(g, code, tbl, a, m, input, c, t, after, outer)
    requires Linked(a, Top(c.st), NonTerm(g[t.rule].lhs), q) && Infix(g, t.rule) && |t.kids| == |g[t.rule].rhs|
    ensures Runs(g, pt, input, c, acts, Built(c, q, t))
    decreases t, 2
  {
    hide OperatorGrammar, WellFormed, AutomatonOk, Spreads, Closed, TablesOk, GotosOk, Derives, ReadsLeft, Plain, Base, Done, Expects, Choices,
      Along, Midway, Runs, OuterFits, AllGiveWay, Linked, Reads, Operandly, UpTo, Ordered, Operators.Named, ExprOf, Takes;
    NodeKids(g, code, tbl, t);
    NodeExpr(g, code, tbl, t);
    ShapeOf(g, code, tbl, t.rule);
    var r, e := t.rule, ExprOf(code, t);
    BaseInside(g, a, Top(c.st), outer);
    BinaryFits(g, code, tbl, e, outer, r, after);
    BinaryParts(tbl, e);
    AlongNone(a, Top(c.st), g[r].rhs);
    StartsUpTo(g, a, pt, input, c, t);
    var run0, q0 := KidBuilt(g, fm, a, m, pt, code, tbl, input, c, t, after, outer, 0, [], outer, Sign(g[r]));
    OneAlong(g, fm, a, m, Top(c.st), r, after);
    forall s | Linked(a, q0, Term(Sign(g[r])), s) ensures ShiftTo(s) in Choices(pt, q0, Sign(g[r])) {
      ShiftWins(g, code, tbl, a, m, pt, q0, outer, r, s);
    }
    var run1, q1 := LeafBuilt(g, fm, a, m, pt, code, tbl, input, c, t, after, outer, 1, run0);
    OperatorBase(g, code, tbl, a, q0, outer, r, q1);
    var run2, q2 := KidBuilt(g, fm, a, m, pt, code, tbl, input, c, t, after, outer, 2, run1, r, after);
    assert g[r].rhs[..3] == g[r].rhs;
    EndOfRule(g, fm, a, m, Top(c.st), r, after);
    ReduceWins(g, code, tbl, a, m, pt, q2, r, after);
    acts := Finished(g, fm, a, m, pt, code, tbl, input, c, t, after, outer, q, run2);
  }

  lemma OneAlong(g: Grammar, fm: FirstMap, a: Automaton, m: Mode, s: nat, r: nat, after: Terminal)
    requires Grounded(g, fm, a, m) && Begins(g, a, m, s, r, after) && |g[r].rhs| > 0
    ensures var q := Along(a, s, g[r].rhs[..1]); q < |a.states| && Item(r, 1) in a.states[q]
  {
    hide WellFormed, AutomatonOk, Spreads, Closed, Along;
    ItemAlong(g, fm, a, m, s, r, 1, after);
  }
}
