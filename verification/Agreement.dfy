/** Both back ends read operator expressions alike (README.md:45-58, 111-117; src/peg.ts:303-316, 448-495;
    src/lalr.ts:312-363). */
module Agreement {
  import opened Options
  import opened Grammars
  import opened FirstSets
  import opened Automata
  import opened Lookaheads
  import opened Tables
  import opened Resolution
  import opened Machine
  import opened Completeness
  import opened Restore
  import opened Parsing
  import opened Language
  import opened Build
  import opened Control
  import opened Termination
  import opened Operators
  import opened OperatorTables
  import PegAnalysis
  import PegMatcher
  import PegOperators
  import PegTrees

  // ----- no conflict is left -----

  predicate Sided(p: Option<Prec>) {
    p.Some? ==> p.value.assoc == Left || p.value.assoc == Right
  }

  lemma {:induction false} SettledSided(g: Grammar, inc: seq<Action>, p: Option<Prec>)
    requires |inc| > 0 && Sided(p) && forall x | x in inc :: Real(x) && (x.ReduceBy? ==> Sided(PrecOf(g, x.rule)))
    ensures Settle(g, inc, p) in inc
  {
    if |inc| > 1 {
      var init, last := inc[..|inc| - 1], inc[|inc| - 1];
      assert last in inc && forall x | x in init :: x in inc;
      SettledSided(g, init, p);
    }
  }

  lemma {:induction false} ShiftPrecFrom(g: Grammar, items: seq<Item>, t: Terminal)
    requires forall r | 0 <= r < |g| :: Sided(g[r].prec)
    ensures Sided(ShiftPrec(g, items, t))
    decreases |items|
  {
    if items != [] { ShiftPrecFrom(g, items[1..], t); }
  }

  lemma AllSided(g: Grammar, code: Codes, tbl: OpTable)
    requires OperatorGrammar(g, code, tbl)
    ensures forall r | 0 <= r < |g| :: Sided(g[r].prec)
  {
    forall r | 0 <= r < |g| ensures Sided(g[r].prec) {
      if r > 0 { ShapeOf(g, code, tbl, r); }
    }
  }

  lemma EntrySided(g: Grammar, code: Codes, tbl: OpTable, a: Automaton, m: Mode, pt: ParseTables, s: nat, t: Terminal)
    requires OperatorGrammar(g, code, tbl) && TablesOk(g, a, m, pt) && s < |a.states| && t in pt.action[s]
    ensures !pt.action[s][t].Conflict?
  {
    hide OperatorGrammar, GotoFilled, Incoming, Settle, ShiftPrec;
    assert RowDone(g, a, m, s, pt.action[s]);
    var inc, p := Incoming(g, a, m, s, t), ShiftPrec(g, a.states[s], t);
    if inc != [] {
      AllSided(g, code, tbl);
      IncomingReal(g, a, m, s, t);
      ShiftPrecFrom(g, a.states[s], t);
      forall x | x in inc && x.ReduceBy? ensures Sided(PrecOf(g, x.rule)) { RuleSided(g, x.rule); }
      SettledSided(g, inc, p);
      assert EntryIs(g, pt.action[s], t, inc, p);
    }
  }

  lemma RuleSided(g: Grammar, r: nat)
    requires forall q | 0 <= q < |g| :: Sided(g[q].prec)
    ensures Sided(PrecOf(g, r))
  {
  }

  /** Every conflict of an operator grammar is settled: no fork is left to run time. */
  lemma NoneLeft(g: Grammar, code: Codes, tbl: OpTable, a: Automaton, m: Mode, pt: ParseTables)
    requires OperatorGrammar(g, code, tbl) && TablesOk(g, a, m, pt)
    ensures NoConflicts(pt)
  {
    hide OperatorGrammar, RowDone, GotoFilled;
    forall s: nat, t | t in RowAt(pt, s) ensures !RowAt(pt, s)[t].Conflict? { EntrySided(g, code, tbl, a, m, pt, s, t); }
  }

  // ----- accepting -----

  lemma EndAccepts(g: Grammar, code: Codes, tbl: OpTable, a: Automaton, m: Mode, pt: ParseTables, q: nat)
    requires OperatorGrammar(g, code, tbl) && AutomatonOk(g, a) && TablesOk(g, a, m, pt) && Linked(a, 0, NonTerm(StartName(g)), q)
    ensures AcceptAll in Choices(pt, q, End)
  {
    hide OperatorGrammar, TablesOk, Choices, Settle, ShiftPrec;
    ShapeOf(g, code, tbl, 0);
    assert Item(0, 0) in Items(a.states[0]);
    MoveInState(g, a, 0, Item(0, 0), NonTerm(StartName(g)));
    MoveInState(g, a, q, Item(0, 1), Term(End));
    SameSizes(g, a);
    assert ShiftAction(a, q, End) == [AcceptAll];
    SettledChoice(g, a, m, pt, q, End);
    AcceptStays(g, Incoming(g, a, m, q, End), ShiftPrec(g, a.states[q], End));
  }

  lemma StartBegins(g: Grammar, fm: FirstMap, code: Codes, tbl: OpTable, a: Automaton, m: Mode, t: Tree) returns (q: nat)
    requires OperatorGrammar(g, code, tbl) && Grounded(g, fm, a, m) && Operandly(g, t)
    ensures Begins(g, a, m, 0, t.rule, End) && Linked(a, 0, NonTerm(StartName(g)), q)
  {
    hide OperatorGrammar, Closed, Spreads, Derives, Plain;
    ShapeOf(g, code, tbl, 0);
    StartExpects(g, fm, a, m);
    EnterRule(g, fm, a, m, 0, Item(0, 0), t.rule, End);
    ExpectsMove(g, fm, a, m, 0, Item(0, 0), StartSymbol(g), End);
    q := a.trans[0][StartSymbol(g)];
  }

  // At the start every expression fits.
  lemma FitsAtStart(g: Grammar, code: Codes, tbl: OpTable, e: Expr)
    requires g != []
    ensures OuterFits(g, code, tbl, e, 0) && AllGiveWay(code, tbl, e, End)
  {
  }

  /** The tree that respects precedence is the outcome of an accepting run. */
  lemma OrderedAccepted(g: Grammar, fm: FirstMap, a: Automaton, m: Mode, pt: ParseTables, code: Codes, tbl: OpTable, t: Tree)
      returns (acts: seq<Action>, q: nat)
    requires OperatorGrammar(g, code, tbl) && Resolved(g, fm, a, m, pt) && Operandly(g, t) && Respects(g, code, tbl, t)
    ensures Accepts(g, pt, Yield(t), INITIAL, acts, Config(Stack([0, q], [t]), |Yield(t)|))
  {
    hide OperatorGrammar, WellFormed, AutomatonOk, Spreads, Closed, TablesOk, GotosOk, Choices, Runs, Linked, Respects, Begins, Derives,
      Plain, ReadsLeft, Reads, OuterFits, AllGiveWay, Base;
    GrammarFits(g, code, tbl);
    ShapeOf(g, code, tbl, 0);
    RootReadsNothing(g, t);
    ReadsAll(Yield(t));
    FitsAtStart(g, code, tbl, ExprOf(code, t));
    q := StartBegins(g, fm, code, tbl, a, m, t);
    StartBase(g, code, tbl, a);
    acts := NodeBuilt(g, fm, a, m, pt, code, tbl, Yield(t), INITIAL, t, End, 0, q);
    EndAccepts(g, code, tbl, a, m, pt, q);
    InitialBuilt(t, q);
  }

  // ----- expressions and their trees -----

  function CodesOf(code: Codes, input: seq<Token>): seq<nat> {
    seq(|input|, i requires 0 <= i < |input| => CodeOf(code, input[i].kind))
  }

  predicate Coded(code: Codes, input: seq<Token>) {
    forall i | 0 <= i < |input| :: input[i].kind in code
  }

  // The binary operators of the grammar, and what begins its operands.
  ghost function InfixCodes(g: Grammar, code: Codes): set<nat> {
    set r: nat | r < |g| && Infix(g, r) :: CodeOf(code, Sign(g[r]))
  }

  ghost function StartCodes(g: Grammar, code: Codes): set<nat> {
    set r: nat | 0 < r < |g| && Starter(g[r]) :: CodeOf(code, Sign(g[r]))
  }

  lemma CodesAppend(code: Codes, x: seq<Token>, y: seq<Token>)
    ensures CodesOf(code, x + y) == CodesOf(code, x) + CodesOf(code, y)
    ensures Coded(code, x) && Coded(code, y) ==> Coded(code, x + y)
  {
  }

  lemma CodesOne(code: Codes, tok: Token)
    ensures CodesOf(code, [tok]) == [CodeOf(code, tok.kind)] && (tok.kind in code ==> Coded(code, [tok]))
  {
  }

  lemma CodesSplit(code: Codes, input: seq<Token>, xs: seq<nat>, ys: seq<nat>)
    requires CodesOf(code, input) == xs + ys && Coded(code, input)
    ensures |input| == |xs| + |ys| && input == input[..|xs|] + input[|xs|..]
    ensures CodesOf(code, input[..|xs|]) == xs && CodesOf(code, input[|xs|..]) == ys
    ensures Coded(code, input[..|xs|]) && Coded(code, input[|xs|..])
  {
    hide CodeOf;
    var n := |xs|;
    assert |CodesOf(code, input)| == |input|;
    CodesAppend(code, input[..n], input[n..]);
    assert input == input[..n] + input[n..];
    assert CodesOf(code, input)[..n] == CodesOf(code, input[..n]);
    assert CodesOf(code, input)[n..] == CodesOf(code, input[n..]);
  }

  lemma CodesSingle(code: Codes, input: seq<Token>, x: nat)
    requires CodesOf(code, input) == [x] && Coded(code, input)
    ensures |input| == 1 && input == [input[0]] && input[0].kind in code && CodeOf(code, input[0].kind) == x
  {
    assert |CodesOf(code, input)| == |input|;
    assert CodesOf(code, input)[0] == x;
  }

  lemma YieldParts(r: nat, kids: seq<Tree>)
    ensures |kids| == 1 ==> Yield(Node(r, [], kids)) == Yield(kids[0])
    ensures |kids| == 2 ==> Yield(Node(r, [], kids)) == Yield(kids[0]) + Yield(kids[1])
    ensures |kids| == 3 ==> Yield(Node(r, [], kids)) == Yield(kids[0]) + Yield(kids[1]) + Yield(kids[2])
  {
    if |kids| == 1 {
      assert kids == [kids[0]];
      YieldsOne(kids[0]);
    } else if |kids| == 2 {
      assert kids[..1] == [kids[0]];
      YieldsOne(kids[0]);
    } else if |kids| == 3 {
      assert kids[..2][..1] == [kids[0]];
      YieldsOne(kids[0]);
      assert Yields(kids[..2]) == Yield(kids[0]) + Yield(kids[1]);
    }
  }

  lemma NodeYield(t: Tree)
    requires t.Node?
    ensures Yield(t) == Yield(Node(t.rule, [], t.kids))
  {
  }

  // ----- a tree says an expression -----

  // What the expression of a tree is made of.
  ghost predicate Says(g: Grammar, code: Codes, tbl: OpTable, t: Tree, e: Expr) {
    && ExprOf(code, t) == e && Operators.Named(tbl, e) && Uses(InfixCodes(g, code), StartCodes(g, code), tbl, e)
    && Tokens(tbl, e) == CodesOf(code, Yield(t)) && Coded(code, Yield(t))
  }

  lemma RuleCodes(g: Grammar, code: Codes, r: nat)
    requires 0 < r < |g|
    ensures Infix(g, r) ==> CodeOf(code, Sign(g[r])) in InfixCodes(g, code)
    ensures Starter(g[r]) ==> CodeOf(code, Sign(g[r])) in StartCodes(g, code)
  {
  }

  lemma LeafCodes(code: Codes, t: Tree)
    requires t.Leaf? && t.tok.kind in code
    ensures CodesOf(code, Yield(t)) == [CodeOf(code, t.tok.kind)] && Coded(code, Yield(t))
  {
    CodesOne(code, t.tok);
  }

  lemma TwoCodes(code: Codes, x: Tree, y: Tree)
    requires Coded(code, Yield(x)) && Coded(code, Yield(y))
    ensures CodesOf(code, Yield(x) + Yield(y)) == CodesOf(code, Yield(x)) + CodesOf(code, Yield(y)) && Coded(code, Yield(x) + Yield(y))
  {
    CodesAppend(code, Yield(x), Yield(y));
  }

  lemma ThreeCodes(code: Codes, x: Tree, y: Tree, z: Tree)
    requires Coded(code, Yield(x)) && Coded(code, Yield(y)) && Coded(code, Yield(z))
    ensures CodesOf(code, Yield(x) + Yield(y) + Yield(z)) == CodesOf(code, Yield(x)) + CodesOf(code, Yield(y)) + CodesOf(code, Yield(z))
    ensures Coded(code, Yield(x) + Yield(y) + Yield(z))
  {
    TwoCodes(code, x, y);
    CodesAppend(code, Yield(x) + Yield(y), Yield(z));
  }

  /** Every derivation tree of an operator grammar says an expression over its tokens. */
  lemma {:induction false} TreeSays(g: Grammar, code: Codes, tbl: OpTable, t: Tree)
    requires OperatorGrammar(g, code, tbl) && Operandly(g, t)
    ensures Says(g, code, tbl, t, ExprOf(code, t))
    decreases t
  {
    hide OperatorGrammar, Operandly, Yield, CodesOf, Coded, CodeOf, InfixCodes, StartCodes, Infix;
    KidsOf(g, t);
    NodeKids(g, code, tbl, t);
    NodeExpr(g, code, tbl, t);
    ShapeOf(g, code, tbl, t.rule);
    FirstSymbol(g, code, tbl, t.rule);
    RuleCodes(g, code, t.rule);
    NodeYield(t);
    YieldParts(t.rule, t.kids);
    if |t.kids| == 1 {
      LeafCodes(code, t.kids[0]);
      OneExpr(code, t);
    } else if |t.kids| == 2 {
      LeafCodes(code, t.kids[0]);
      TreeSays(g, code, tbl, t.kids[1]);
      TwoCodes(code, t.kids[0], t.kids[1]);
    } else if Bracket(g, t.rule) {
      LeafCodes(code, t.kids[0]);
      TreeSays(g, code, tbl, t.kids[1]);
      LeafCodes(code, t.kids[2]);
      ThreeCodes(code, t.kids[0], t.kids[1], t.kids[2]);
    } else {
      NotBracket(g, t.rule);
      TreeSays(g, code, tbl, t.kids[0]);
      LeafCodes(code, t.kids[1]);
      TreeSays(g, code, tbl, t.kids[2]);
      ThreeCodes(code, t.kids[0], t.kids[1], t.kids[2]);
    }
  }

  lemma OneExpr(code: Codes, t: Tree)
    requires t.Node? && |t.kids| == 1 && t.kids[0].Leaf?
    ensures ExprOf(code, t) == Operand(CodeOf(code, t.kids[0].tok.kind))
  {
    assert ExprOf(code, t.kids[0]) == Operand(CodeOf(code, t.kids[0].tok.kind));
  }

  lemma NotBracket(g: Grammar, r: nat)
    requires 0 < r < |g| && |g[r].rhs| == 3 && !Bracket(g, r)
    ensures Infix(g, r)
  {
  }

  // ----- an expression has a tree -----

  ghost predicate KidFits(g: Grammar, x: Symbol, k: Tree) {
    if x.Term? then k.Leaf? && k.tok.kind == x.t else x == NonTerm(StartName(g)) && Operandly(g, k)
  }

  lemma KidDerives(g: Grammar, code: Codes, tbl: OpTable, x: Symbol, k: Tree, left: seq<Tree>)
    requires OperatorGrammar(g, code, tbl) && KidFits(g, x, k)
    ensures Derives(g, k, x) && Plain(k) && ReadsLeft(k, left)
  {
    hide OperatorGrammar;
    if x.NonTerm? {
      ShapeOf(g, code, tbl, k.rule);
      assert left[|left|..] == [];
    }
  }

  lemma Assembled(g: Grammar, code: Codes, tbl: OpTable, r: nat, kids: seq<Tree>)
    requires OperatorGrammar(g, code, tbl) && 0 < r < |g| && |kids| == |g[r].rhs|
    requires forall i | 0 <= i < |kids| :: KidFits(g, g[r].rhs[i], kids[i])
    ensures Operandly(g, Node(r, [], kids))
  {
    hide OperatorGrammar, KidFits;
    ShapeOf(g, code, tbl, r);
    forall i | 0 <= i < |kids| ensures Derives(g, kids[i], g[r].rhs[i]) && ReadsLeft(kids[i], kids[..i]) && Plain(kids[i]) {
      KidDerives(g, code, tbl, g[r].rhs[i], kids[i], kids[..i]);
    }
  }

  lemma SameCode(g: Grammar, code: Codes, tbl: OpTable, x: Terminal, y: Terminal)
    requires OperatorGrammar(g, code, tbl) && x in code && y in code && CodeOf(code, x) == CodeOf(code, y)
    ensures x == y
  {
    hide RulesShaped, SignsDiffer, WellFormed;
  }

  // The rule that begins with a token, or has it between two operands.
  lemma StarterFor(g: Grammar, code: Codes, tbl: OpTable, tok: Token) returns (r: nat)
    requires OperatorGrammar(g, code, tbl) && tok.kind in code && CodeOf(code, tok.kind) in StartCodes(g, code)
    ensures 0 < r < |g| && Starter(g[r]) && Sign(g[r]) == tok.kind
  {
    hide OperatorGrammar;
    r :| 0 < r < |g| && Starter(g[r]) && CodeOf(code, Sign(g[r])) == CodeOf(code, tok.kind);
    ShapeOf(g, code, tbl, r);
    SameCode(g, code, tbl, Sign(g[r]), tok.kind);
  }

  lemma InfixFor(g: Grammar, code: Codes, tbl: OpTable, tok: Token) returns (r: nat)
    requires OperatorGrammar(g, code, tbl) && tok.kind in code && CodeOf(code, tok.kind) in InfixCodes(g, code)
    ensures Infix(g, r) && g[r].rhs == [NonTerm(StartName(g)), Term(tok.kind), NonTerm(StartName(g))]
  {
    hide OperatorGrammar;
    r :| r < |g| && Infix(g, r) && CodeOf(code, Sign(g[r])) == CodeOf(code, tok.kind);
    ShapeOf(g, code, tbl, r);
    SameCode(g, code, tbl, Sign(g[r]), tok.kind);
  }

  // What a token that begins an operand is decides the form of its rule.
  lemma StarterShape(g: Grammar, code: Codes, tbl: OpTable, r: nat)
    requires OperatorGrammar(g, code, tbl) && 0 < r < |g| && Starter(g[r])
    ensures var k := CodeOf(code, Sign(g[r]));
      && (k in tbl.prefixes ==> g[r].rhs == [Term(Sign(g[r])), NonTerm(StartName(g))])
      && (k == tbl.open ==> g[r].rhs == [Term(Sign(g[r])), NonTerm(StartName(g)), Term(Closer(g[r]))]
                            && Closer(g[r]) in code && CodeOf(code, Closer(g[r])) == tbl.close)
      && (k !in tbl.prefixes && k != tbl.open ==> g[r].rhs == [Term(Sign(g[r]))])
  {
    hide OperatorGrammar;
    ShapeOf(g, code, tbl, r);
    TableFacts(g, code, tbl);
  }

  /** An expression over tokens of the grammar, each used as the grammar uses it, has a derivation tree. */
  lemma {:induction false} TreeFrom(g: Grammar, code: Codes, tbl: OpTable, e: Expr, toks: seq<Token>) returns (t: Tree)
    requires OperatorGrammar(g, code, tbl) && Operators.Named(tbl, e) && Uses(InfixCodes(g, code), StartCodes(g, code), tbl, e)
    requires CodesOf(code, toks) == Tokens(tbl, e) && Coded(code, toks)
    ensures Operandly(g, t) && Yield(t) == toks && ExprOf(code, t) == e
    decreases e
  {
    hide OperatorGrammar, Operandly, Yield, CodesOf, Coded, CodeOf, InfixCodes, StartCodes, Infix;
    match e
    case Operand(x) =>
      CodesSingle(code, toks, x);
      t := OperandTree(g, code, tbl, x, toks[0]);
    case Prefix(x, i) =>
      CodesSplit(code, toks, [x], Tokens(tbl, i));
      CodesSingle(code, toks[..1], x);
      var k := TreeFrom(g, code, tbl, i, toks[1..]);
      t := PrefixTree(g, code, tbl, x, toks[0], k);
    case Group(i) =>
      var n := 1 + |Tokens(tbl, i)|;
      CodesSplit(code, toks, [tbl.open] + Tokens(tbl, i), [tbl.close]);
      CodesSingle(code, toks[n..], tbl.close);
      CodesSplit(code, toks[..n], [tbl.open], Tokens(tbl, i));
      CodesSingle(code, toks[..n][..1], tbl.open);
      var k := TreeFrom(g, code, tbl, i, toks[..n][1..]);
      t := GroupTree(g, code, tbl, toks[0], k, toks[n]);
    case Binary(o, l, r) =>
      var n := |Tokens(tbl, l)|;
      CodesSplit(code, toks, Tokens(tbl, l) + [o], Tokens(tbl, r));
      CodesSplit(code, toks[..n + 1], Tokens(tbl, l), [o]);
      CodesSingle(code, toks[..n + 1][n..], o);
      var x := TreeFrom(g, code, tbl, l, toks[..n + 1][..n]);
      var y := TreeFrom(g, code, tbl, r, toks[n + 1..]);
      t := BinaryTree(g, code, tbl, o, x, toks[n], y);
  }

  lemma OperandTree(g: Grammar, code: Codes, tbl: OpTable, x: nat, tok: Token) returns (t: Tree)
    requires OperatorGrammar(g, code, tbl) && tok.kind in code && CodeOf(code, tok.kind) == x && x in StartCodes(g, code)
    requires x !in tbl.prefixes && x != tbl.open
    ensures Operandly(g, t) && Yield(t) == [tok] && ExprOf(code, t) == Operand(x)
  {
    hide OperatorGrammar, CodeOf, StartCodes, Operandly, Yield;
    var r := StarterFor(g, code, tbl, tok);
    StarterShape(g, code, tbl, r);
    t := Node(r, [], [Leaf(tok)]);
    Assembled(g, code, tbl, r, t.kids);
    YieldParts(r, t.kids);
    LeafYield(Leaf(tok));
    OneExpr(code, t);
  }

  lemma PrefixTree(g: Grammar, code: Codes, tbl: OpTable, x: nat, tok: Token, k: Tree) returns (t: Tree)
    requires OperatorGrammar(g, code, tbl) && tok.kind in code && CodeOf(code, tok.kind) == x && x in StartCodes(g, code)
    requires x in tbl.prefixes && Operandly(g, k)
    ensures Operandly(g, t) && Yield(t) == [tok] + Yield(k) && ExprOf(code, t) == Prefix(x, ExprOf(code, k))
  {
    hide OperatorGrammar, CodeOf, StartCodes, Operandly, Yield;
    var r := StarterFor(g, code, tbl, tok);
    StarterShape(g, code, tbl, r);
    t := Node(r, [], [Leaf(tok), k]);
    Assembled(g, code, tbl, r, t.kids);
    YieldParts(r, t.kids);
    LeafYield(Leaf(tok));
  }

  lemma GroupTree(g: Grammar, code: Codes, tbl: OpTable, tok: Token, k: Tree, end: Token) returns (t: Tree)
    requires OperatorGrammar(g, code, tbl) && tok.kind in code && CodeOf(code, tok.kind) == tbl.open && tbl.open in StartCodes(g, code)
    requires end.kind in code && CodeOf(code, end.kind) == tbl.close && Operandly(g, k)
    ensures Operandly(g, t) && Yield(t) == [tok] + Yield(k) + [end] && ExprOf(code, t) == Group(ExprOf(code, k))
  {
    hide OperatorGrammar, CodeOf, StartCodes, Yield, Derives, Plain;
    var r := StarterFor(g, code, tbl, tok);
    StarterShape(g, code, tbl, r);
    SameCode(g, code, tbl, Closer(g[r]), end.kind);
    t := Node(r, [], [Leaf(tok), k, Leaf(end)]);
    Assembled(g, code, tbl, r, t.kids);
    YieldParts(r, t.kids);
    LeafYield(Leaf(tok));
    LeafYield(Leaf(end));
  }

  lemma BinaryTree(g: Grammar, code: Codes, tbl: OpTable, o: nat, x: Tree, tok: Token, y: Tree) returns (t: Tree)
    requires OperatorGrammar(g, code, tbl) && tok.kind in code && CodeOf(code, tok.kind) == o && o in InfixCodes(g, code)
    requires Operandly(g, x) && Operandly(g, y)
    ensures Operandly(g, t) && Yield(t) == Yield(x) + [tok] + Yield(y) && ExprOf(code, t) == Binary(o, ExprOf(code, x), ExprOf(code, y))
  {
    hide OperatorGrammar, CodeOf, InfixCodes, Yield, Operandly;
    var r := InfixFor(g, code, tbl, tok);
    t := Node(r, [], [x, Leaf(tok), y]);
    Assembled(g, code, tbl, r, t.kids);
    YieldParts(r, t.kids);
    LeafYield(Leaf(tok));
  }

  // ----- the tables -----

  // The tree of the input that respects precedence, from any tree of it.
  lemma Reshaped(g: Grammar, code: Codes, tbl: OpTable, t: Tree) returns (u: Tree)
    requires OperatorGrammar(g, code, tbl) && Operandly(g, t)
    ensures Operandly(g, u) && Yield(u) == Yield(t) && ExprOf(code, u) == Reading(tbl, ExprOf(code, t)) && Respects(g, code, tbl, u)
  {
    hide OperatorGrammar, Operandly, Yield, CodesOf, Coded, InfixCodes, StartCodes, Ordered, Operators.Named, Uses, Tokens, Reading, ExprOf;
    var e := ExprOf(code, t);
    TreeSays(g, code, tbl, t);
    TableFacts(g, code, tbl);
    ReadingOk(tbl, e);
    ReadingUses(InfixCodes(g, code), StartCodes(g, code), tbl, e);
    u := TreeFrom(g, code, tbl, Reading(tbl, e), Yield(t));
  }

  lemma DerivedOperand(g: Grammar, code: Codes, tbl: OpTable, t: Tree, input: seq<Token>)
    requires OperatorGrammar(g, code, tbl)
    ensures DerivedBy(g, t, input) <==> Operandly(g, t) && Yield(t) == input
  {
    hide OperatorGrammar, Derives, Plain, Yield;
    GrammarFits(g, code, tbl);
    ShapeOf(g, code, tbl, 0);
    if DerivedBy(g, t, input) { OperandNode(g, code, tbl, t); }
  }

  lemma RulesRead(g: Grammar, code: Codes, tbl: OpTable)
    requires OperatorGrammar(g, code, tbl)
    ensures AllRead(g)
  {
    hide OperatorGrammar;
    forall r | 0 <= r < |g| ensures Termination.ReadsSome(g[r].rhs) {
      ShapeOf(g, code, tbl, r);
      assert g[r].rhs[0].Term? || g[r].rhs[1].Term?;
    }
  }

  /** Every rule of an operator grammar reads a token, so fuel for twice the input is enough. */
  lemma OperatorFuel(g: Grammar, fm: FirstMap, a: Automaton, m: Mode, pt: ParseTables, code: Codes, tbl: OpTable, input: seq<Token>, fuel: nat)
    requires OperatorGrammar(g, code, tbl) && BuiltFrom(g, fm, a, m, pt) && Kinds(input) && fuel > 2 * |input|
    ensures Suffices(g, pt, input, fuel)
  {
    hide OperatorGrammar, BuiltFrom, Kinds, AllRead, Backed, Runs, ActionsJustified, GotosOk;
    RulesRead(g, code, tbl);
    BuiltBacked(g, fm, a, m, pt);
    ReadingRunsEnd(g, Basis(a, true), pt, input);
  }

  // Whatever is derived and respects precedence is what is returned.
  lemma OrderedReturned(g: Grammar, fm: FirstMap, a: Automaton, m: Mode, pt: ParseTables, code: Codes, tbl: OpTable, input: seq<Token>,
                        fuel: nat, out: Outcome, t: Tree)
    requires OperatorGrammar(g, code, tbl) && BuiltFrom(g, fm, a, m, pt) && Kinds(input)
    requires Deterministically(g, pt, input, fuel, out) && fuel > 2 * |input|
    requires Operandly(g, t) && Yield(t) == input && Ordered(tbl, ExprOf(code, t))
    ensures out == Parsed(t, |input|, |input|)
  {
    hide OperatorGrammar, Grounded, TablesOk, GotosOk, Accepts, Operandly, Ordered, Operators.Named, Uses, ExprOf, Yield, ActionsJustified, Backed,
      NoConflicts, Suffices, Kinds;
    TreeSays(g, code, tbl, t);
    BuiltBacked(g, fm, a, m, pt);
    NoneLeft(g, code, tbl, a, m, pt);
    OperatorFuel(g, fm, a, m, pt, code, tbl, input, fuel);
    NotOut(g, pt, input, fuel, out);
    var acts, q := OrderedAccepted(g, fm, a, m, pt, code, tbl, t);
    assert Accepts(g, pt, input, INITIAL, acts, Config(Stack([0, q], [t]), |input|));
  }

  /** The tables of an operator grammar, LALR or SLR, read it as precedence says: the parser accepts exactly the
      language of the grammar, answers every other input with a syntax error, and of all the derivation trees of
      the input it returns the one that respects precedence and associativity. */
  lemma TablesRead(g: Grammar, fm: FirstMap, a: Automaton, m: Mode, pt: ParseTables, code: Codes, tbl: OpTable, input: seq<Token>,
                   fuel: nat, out: Outcome)
    requires OperatorGrammar(g, code, tbl) && BuiltFrom(g, fm, a, m, pt) && Kinds(input)
    requires OutcomeOk(g, true, pt, input, false, fuel, out) && Deterministically(g, pt, input, fuel, out) && fuel > 2 * |input|
    ensures out.Parsed? <==> InLanguage(g, input)
    ensures out.SyntaxError? <==> !InLanguage(g, input)
    ensures out.Parsed? ==> DerivedBy(g, out.value, input)
    ensures forall t | DerivedBy(g, t, input) :: ExprOf(code, out.value) == Reading(tbl, ExprOf(code, t))
    ensures forall t | DerivedBy(g, t, input) :: t == out.value <==> Ordered(tbl, ExprOf(code, t))
  {
    hide OperatorGrammar, BuiltFrom, OutcomeOk, Deterministically, DerivedBy, Operandly, Ordered, Reading, ExprOf, Yield, Kinds;
    ParsedIsDerived(g, code, tbl, fm, a, m, pt, input, fuel, out);
    forall t | DerivedBy(g, t, input)
      ensures out.Parsed? && DerivedBy(g, out.value, input) && ExprOf(code, out.value) == Reading(tbl, ExprOf(code, t))
      ensures Ordered(tbl, ExprOf(code, out.value)) && (Ordered(tbl, ExprOf(code, t)) ==> t == out.value)
    {
      DerivedOperand(g, code, tbl, t, input);
      var u := Reshaped(g, code, tbl, t);
      DerivedOperand(g, code, tbl, u, input);
      OrderedReturned(g, fm, a, m, pt, code, tbl, input, fuel, out, u);
      if Ordered(tbl, ExprOf(code, t)) { OrderedReturned(g, fm, a, m, pt, code, tbl, input, fuel, out, t); }
    }
  }

  lemma ParsedIsDerived(g: Grammar, code: Codes, tbl: OpTable, fm: FirstMap, a: Automaton, m: Mode, pt: ParseTables, input: seq<Token>,
                        fuel: nat, out: Outcome)
    requires OperatorGrammar(g, code, tbl) && BuiltFrom(g, fm, a, m, pt) && Kinds(input)
    requires OutcomeOk(g, true, pt, input, false, fuel, out) && Deterministically(g, pt, input, fuel, out) && fuel > 2 * |input|
    ensures out.Parsed? ==> InLanguage(g, input)
    ensures out.Parsed? || out.SyntaxError?
  {
    hide OperatorGrammar, Grounded, TablesOk, CanAccept, Setting, GotosOk, ActionsJustified, Backed, StandsFor, InLanguage, NoConflicts, Deterministically,
      Suffices, Kinds;
    BuiltBacked(g, fm, a, m, pt);
    AcceptsExactly(g, fm, a, m, pt, input);
    NoneLeft(g, code, tbl, a, m, pt);
    OperatorFuel(g, fm, a, m, pt, code, tbl, input, fuel);
    NotOut(g, pt, input, fuel, out);
  }

  // ----- the two back ends -----

  // The two grammars have the same operators and begin their operands alike.
  ghost predicate SameRules(g: Grammar, code: Codes, h: PegAnalysis.Grammar, n: nat, tbl: OpTable) {
    InfixCodes(g, code) == PegOperators.InfixTokens(h, n, tbl) && StartCodes(g, code) == PegOperators.StartTokens(h, n, tbl)
  }

  // What a match reads, the grammar of the tables derives.
  lemma MatchedIsDerived(g: Grammar, code: Codes, tbl: OpTable, input: seq<Token>, c: PegMatcher.Peg, n: nat, p: PegMatcher.Pos, q: PegMatcher.Pos)
    requires OperatorGrammar(g, code, tbl) && Coded(code, input)
    requires PegMatcher.Ready(c) && c.maxMunch && PegAnalysis.Sorted(c.g, c.a) && PegOperators.OperatorRules(c.g, n, tbl)
    requires SameRules(g, code, c.g, n, tbl) && p.offset <= c.size && PegOperators.Stream(c, p, CodesOf(code, input), q)
    requires n in c.a.alts && PegMatcher.MatchNonTerminal(c, n, p, 0).Some? && PegMatcher.MatchNonTerminal(c, n, p, 0).value.pos == q
    ensures InLanguage(g, input)
  {
    hide OperatorGrammar, Coded, CodesOf, PegMatcher.Ready, PegAnalysis.Sorted, PegOperators.OperatorRules, PegOperators.Stream, PegTrees.Parses,
      PegOperators.AsExpr, Uses, Operators.Named, Tokens, DerivedBy, Operandly, Yield, InfixCodes, StartCodes;
    var m := PegMatcher.MatchNonTerminal(c, n, p, 0).value;
    PegTrees.NameParses(c, n, p, 0);
    PegOperators.ParsesMeans(c, n, tbl, m.value, p, q);
    PegOperators.TokensTried(c, n, tbl);
    var e := PegOperators.AsExpr(m.value);
    PegOperators.StreamsAgree(c, p, CodesOf(code, input), q, Tokens(tbl, e), q);
    var t := TreeFrom(g, code, tbl, e, input);
    DerivedOperand(g, code, tbl, t, input);
  }

  // What the grammar of the tables derives is matched as its reading.
  lemma DerivedIsMatched(g: Grammar, code: Codes, tbl: OpTable, input: seq<Token>, t: Tree, c: PegMatcher.Peg, n: nat, p: PegMatcher.Pos,
                         q: PegMatcher.Pos)
    requires OperatorGrammar(g, code, tbl) && DerivedBy(g, t, input)
    requires PegMatcher.Ready(c) && c.maxMunch && PegAnalysis.Sorted(c.g, c.a) && PegOperators.OperatorRules(c.g, n, tbl)
    requires SameRules(g, code, c.g, n, tbl) && p.offset <= c.size && PegOperators.Stream(c, p, CodesOf(code, input), q) && q.offset <= c.size
    requires n in c.a.alts && forall o | o in tbl.binary :: PegMatcher.MatchTerminal(c, o, q).None?
    ensures var m := PegMatcher.MatchNonTerminal(c, n, p, 0);
      m.Some? && m.value.pos == q && PegOperators.AsExpr(m.value.value) == Reading(tbl, ExprOf(code, t))
  {
    hide OperatorGrammar, Coded, CodesOf, PegMatcher.Ready, PegAnalysis.Sorted, PegOperators.OperatorRules, PegOperators.Stream,
      PegOperators.AsExpr, Uses, Operators.Named, Tokens, DerivedBy, Operandly, Yield, InfixCodes, StartCodes, ExprOf, Reading;
    DerivedOperand(g, code, tbl, t, input);
    TreeSays(g, code, tbl, t);
    PegOperators.TokensTried(c, n, tbl);
    PegOperators.PartFromRules(c, n, tbl);
    ReadingUses(InfixCodes(g, code), StartCodes(g, code), tbl, ExprOf(code, t));
    PegOperators.PegReads(c, n, tbl, ExprOf(code, t), p, q);
  }

  /** Both back ends agree on operator grammars: over the same tokens, with no binary operator after them, the
      table-driven parser accepts exactly when the packrat parser matches them all, and the two return the same
      expression. */
  lemma BackEndsAgree(g: Grammar, fm: FirstMap, a: Automaton, m: Mode, pt: ParseTables, code: Codes, tbl: OpTable, input: seq<Token>,
                      fuel: nat, out: Outcome, c: PegMatcher.Peg, n: nat, p: PegMatcher.Pos, q: PegMatcher.Pos)
    requires OperatorGrammar(g, code, tbl) && BuiltFrom(g, fm, a, m, pt) && Kinds(input) && Coded(code, input)
    requires OutcomeOk(g, true, pt, input, false, fuel, out) && Deterministically(g, pt, input, fuel, out) && fuel > 2 * |input|
    requires PegMatcher.Ready(c) && c.maxMunch && PegAnalysis.Sorted(c.g, c.a) && PegOperators.OperatorRules(c.g, n, tbl)
    requires SameRules(g, code, c.g, n, tbl) && p.offset <= c.size && PegOperators.Stream(c, p, CodesOf(code, input), q) && q.offset <= c.size
    requires forall o | o in tbl.binary :: PegMatcher.MatchTerminal(c, o, q).None?
    ensures n in c.a.alts
    ensures var found := PegMatcher.MatchNonTerminal(c, n, p, 0);
      && (out.Parsed? <==> found.Some? && found.value.pos == q)
      && (out.Parsed? ==> PegOperators.AsExpr(found.value.value) == ExprOf(code, out.value))
  {
    hide OperatorGrammar, BuiltFrom, Kinds, Coded, OutcomeOk, Deterministically, PegMatcher.Ready, PegAnalysis.Sorted, PegOperators.OperatorRules,
      SameRules, PegOperators.Stream, CodesOf, Ordered, Reading, ExprOf, PegOperators.AsExpr, DerivedBy, InLanguage;
    PegOperators.TokensTried(c, n, tbl);
    TablesRead(g, fm, a, m, pt, code, tbl, input, fuel, out);
    var found := PegMatcher.MatchNonTerminal(c, n, p, 0);
    if out.Parsed? {
      DerivedIsMatched(g, code, tbl, input, out.value, c, n, p, q);
    } else if found.Some? && found.value.pos == q {
      MatchedIsDerived(g, code, tbl, input, c, n, p, q);
    }
  }
}
