/** The arithmetic grammar of the documentation (README.md:45-62) is one that the theorems on operators speak of. */
module Arithmetic {
  import opened Options
  import opened Operators
  import G = Grammars
  import T = OperatorTables
  import A = PegAnalysis
  import P = PegOperators
  import Agreement

  const NUMBER: nat := 0
  const PLUS: nat := 1
  const MINUS: nat := 2
  const TIMES: nat := 3
  const OVER: nat := 4
  const OPEN: nat := 5
  const CLOSE: nat := 6

  const CODES: T.Codes := map[G.Named("number") := NUMBER, G.Named("+") := PLUS, G.Named("-") := MINUS,
    G.Named("*") := TIMES, G.Named("/") := OVER, G.Named("(") := OPEN, G.Named(")") := CLOSE]

  const TABLE := OpTable(map[PLUS := (0, false), MINUS := (0, false), TIMES := (1, false), OVER := (1, false)], {MINUS}, 2, OPEN, CLOSE)

  const ADDITIVE := Some(G.Prec(G.Left, Some(0)))
  const MULTIPLICATIVE := Some(G.Prec(G.Left, Some(1)))
  const UNARY := Some(G.Prec(G.Right, Some(2)))

  // ----- for the tables -----

  const EXPR := G.NonTerm(G.Nt(0))

  function Word(name: string): G.Symbol {
    G.Term(G.Named(name))
  }

  function Alternative(rhs: seq<G.Symbol>, prec: Option<G.Prec>): G.Rule {
    G.Rule(G.Nt(0), rhs, prec, false, 0, false)
  }

  function RuleAt(r: nat): G.Rule {
    match r
    case 0 => G.Rule(G.Accept, [EXPR, G.Term(G.End)], None, true, 0, false)
    case 1 => Alternative([EXPR, Word("+"), EXPR], ADDITIVE)
    case 2 => Alternative([EXPR, Word("-"), EXPR], ADDITIVE)
    case 3 => Alternative([EXPR, Word("*"), EXPR], MULTIPLICATIVE)
    case 4 => Alternative([EXPR, Word("/"), EXPR], MULTIPLICATIVE)
    case 5 => Alternative([Word("-"), EXPR], UNARY)
    case 6 => Alternative([Word("("), EXPR, Word(")")], None)
    case _ => Alternative([Word("number")], None)
  }

  function Rules(): (g: G.Grammar)
    ensures |g| == 8 && forall r | 0 <= r < 8 :: g[r] == RuleAt(r)
  {
    seq(8, r requires 0 <= r < 8 => RuleAt(r))
  }

  // What tells the rules apart.
  function SignAt(r: nat): (string, bool) {
    match r
    case 1 => ("+", false)
    case 2 => ("-", false)
    case 3 => ("*", false)
    case 4 => ("/", false)
    case 5 => ("-", true)
    case 6 => ("(", true)
    case _ => ("number", true)
  }

  lemma WordsDiffer()
    ensures "+" != "-" && "+" != "*" && "+" != "/" && "-" != "*" && "-" != "/" && "*" != "/" && "-" != "(" && "-" != "number" && "(" != "number"
    ensures ")" != "+" && ")" != "-" && ")" != "*" && ")" != "/" && ")" != "(" && ")" != "number" && "+" != "(" && "*" != "(" && "/" != "("
    ensures "+" != "number" && "*" != "number" && "/" != "number"
  {
    assert "+"[0] != "-"[0] && "+"[0] != "*"[0] && "+"[0] != "/"[0] && "-"[0] != "*"[0] && "-"[0] != "/"[0] && "*"[0] != "/"[0];
    assert ")"[0] != "+"[0] && ")"[0] != "-"[0] && ")"[0] != "*"[0] && ")"[0] != "/"[0] && ")"[0] != "("[0];
    assert "("[0] != "+"[0] && "("[0] != "-"[0] && "("[0] != "*"[0] && "("[0] != "/"[0];
    assert |"number"| == 6;
  }

  lemma InfixRuleFits(r: nat)
    requires 0 < r < 5
    ensures T.RuleShaped(Rules(), CODES, TABLE, r)
    ensures T.Sign(Rules()[r]) == G.Named(SignAt(r).0) && T.Starter(Rules()[r]) == SignAt(r).1
  {
    WordsDiffer();
  }

  lemma StartRuleFits(r: nat)
    requires 5 <= r < 8
    ensures T.RuleShaped(Rules(), CODES, TABLE, r)
    ensures T.Sign(Rules()[r]) == G.Named(SignAt(r).0) && T.Starter(Rules()[r]) == SignAt(r).1
  {
    WordsDiffer();
  }

  lemma RuleFits(r: nat)
    requires 0 < r < 8
    ensures T.RuleShaped(Rules(), CODES, TABLE, r)
    ensures T.Sign(Rules()[r]) == G.Named(SignAt(r).0) && T.Starter(Rules()[r]) == SignAt(r).1
  {
    hide T.RuleShaped, T.Sign, T.Starter, Rules, RuleAt, SignAt;
    if r < 5 { InfixRuleFits(r); } else { StartRuleFits(r); }
  }

  lemma FirstRule()
    ensures Rules()[0] == RuleAt(0) && T.StartName(Rules()) == G.Nt(0)
  {
  }

  lemma OtherRule(r: nat, i: nat)
    requires 0 < r < 8
    ensures Rules()[r].lhs == G.Nt(0) && Rules()[r].peek == 0
    ensures i < |Rules()[r].rhs| ==>
              Rules()[r].rhs[i] != G.Term(G.End) && Rules()[r].rhs[i] != G.Term(G.Error) && Rules()[r].rhs[i] != G.NonTerm(G.Accept)
  {
  }

  lemma FormFits()
    ensures G.WellFormed(Rules()) && Rules()[0].prec == None && T.StartName(Rules()) == G.Nt(0)
  {
    hide RuleAt, G.PeekPlaced, T.StartName;
    FirstRule();
    assert RuleAt(0) == G.Rule(G.Accept, [EXPR, G.Term(G.End)], None, true, 0, false) by { AcceptRule(); }
    forall r: nat | 0 < r < 8 ensures Rules()[r].lhs == G.Nt(0) && Rules()[r].peek == 0 { OtherRule(r, 0); }
    forall r: nat, i: nat | 0 < r < 8 && i < |Rules()[r].rhs|
      ensures Rules()[r].rhs[i] != G.Term(G.End) && Rules()[r].rhs[i] != G.Term(G.Error) && Rules()[r].rhs[i] != G.NonTerm(G.Accept)
    {
      OtherRule(r, i);
    }
  }

  lemma AcceptRule()
    ensures RuleAt(0) == G.Rule(G.Accept, [EXPR, G.Term(G.End)], None, true, 0, false)
  {
  }

  lemma TableFits()
    ensures TableOk(TABLE)
  {
  }

  lemma CodesFit()
    ensures forall x, y | x in CODES && y in CODES && CODES[x] == CODES[y] :: x == y
  {
    WordsDiffer();
  }

  /** Nothing that the theorems ask of the grammar of the tables is missing. */
  lemma ForTheTables()
    ensures T.OperatorGrammar(Rules(), CODES, TABLE)
  {
    hide G.WellFormed, TableOk, T.RuleShaped, Rules, RuleAt, SignAt, T.Sign, T.Starter;
    FormFits();
    TableFits();
    CodesFit();
    forall r | 1 <= r < 8 ensures T.RuleShaped(Rules(), CODES, TABLE, r) { RuleFits(r); }
    forall q, r | 1 <= q < 8 && 1 <= r < 8 && T.Sign(Rules()[q]) == T.Sign(Rules()[r]) && T.Starter(Rules()[q]) == T.Starter(Rules()[r])
      ensures q == r
    {
      RuleFits(q);
      RuleFits(r);
      SignsTell(q, r);
    }
  }

  lemma SignsTell(q: nat, r: nat)
    requires 1 <= q < 8 && 1 <= r < 8 && SignAt(q) == SignAt(r)
    ensures q == r
  {
    WordsDiffer();
  }

  // ----- for the packrat parser -----

  const NAME: nat := 1

  function PegRuleAt(r: nat): A.Rule {
    match r
    case 0 => A.Rule(0, [A.NonTerminal(NAME)], None, None)
    case 1 => A.Rule(NAME, [A.NonTerminal(NAME), A.Token(PLUS), A.NonTerminal(NAME)], ADDITIVE, None)
    case 2 => A.Rule(NAME, [A.NonTerminal(NAME), A.Token(MINUS), A.NonTerminal(NAME)], ADDITIVE, None)
    case 3 => A.Rule(NAME, [A.NonTerminal(NAME), A.Token(TIMES), A.NonTerminal(NAME)], MULTIPLICATIVE, None)
    case 4 => A.Rule(NAME, [A.NonTerminal(NAME), A.Token(OVER), A.NonTerminal(NAME)], MULTIPLICATIVE, None)
    case 5 => A.Rule(NAME, [A.Token(MINUS), A.NonTerminal(NAME)], UNARY, None)
    case 6 => A.Rule(NAME, [A.Token(OPEN), A.NonTerminal(NAME), A.Token(CLOSE)], None, None)
    case _ => A.Rule(NAME, [A.Token(NUMBER)], None, None)
  }

  function PegRules(): (g: A.Grammar)
    ensures |g| == 8 && forall r | 0 <= r < 8 :: g[r] == PegRuleAt(r)
  {
    seq(8, r requires 0 <= r < 8 => PegRuleAt(r))
  }

  lemma PegRuleFits(r: nat)
    requires 0 < r < 8
    ensures var x := PegRules()[r]; x.lhs == NAME && if r < 5 then P.BinaryRule(x, NAME, TABLE) && P.OpOf(x) == r && !P.BaseRule(x, NAME, TABLE)
                                    else P.BaseRule(x, NAME, TABLE) && !P.BinaryRule(x, NAME, TABLE)
    ensures P.FirstToken(PegRules()[5]) == MINUS && P.FirstToken(PegRules()[6]) == OPEN && P.FirstToken(PegRules()[7]) == NUMBER
  {
  }

  lemma CodesAre(r: nat)
    requires 0 < r < 8
    ensures T.Infix(Rules(), r) <==> r < 5
    ensures T.Starter(Rules()[r]) <==> r >= 5
    ensures T.CodeOf(CODES, T.Sign(Rules()[r])) == if r < 5 then r else if r == 5 then MINUS else if r == 6 then OPEN else NUMBER
  {
    RuleFits(r);
  }

  lemma TablesUse()
    ensures Agreement.InfixCodes(Rules(), CODES) == {PLUS, MINUS, TIMES, OVER}
    ensures Agreement.StartCodes(Rules(), CODES) == {MINUS, OPEN, NUMBER}
  {
    hide RuleAt, Rules, T.Infix, T.Starter, T.CodeOf, T.Sign;
    forall r | 0 < r < 8 ensures (T.Infix(Rules(), r) <==> r < 5) && (T.Starter(Rules()[r]) <==> r >= 5)
      && T.CodeOf(CODES, T.Sign(Rules()[r])) == if r < 5 then r else if r == 5 then MINUS else if r == 6 then OPEN else NUMBER {
      CodesAre(r);
    }
    assert !T.Infix(Rules(), 0) by { NoInfix(); }
    assert T.Infix(Rules(), 1) && T.Infix(Rules(), 2) && T.Infix(Rules(), 3) && T.Infix(Rules(), 4);
    assert T.Starter(Rules()[5]) && T.Starter(Rules()[6]) && T.Starter(Rules()[7]);
  }

  lemma NoInfix()
    ensures !T.Infix(Rules(), 0)
  {
  }

  lemma PegUses()
    ensures P.InfixTokens(PegRules(), NAME, TABLE) == {PLUS, MINUS, TIMES, OVER}
    ensures P.StartTokens(PegRules(), NAME, TABLE) == {MINUS, OPEN, NUMBER}
  {
    hide PegRuleAt, PegRules, P.BinaryRule, P.BaseRule, P.OpOf, P.FirstToken;
    forall r | 0 < r < 8 ensures PegRules()[r].lhs == NAME && (P.BinaryRule(PegRules()[r], NAME, TABLE) <==> r < 5)
      && (P.BaseRule(PegRules()[r], NAME, TABLE) <==> r >= 5) && (r < 5 ==> P.OpOf(PegRules()[r]) == r) {
      PegRuleFits(r);
    }
    PegRuleFits(1);
    assert P.BinaryRule(PegRules()[1], NAME, TABLE) && P.BinaryRule(PegRules()[2], NAME, TABLE);
    assert P.BinaryRule(PegRules()[3], NAME, TABLE) && P.BinaryRule(PegRules()[4], NAME, TABLE);
    assert P.BaseRule(PegRules()[5], NAME, TABLE) && P.BaseRule(PegRules()[6], NAME, TABLE) && P.BaseRule(PegRules()[7], NAME, TABLE);
  }

  /** Nor of the grammar of the packrat parser; and the two have the same rules. */
  lemma ForThePackratParser()
    ensures P.OperatorRules(PegRules(), NAME, TABLE) && Agreement.SameRules(Rules(), CODES, PegRules(), NAME, TABLE)
  {
    hide TableOk, PegRules, PegRuleAt, P.BinaryRule, P.BaseRule, P.OpOf, P.FirstToken, Agreement.InfixCodes, Agreement.StartCodes,
      P.InfixTokens, P.StartTokens;
    TableFits();
    TablesUse();
    PegUses();
    forall r | 1 <= r < 8 ensures PegRules()[r].lhs == NAME && (P.BinaryRule(PegRules()[r], NAME, TABLE) || P.BaseRule(PegRules()[r], NAME, TABLE)) {
      PegRuleFits(r);
    }
    PegRuleFits(1);
  }

  // Readings of `3 + 4 * 5` and `-3 * 2`, over the codes of their tokens.
  lemma ReadsExamples()
    ensures var n := Operand(NUMBER); Reading(TABLE, Binary(TIMES, Binary(PLUS, n, n), n)) == Binary(PLUS, n, Binary(TIMES, n, n))
    ensures var n := Operand(NUMBER);
      Reading(TABLE, Operators.Prefix(MINUS, Binary(TIMES, n, n))) == Binary(TIMES, Operators.Prefix(MINUS, n), n)
  {
    var n := Operand(NUMBER);
    assert Reading(TABLE, n) == n;
    assert Reading(TABLE, Binary(PLUS, n, n)) == Binary(PLUS, n, n);
    assert Extended(TABLE, n, TIMES, n) == Binary(TIMES, n, n);
  }
}
