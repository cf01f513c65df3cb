/** The printer of expressions adds parentheses where they are needed, and nowhere else
    (src/examples/CPP/printer.ts:42-54, 64-90, 416-430; src/examples/CPP/c-parser.ts:56-72). */
module Printing {
  import opened Options
  import opened Operators
  import opened Grammars
  import opened FirstSets
  import opened Automata
  import opened Lookaheads
  import opened Tables
  import opened Machine
  import opened Parsing
  import opened Language
  import opened Build
  import T = OperatorTables
  import Agreement

  // What a parser's actions build; parentheses leave no trace.
  datatype Ast = Atom(token: nat) | Unary(op: nat, operand: Ast) | Infix(op: nat, left: Ast, right: Ast)

  // The levels the printer goes by, binary operators below the rest.
  type Levels = map<nat, int>

  const UNARY_PREC := 15
  const PRIMARY_PREC := 17

  function ExprPrecedence(prec: Levels, e: Ast): int {
    match e
    case Atom(_) => PRIMARY_PREC
    case Unary(_, _) => UNARY_PREC
    case Infix(o, _, _) => if o in prec then prec[o] else 0
  }

  /** The expression as it is printed: `least` is the level asked for at this place. */
  function Printed(prec: Levels, e: Ast, least: int): Expr
    decreases e, 1
  {
    if ExprPrecedence(prec, e) < least then Group(Body(prec, e)) else Body(prec, e)
  }

  function Body(prec: Levels, e: Ast): Expr
    decreases e, 0
  {
    match e
    case Atom(a) => Operand(a)
    case Unary(o, x) => Operators.Prefix(o, Printed(prec, x, UNARY_PREC))
    case Infix(o, l, r) =>
      var level := if o in prec then prec[o] else 0;
      Binary(o, Printed(prec, l, level), Printed(prec, r, level + 1))
  }

  // ----- what a parser makes of it -----

  /** What is built from an expression that was read. */
  function Meaning(t: Expr): Ast {
    match t
    case Operand(a) => Atom(a)
    case Prefix(o, e) => Unary(o, Meaning(e))
    case Group(e) => Meaning(e)
    case Binary(o, l, r) => Infix(o, Meaning(l), Meaning(r))
  }

  // The printer's levels are in the order of the parser's, where all are left-associative.
  ghost predicate SameOrder(prec: Levels, tbl: OpTable) {
    && prec.Keys == tbl.binary.Keys
    && (forall x | x in prec :: 0 < prec[x] < UNARY_PREC && !RightAssoc(tbl, x))
    && (forall x, y | x in prec && y in prec :: prec[x] < prec[y] <==> Level(tbl, x) < Level(tbl, y))
  }

  // Every operator is in the table and no operand is mistaken for one.
  predicate Known(tbl: OpTable, e: Ast) {
    match e
    case Atom(a) => a !in tbl.prefixes && a != tbl.open
    case Unary(o, x) => o in tbl.prefixes && Known(tbl, x)
    case Infix(o, l, r) => o in tbl.binary && Known(tbl, l) && Known(tbl, r)
  }

  /** What is printed is ordered as the parser reads it, and means what was printed. */
  lemma {:induction false} PrintedOk(prec: Levels, tbl: OpTable, e: Ast, least: int)
    requires SameOrder(prec, tbl) && Known(tbl, e)
    ensures var t := Printed(prec, e, least); Ordered(tbl, t) && Operators.Named(tbl, t) && Meaning(t) == e
    ensures Printed(prec, e, least).Binary? <==> e.Infix? && prec[e.op] >= least
    ensures Printed(prec, e, least).Binary? ==> Printed(prec, e, least).op == e.op
    decreases e
  {
    match e
    case Atom(_) =>
    case Unary(_, x) =>
      PrintedOk(prec, tbl, x, UNARY_PREC);
    case Infix(o, l, r) =>
      PrintedOk(prec, tbl, l, prec[o]);
      PrintedOk(prec, tbl, r, prec[o] + 1);
  }

  // ----- and none is spare -----

  // The same without a parenthesis.
  function Bare(e: Ast): Expr {
    match e
    case Atom(a) => Operand(a)
    case Unary(o, x) => Operators.Prefix(o, Bare(x))
    case Infix(o, l, r) => Binary(o, Bare(l), Bare(r))
  }

  /** Where the order allows to do without parentheses, none are printed. */
  lemma {:induction false} NoneSpare(prec: Levels, tbl: OpTable, e: Ast)
    requires SameOrder(prec, tbl) && Known(tbl, e)
    ensures Ordered(tbl, Bare(e)) <==> Printed(prec, e, 0) == Bare(e)
  {
    BodyBare(prec, tbl, e);
  }

  lemma {:induction false} BodyBare(prec: Levels, tbl: OpTable, e: Ast)
    requires SameOrder(prec, tbl) && Known(tbl, e)
    ensures Ordered(tbl, Bare(e)) <==> Body(prec, e) == Bare(e)
    decreases e
  {
    match e
    case Atom(_) =>
    case Unary(_, x) =>
      BodyBare(prec, tbl, x);
      PrintedOk(prec, tbl, x, UNARY_PREC);
    case Infix(o, l, r) =>
      BodyBare(prec, tbl, l);
      BodyBare(prec, tbl, r);
  }

  // ----- printing, then parsing -----

  lemma {:induction false} PrintedUses(infixes: set<nat>, starts: set<nat>, prec: Levels, tbl: OpTable, e: Ast, least: int)
    requires Uses(infixes, starts, tbl, Bare(e)) && tbl.open in starts
    ensures Uses(infixes, starts, tbl, Printed(prec, e, least))
    decreases e
  {
    match e
    case Atom(_) =>
    case Unary(_, x) =>
      PrintedUses(infixes, starts, prec, tbl, x, UNARY_PREC);
    case Infix(o, l, r) =>
      var level := if o in prec then prec[o] else 0;
      PrintedUses(infixes, starts, prec, tbl, l, level);
      PrintedUses(infixes, starts, prec, tbl, r, level + 1);
  }

  /** Printing and parsing are inverse: the tables of an operator grammar with parentheses, which has the
      operators and operands of `e`, read what is printed for `e` back as `e`. */
  lemma PrintedParses(g: Grammar, fm: FirstMap, a: Automaton, m: Mode, pt: ParseTables, code: T.Codes, tbl: OpTable, input: seq<Token>,
                      fuel: nat, out: Outcome, prec: Levels, e: Ast)
    requires T.OperatorGrammar(g, code, tbl) && BuiltFrom(g, fm, a, m, pt) && Kinds(input)
    requires OutcomeOk(g, true, pt, input, false, fuel, out) && Deterministically(g, pt, input, fuel, out) && fuel > 2 * |input|
    requires SameOrder(prec, tbl) && Known(tbl, e) && tbl.open in Agreement.StartCodes(g, code)
    requires Uses(Agreement.InfixCodes(g, code), Agreement.StartCodes(g, code), tbl, Bare(e))
    requires Agreement.Coded(code, input) && Agreement.CodesOf(code, input) == Tokens(tbl, Printed(prec, e, 0))
    ensures out.Parsed? && Meaning(T.ExprOf(code, out.value)) == e
  {
    hide T.OperatorGrammar, BuiltFrom, Kinds, OutcomeOk, Deterministically, Agreement.InfixCodes, Agreement.StartCodes, Agreement.Coded,
      Agreement.CodesOf, Tokens, Printed, Body, Ordered, Operators.Named, Uses, T.Operandly, DerivedBy, InLanguage, T.ExprOf, Meaning, Bare, SameOrder;
    var t := Printed(prec, e, 0);
    PrintedOk(prec, tbl, e, 0);
    PrintedUses(Agreement.InfixCodes(g, code), Agreement.StartCodes(g, code), prec, tbl, e, 0);
    var tree := Agreement.TreeFrom(g, code, tbl, t, input);
    Agreement.OrderedReturned(g, fm, a, m, pt, code, tbl, input, fuel, out, tree);
  }

  // ----- the levels of C++ -----

  // Binary operators are known by their place in this list.
  const OPERATORS: seq<string> := [",", "||", "&&", "|", "^", "&", "==", "!=", "<", ">", "<=", ">=", "<<", ">>", "+", "-", "*", "/", "%"]

  // The printer's number for each.
  function Rank(x: nat): int {
    if x == 0 then 1 else if x == 1 then 4 else if x == 2 then 5 else if x == 3 then 6 else if x == 4 then 7 else if x == 5 then 8
    else if x < 8 then 9 else if x < 12 then 10 else if x < 14 then 11 else if x < 16 then 12 else 13
  }

  const BINARY_PREC: Levels := map x: nat | x < |OPERATORS| :: Rank(x)

  // The grammar lists its levels in that order, from zero: comma, assignment, conditional, logicalOr and so on.
  function Precedence(prefixes: set<nat>, open: nat, close: nat): OpTable {
    OpTable(map x: nat | x < |OPERATORS| :: (Rank(x) - 1, false), prefixes, 14, open, close)
  }

  /** The printer's table of numbers and the grammar's list of levels put the operators in the same order. */
  lemma SameOrderInCpp(prefixes: set<nat>, open: nat, close: nat)
    requires open >= |OPERATORS| && close >= |OPERATORS| && open !in prefixes
    ensures SameOrder(BINARY_PREC, Precedence(prefixes, open, close)) && TableOk(Precedence(prefixes, open, close))
  {
  }

  // ----- the text -----

  // How tokens are spelled.
  type Spelling = map<nat, string>

  function Spelled(sp: Spelling, o: nat): string {
    if o in sp then sp[o] else ""
  }

  predicate Wordy(c: char) {
    'a' <= c <= 'z' || 'A' <= c <= 'Z' || '0' <= c <= '9' || c == '_'
  }

  predicate StartsWordy(text: string) {
    text != "" && Wordy(text[0])
  }

  // Binary operators stand between spaces, unless that is turned off.
  function Spaced(spaced: bool, op: string): string {
    if spaced then " " + op + " " else op
  }

  /** The text of an expression. */
  function Text(sp: Spelling, spaced: bool, t: Expr): string {
    match t
    case Operand(a) => Spelled(sp, a)
    case Prefix(o, e) => Spelled(sp, o) + (if StartsWordy(Spelled(sp, o)) then " " else "") + Text(sp, spaced, e)
    case Group(e) => "(" + Text(sp, spaced, e) + ")"
    case Binary(o, l, r) => Text(sp, spaced, l) + Spaced(spaced, Spelled(sp, o)) + Text(sp, spaced, r)
  }

  // The texts of its tokens.
  function Texts(sp: Spelling, t: Expr): (ts: seq<string>)
    ensures |ts| > 0
  {
    match t
    case Operand(a) => [Spelled(sp, a)]
    case Prefix(o, e) => [Spelled(sp, o)] + Texts(sp, e)
    case Group(e) => ["("] + Texts(sp, e) + [")"]
    case Binary(o, l, r) => Texts(sp, l) + [Spelled(sp, o)] + Texts(sp, r)
  }

  // ----- the lexer -----

  function WordLength(text: string): (n: nat)
    ensures n <= |text| && (StartsWordy(text) ==> n > 0)
  {
    if StartsWordy(text) then 1 + WordLength(text[1..]) else 0
  }

  /** The longest token that is allowed here: where an operand is to come, prefix operators and parentheses,
      and after an operand, everything else. */
  function TokenLength(text: string, operand: bool): (n: nat)
    requires text != ""
    ensures 0 < n <= |text|
  {
    var c := text[0];
    if Wordy(c) then WordLength(text)
    else if |text| == 1 then 1
    else if operand then (if text[1] == c && c in {'+', '-'} then 2 else 1)
    else if |text| > 2 && text[2] == '=' && text[1] == c && c in {'<', '>', '&', '|'} then 3
    else if text[1] == '=' && c in {'+', '-', '*', '/', '%', '&', '|', '^', '=', '!', '<', '>'} then 2
    else if text[1] == c && c in {'+', '-', '&', '|', '<', '>'} then 2
    else if c == '-' && text[1] == '>' then 2
    else 1
  }

  // Whether an operand is to come after a token.
  predicate OperandNext(token: string, operand: bool) {
    if operand then !StartsWordy(token) || token == "sizeof" else token !in {")", "++", "--"}
  }

  function Lexed(text: string, operand: bool): seq<string>
    decreases |text|
  {
    if text == "" then []
    else if text[0] == ' ' then Lexed(text[1..], operand)
    else
      var n := TokenLength(text, operand);
      [text[..n]] + Lexed(text[n..], OperandNext(text[..n], operand))
  }

  // ----- text that reads back -----

  predicate Word(text: string) {
    text != "" && text != "sizeof" && forall i | 0 <= i < |text| :: Wordy(text[i])
  }

  predicate PrefixOperator(op: string) {
    op == "+" || op == "-" || op == "!" || op == "~" || op == "*" || op == "&" || op == "++" || op == "--" || op == "sizeof"
  }

  // Operands are identifiers and integers, and operators those of C++.
  predicate Plainly(sp: Spelling, t: Expr) {
    match t
    case Operand(a) => Word(Spelled(sp, a))
    case Prefix(o, e) => PrefixOperator(Spelled(sp, o)) && Plainly(sp, e)
    case Group(e) => Plainly(sp, e)
    case Binary(o, l, r) => Spelled(sp, o) in OPERATORS && Plainly(sp, l) && Plainly(sp, r)
  }

  function Head(text: string): string {
    if text == "" then "" else text[..1]
  }

  // An operator and the text after it begin with a longer token: `++`, `--`, or, after an operand, `&&`.
  predicate Clash(op: string, text: string, operand: bool) {
    op == Head(text) && (op == "+" || op == "-" || (op == "&" && !operand))
  }

  /** No two neighbours make another token. */
  predicate Apart(sp: Spelling, spaced: bool, t: Expr) {
    match t
    case Operand(_) => true
    case Prefix(o, e) => !Clash(Spelled(sp, o), Text(sp, spaced, e), true) && Apart(sp, spaced, e)
    case Group(e) => Apart(sp, spaced, e)
    case Binary(o, l, r) =>
      Apart(sp, spaced, l) && (spaced || !Clash(Spelled(sp, o), Text(sp, spaced, r), false)) && Apart(sp, spaced, r)
  }

  // What begins an operand.
  predicate OpensOperand(text: string) {
    text != "" && (Wordy(text[0]) || text[0] in {'(', '+', '-', '!', '~', '*', '&'})
  }

  lemma {:induction false} TextOpens(sp: Spelling, spaced: bool, t: Expr)
    requires Plainly(sp, t)
    ensures OpensOperand(Text(sp, spaced, t))
  {
    match t
    case Operand(_) =>
    case Prefix(o, _) => PrefixOpens(Spelled(sp, o));
    case Group(_) =>
    case Binary(_, l, _) => TextOpens(sp, spaced, l);
  }

  lemma PrefixOpens(op: string)
    requires PrefixOperator(op)
    ensures OpensOperand(op)
  {
  }

  // ----- one token -----

  lemma {:induction false} WordRun(word: string, rest: string)
    requires (forall i | 0 <= i < |word| :: Wordy(word[i])) && !StartsWordy(rest)
    ensures WordLength(word + rest) == |word|
  {
    if word == "" {
      assert word + rest == rest;
    } else {
      WordRun(word[1..], rest);
      assert (word + rest)[1..] == word[1..] + rest;
    }
  }

  lemma WordLexed(word: string, rest: string)
    requires Word(word) && !StartsWordy(rest)
    ensures Lexed(word + rest, true) == [word] + Lexed(rest, false)
  {
    WordRun(word, rest);
    assert (word + rest)[..|word|] == word && (word + rest)[|word|..] == rest;
  }

  lemma TokenLexed(token: string, rest: string, operand: bool)
    requires token != "" && token[0] != ' ' && TokenLength(token + rest, operand) == |token|
    ensures Lexed(token + rest, operand) == [token] + Lexed(rest, OperandNext(token, operand))
  {
    assert (token + rest)[..|token|] == token && (token + rest)[|token|..] == rest;
  }

  lemma SpaceLexed(rest: string, operand: bool)
    ensures Lexed(" " + rest, operand) == Lexed(rest, operand)
  {
    assert (" " + rest)[1..] == rest;
  }

  // A token longer than `token` begins the text.
  lemma LongerLexed(token: string, rest: string, operand: bool)
    requires token != "" && token[0] != ' ' && TokenLength(token + rest, operand) != |token|
    ensures Lexed(token + rest, operand) != [] && Lexed(token + rest, operand)[0] != token
  {
  }

  lemma PrefixLength(op: string, rest: string)
    requires PrefixOperator(op) && op != "sizeof" && OpensOperand(rest)
    ensures TokenLength(op + rest, true) == |op| <==> !Clash(op, rest, true)
    ensures op != "" && op[0] != ' ' && !StartsWordy(op) && OperandNext(op, true)
  {
    assert |op| <= 2 && (op + rest)[0] == op[0] && (op + rest)[1] == if |op| == 1 then rest[0] else op[1];
  }

  lemma SizeofLexed(rest: string)
    ensures Lexed("sizeof" + " " + rest, true) == ["sizeof"] + Lexed(rest, true)
  {
    var op := "sizeof";
    assert op[0] == 's' && op[1] == 'i' && op[2] == 'z' && op[3] == 'e' && op[4] == 'o' && op[5] == 'f';
    WordRun(op, " " + rest);
    assert op + " " + rest == op + (" " + rest);
    TokenLexed(op, " " + rest, true);
    SpaceLexed(rest, true);
  }

  /** A prefix operator is read as printed unless it clashes with what it stands before. */
  lemma PrefixLexed(op: string, text: string)
    requires PrefixOperator(op) && OpensOperand(text)
    ensures var all := op + (if StartsWordy(op) then " " else "") + text;
      && (!Clash(op, text, true) ==> Lexed(all, true) == [op] + Lexed(text, true))
      && (Clash(op, text, true) ==> Lexed(all, true) != [] && Lexed(all, true)[0] != op)
  {
    if op == "sizeof" {
      SizeofLexed(text);
      assert op[0] == 's';
    } else {
      hide TokenLength, Lexed, Clash;
      PrefixLength(op, text);
      assert op + "" + text == op + text;
      if Clash(op, text, true) { LongerLexed(op, text, true); } else { TokenLexed(op, text, true); }
    }
  }

  // What the characters of a binary operator can be.
  predicate InfixOperator(op: string) {
    if |op| == 1 then op[0] in {',', '|', '^', '&', '<', '>', '+', '-', '*', '/', '%'}
    else |op| == 2 && ((op[0] == op[1] && op[0] in {'|', '&', '<', '>', '='}) || (op[1] == '=' && op[0] in {'!', '<', '>'}))
  }

  lemma OperatorsAre(op: string)
    requires op in OPERATORS
    ensures InfixOperator(op)
  {
    var i :| 0 <= i < |OPERATORS| && OPERATORS[i] == op;
  }

  // What may come after a binary operator.
  predicate AfterOperator(text: string) {
    text != "" && (text[0] == ' ' || OpensOperand(text))
  }

  lemma InfixLength(op: string, rest: string)
    requires InfixOperator(op) && AfterOperator(rest)
    ensures TokenLength(op + rest, false) == |op| <==> !Clash(op, rest, false)
    ensures op != "" && op[0] != ' ' && OperandNext(op, false) && !Wordy(op[0])
  {
    var all := op + rest;
    assert all[0] == op[0] && all[1] == if |op| == 1 then rest[0] else op[1];
    if |op| == 2 { assert all[2] == rest[0]; }
  }

  /** And so is a binary operator; spaces keep it apart. */
  lemma InfixLexed(op: string, spaced: bool, text: string)
    requires op in OPERATORS && OpensOperand(text)
    ensures var all := Spaced(spaced, op) + text;
      && (spaced || !Clash(op, text, false) ==> Lexed(all, false) == [op] + Lexed(text, true))
      && (!spaced && Clash(op, text, false) ==> Lexed(all, false) != [] && Lexed(all, false)[0] != op)
      && !StartsWordy(all)
  {
    hide TokenLength, Lexed;
    OperatorsAre(op);
    if spaced {
      InfixLength(op, " " + text);
      TokenLexed(op, " " + text, false);
      SpaceLexed(text, true);
      SpaceLexed(op + (" " + text), false);
      assert Spaced(spaced, op) + text == " " + (op + (" " + text));
    } else {
      InfixLength(op, text);
      if Clash(op, text, false) { LongerLexed(op, text, false); } else { TokenLexed(op, text, false); }
    }
  }

  lemma ParenthesisLexed(text: string)
    ensures Lexed("(" + text, true) == ["("] + Lexed(text, true)
    ensures Lexed(")" + text, false) == [")"] + Lexed(text, false)
  {
    TokenLexed("(", text, true);
    TokenLexed(")", text, false);
  }

  // ----- the whole text -----

  // An operator before an operand, and what is lexed of the two.
  lemma PrefixStep(sp: Spelling, spaced: bool, o: nat, e: Expr, rest: string)
    requires PrefixOperator(Spelled(sp, o)) && Plainly(sp, e)
    ensures var op, text, all := Spelled(sp, o), Text(sp, spaced, e), Text(sp, spaced, Operators.Prefix(o, e)) + rest;
      && (!Clash(op, text, true) ==> Lexed(all, true) == [op] + Lexed(text + rest, true))
      && (Clash(op, text, true) ==> Lexed(all, true) != [] && Lexed(all, true)[0] != op)
  {
    hide Lexed, Clash, PrefixOperator, OpensOperand;
    var op, text := Spelled(sp, o), Text(sp, spaced, e);
    var space := if StartsWordy(op) then " " else "";
    TextOpens(sp, spaced, e);
    OpensAppend(text, rest);
    ClashAppend(op, text, rest, true);
    PrefixLexed(op, text + rest);
    assert op + space + text + rest == op + space + (text + rest);
  }

  lemma InfixStep(sp: Spelling, spaced: bool, o: nat, r: Expr, rest: string)
    requires Spelled(sp, o) in OPERATORS && Plainly(sp, r)
    ensures var op, text := Spelled(sp, o), Text(sp, spaced, r);
      var all := Spaced(spaced, op) + (text + rest);
      && (spaced || !Clash(op, text, false) ==> Lexed(all, false) == [op] + Lexed(text + rest, true))
      && (!spaced && Clash(op, text, false) ==> Lexed(all, false) != [] && Lexed(all, false)[0] != op)
      && !StartsWordy(all)
  {
    hide Lexed, Clash, OpensOperand, Spaced;
    var op, text := Spelled(sp, o), Text(sp, spaced, r);
    TextOpens(sp, spaced, r);
    OpensAppend(text, rest);
    ClashAppend(op, text, rest, false);
    InfixLexed(op, spaced, text + rest);
  }

  lemma BinaryText(sp: Spelling, spaced: bool, t: Expr, rest: string)
    requires t.Binary?
    ensures Text(sp, spaced, t) + rest == Text(sp, spaced, t.left) + (Spaced(spaced, Spelled(sp, t.op)) + (Text(sp, spaced, t.right) + rest))
  {
  }

  lemma GroupText(sp: Spelling, spaced: bool, e: Expr, rest: string)
    ensures Lexed(Text(sp, spaced, Group(e)) + rest, true) == ["("] + Lexed(Text(sp, spaced, e) + (")" + rest), true)
    ensures Lexed(")" + rest, false) == [")"] + Lexed(rest, false) && !StartsWordy(")" + rest)
  {
    hide Lexed;
    var text := Text(sp, spaced, e);
    ParenthesisLexed(text + (")" + rest));
    ParenthesisLexed(rest);
    assert "(" + text + ")" + rest == "(" + (text + (")" + rest));
  }

  /** Text in which no two neighbours make another token is read as its tokens. */
  lemma {:induction false} ApartReadsBack(sp: Spelling, spaced: bool, t: Expr, rest: string)
    requires Plainly(sp, t) && !StartsWordy(rest) && Apart(sp, spaced, t)
    ensures Lexed(Text(sp, spaced, t) + rest, true) == Texts(sp, t) + Lexed(rest, false)
    decreases t
  {
    hide Lexed, Clash, PrefixOperator, Word, Spaced, Text, StartsWordy;
    match t
    case Operand(a) =>
      WordLexed(Spelled(sp, a), rest);
      assert Text(sp, spaced, t) == Spelled(sp, a) by { OperandText(sp, spaced, a); }
    case Prefix(o, e) =>
      PrefixStep(sp, spaced, o, e, rest);
      ApartReadsBack(sp, spaced, e, rest);
    case Group(e) =>
      GroupText(sp, spaced, e, rest);
      ApartReadsBack(sp, spaced, e, ")" + rest);
      Enclose("(", Texts(sp, e), ")", Lexed(rest, false));
    case Binary(o, l, r) =>
      BinaryReadsBack(sp, spaced, o, l, r, rest);
  }

  lemma {:induction false} BinaryReadsBack(sp: Spelling, spaced: bool, o: nat, l: Expr, r: Expr, rest: string)
    requires var t := Binary(o, l, r); Plainly(sp, t) && !StartsWordy(rest) && Apart(sp, spaced, t)
    ensures Lexed(Text(sp, spaced, Binary(o, l, r)) + rest, true) == Texts(sp, Binary(o, l, r)) + Lexed(rest, false)
    decreases Binary(o, l, r), 0
  {
    hide Lexed, Clash, PrefixOperator, Word, Spaced, Text, StartsWordy, Texts;
    InfixStep(sp, spaced, o, r, rest);
    BinaryText(sp, spaced, Binary(o, l, r), rest);
    ApartReadsBack(sp, spaced, l, Spaced(spaced, Spelled(sp, o)) + (Text(sp, spaced, r) + rest));
    ApartReadsBack(sp, spaced, r, rest);
    BinaryTexts(sp, o, l, r);
    Reassociate(Texts(sp, l), Spelled(sp, o), Texts(sp, r), Lexed(rest, false));
  }

  lemma Enclose<X>(x: X, y: seq<X>, z: X, rest: seq<X>)
    ensures [x] + (y + ([z] + rest)) == [x] + y + [z] + rest
  {
  }

  lemma BinaryTexts(sp: Spelling, o: nat, l: Expr, r: Expr)
    ensures Texts(sp, Binary(o, l, r)) == Texts(sp, l) + [Spelled(sp, o)] + Texts(sp, r)
  {
  }

  lemma Reassociate<X>(x: seq<X>, o: X, y: seq<X>, z: seq<X>)
    ensures x + ([o] + (y + z)) == x + [o] + y + z
  {
  }

  lemma OperandText(sp: Spelling, spaced: bool, a: nat)
    ensures Text(sp, spaced, Operand(a)) == Spelled(sp, a)
  {
  }

  // No sequence begins with `x` and with `[op] + y` when it begins otherwise.
  lemma NotFirst(op: string, more: seq<string>, lexed: seq<string>)
    requires lexed != [] && lexed[0] != op
    ensures !([op] + more <= lexed)
  {
    assert ([op] + more)[0] == op;
  }

  lemma PrefixOfAppend(x: seq<string>, y: seq<string>, lexed: seq<string>)
    ensures x + y <= lexed ==> x <= lexed
    ensures x + y <= x + lexed ==> y <= lexed
  {
    if x + y <= lexed { assert lexed[..|x|] == (x + y)[..|x|]; }
    if x + y <= x + lexed { assert y == (x + y)[|x|..] && lexed == (x + lexed)[|x|..]; }
  }

  /** Text in which two neighbours do is read as other tokens. */
  lemma {:induction false} ClashReadsOtherwise(sp: Spelling, spaced: bool, t: Expr, rest: string)
    requires Plainly(sp, t) && !StartsWordy(rest) && !Apart(sp, spaced, t)
    ensures !(Texts(sp, t) <= Lexed(Text(sp, spaced, t) + rest, true))
    decreases t
  {
    hide Lexed, Clash, PrefixOperator, Word, Spaced, Text, StartsWordy;
    var lexed := Lexed(Text(sp, spaced, t) + rest, true);
    match t
    case Operand(_) =>
    case Prefix(o, e) =>
      var op := Spelled(sp, o);
      PrefixStep(sp, spaced, o, e, rest);
      if Clash(op, Text(sp, spaced, e), true) {
        NotFirst(op, Texts(sp, e), lexed);
      } else {
        ClashReadsOtherwise(sp, spaced, e, rest);
        PrefixOfAppend([op], Texts(sp, e), Lexed(Text(sp, spaced, e) + rest, true));
      }
    case Group(e) =>
      var inner := Lexed(Text(sp, spaced, e) + (")" + rest), true);
      GroupText(sp, spaced, e, rest);
      ClashReadsOtherwise(sp, spaced, e, ")" + rest);
      PrefixOfAppend(["("] + Texts(sp, e), [")"], lexed);
      PrefixOfAppend(["("], Texts(sp, e), inner);
    case Binary(o, l, r) =>
      BinaryClash(sp, spaced, o, l, r, rest);
  }

  lemma {:induction false} BinaryClash(sp: Spelling, spaced: bool, o: nat, l: Expr, r: Expr, rest: string)
    requires var t := Binary(o, l, r); Plainly(sp, t) && !StartsWordy(rest) && !Apart(sp, spaced, t)
    ensures !(Texts(sp, Binary(o, l, r)) <= Lexed(Text(sp, spaced, Binary(o, l, r)) + rest, true))
    decreases Binary(o, l, r), 0
  {
    hide Lexed, Clash, PrefixOperator, Word, Spaced, Text, StartsWordy;
    var t := Binary(o, l, r);
    var op, lexed := Spelled(sp, o), Lexed(Text(sp, spaced, t) + rest, true);
    var later := Spaced(spaced, op) + (Text(sp, spaced, r) + rest);
    InfixStep(sp, spaced, o, r, rest);
    BinaryText(sp, spaced, t, rest);
    assert Texts(sp, t) == Texts(sp, l) + ([op] + Texts(sp, r));
    PrefixOfAppend(Texts(sp, l), [op] + Texts(sp, r), lexed);
    if !Apart(sp, spaced, l) {
      ClashReadsOtherwise(sp, spaced, l, later);
    } else {
      ApartReadsBack(sp, spaced, l, later);
      PrefixOfAppend(Texts(sp, l), [op] + Texts(sp, r), Lexed(later, false));
      if !spaced && Clash(op, Text(sp, spaced, r), false) {
        NotFirst(op, Texts(sp, r), Lexed(later, false));
      } else {
        ClashReadsOtherwise(sp, spaced, r, rest);
        PrefixOfAppend([op], Texts(sp, r), Lexed(Text(sp, spaced, r) + rest, true));
      }
    }
  }

  /** The text of an expression is read as its tokens exactly when no two neighbours make another token. */
  lemma TextReadsBack(sp: Spelling, spaced: bool, t: Expr)
    requires Plainly(sp, t)
    ensures Lexed(Text(sp, spaced, t), true) == Texts(sp, t) <==> Apart(sp, spaced, t)
  {
    hide Text, Texts, Plainly, Apart;
    assert Text(sp, spaced, t) + "" == Text(sp, spaced, t) && Texts(sp, t) + [] == Texts(sp, t);
    if Apart(sp, spaced, t) { ApartReadsBack(sp, spaced, t, ""); } else { ClashReadsOtherwise(sp, spaced, t, ""); }
  }

  lemma OpensAppend(text: string, rest: string)
    requires OpensOperand(text)
    ensures OpensOperand(text + rest)
  {
  }

  lemma ClashAppend(op: string, text: string, rest: string, operand: bool)
    requires OpensOperand(text)
    ensures Clash(op, text + rest, operand) <==> Clash(op, text, operand)
  {
    assert Head(text + rest) == Head(text);
  }

  /** Spaces keep binary operators apart: only prefix operators can run together then, and `-(-x)` does. */
  lemma NegatedTwice(sp: Spelling, spaced: bool)
    requires 0 in sp && sp[0] == "-" && 1 in sp && sp[1] == "x"
    ensures var t := Operators.Prefix(0, Operators.Prefix(0, Operand(1)));
      Printed(BINARY_PREC, Unary(0, Unary(0, Atom(1))), 0) == t && Texts(sp, t) == ["-", "-", "x"]
      && Lexed(Text(sp, spaced, t), true) == ["--", "x"]
  {
    var u := Operators.Prefix(0, Operand(1));
    assert !StartsWordy("-") && Text(sp, spaced, Operand(1)) == "x";
    assert Text(sp, spaced, u) == "-" + "" + "x" == "-x";
    assert Text(sp, spaced, Operators.Prefix(0, u)) == "-" + "" + "-x" == "--x";
    assert Texts(sp, u) == ["-"] + ["x"];
    assert "--x"[..2] == "--" && "--x"[2..] == "x" && "x"[..1] == "x" && "x"[1..] == "";
    assert WordLength("x") == 1;
    assert Lexed("x", true) == ["x"];
    assert TokenLength("--x", true) == 2;
  }

  /** Without them binary operators do too: so does `a-(-x)`. */
  lemma SubtractedNegative(sp: Spelling)
    requires 0 in sp && sp[0] == "-" && 1 in sp && sp[1] == "x" && 2 in sp && sp[2] == "a"
    ensures var t := Binary(0, Operand(2), Operators.Prefix(0, Operand(1)));
      Texts(sp, t) == ["a", "-", "-", "x"] && !Apart(sp, false, t) && Apart(sp, true, t)
  {
    assert !StartsWordy("-");
    var right := Operators.Prefix(0, Operand(1));
    assert Text(sp, false, right) == "-" + "" + "x" == "-x" && Texts(sp, right) == ["-"] + ["x"];
    assert Head("-x") == "-" && Head("x") == "x" && Text(sp, true, Operand(1)) == "x";
  }

  // ----- printing text, then lexing and parsing it -----

  // The tokens that were lexed.
  ghost predicate TokensOf(code: T.Codes, sp: Spelling, texts: seq<string>, input: seq<Token>) {
    |input| == |texts| && Agreement.Coded(code, input)
    && forall i | 0 <= i < |texts| :: T.CodeOf(code, input[i].kind) in sp && sp[T.CodeOf(code, input[i].kind)] == texts[i]
  }

  predicate Injective(sp: Spelling) {
    forall x, y | x in sp && y in sp && sp[x] == sp[y] :: x == y
  }

  // Every token of `t` has a spelling.
  predicate Covers(sp: Spelling, tbl: OpTable, t: Expr) {
    forall i | 0 <= i < |Tokens(tbl, t)| :: Tokens(tbl, t)[i] in sp
  }

  lemma {:induction false} TextsSpell(sp: Spelling, tbl: OpTable, t: Expr)
    requires Covers(sp, tbl, t) && tbl.open in sp && sp[tbl.open] == "(" && tbl.close in sp && sp[tbl.close] == ")"
    ensures |Texts(sp, t)| == |Tokens(tbl, t)| && forall i | 0 <= i < |Texts(sp, t)| :: Texts(sp, t)[i] == sp[Tokens(tbl, t)[i]]
  {
    hide Covers;
    match t
    case Operand(a) =>
      OperandCovered(sp, tbl, a);
    case Prefix(o, e) =>
      PrefixCovered(sp, tbl, o, e);
      TextsSpell(sp, tbl, e);
    case Group(e) =>
      GroupCovered(sp, tbl, e);
      TextsSpell(sp, tbl, e);
    case Binary(o, l, r) =>
      BinaryCovered(sp, tbl, o, l, r);
      TextsSpell(sp, tbl, l);
      TextsSpell(sp, tbl, r);
      SpellAppend(sp, Tokens(tbl, l), Texts(sp, l), o, Tokens(tbl, r), Texts(sp, r));
  }

  lemma OperandCovered(sp: Spelling, tbl: OpTable, a: nat)
    requires Covers(sp, tbl, Operand(a))
    ensures a in sp
  {
    assert Tokens(tbl, Operand(a))[0] == a;
  }

  lemma PrefixCovered(sp: Spelling, tbl: OpTable, o: nat, e: Expr)
    requires Covers(sp, tbl, Operators.Prefix(o, e))
    ensures Covers(sp, tbl, e) && o in sp
  {
    var ts, all := Tokens(tbl, e), Tokens(tbl, Operators.Prefix(o, e));
    assert all[0] == o;
    assert forall i | 0 <= i < |ts| :: ts[i] == all[i + 1];
  }

  lemma GroupCovered(sp: Spelling, tbl: OpTable, e: Expr)
    requires Covers(sp, tbl, Group(e))
    ensures Covers(sp, tbl, e)
  {
    var ts, all := Tokens(tbl, e), Tokens(tbl, Group(e));
    assert forall i | 0 <= i < |ts| :: ts[i] == all[i + 1];
  }

  lemma BinaryCovered(sp: Spelling, tbl: OpTable, o: nat, l: Expr, r: Expr)
    requires Covers(sp, tbl, Binary(o, l, r))
    ensures Covers(sp, tbl, l) && o in sp && Covers(sp, tbl, r)
  {
    var ls, rs, ts := Tokens(tbl, l), Tokens(tbl, r), Tokens(tbl, Binary(o, l, r));
    assert ts[|ls|] == o;
    assert forall i | 0 <= i < |ls| :: ls[i] == ts[i];
    assert forall i | 0 <= i < |rs| :: rs[i] == ts[|ls| + 1 + i];
  }

  lemma SpellAppend(sp: Spelling, xs: seq<nat>, xt: seq<string>, o: nat, ys: seq<nat>, yt: seq<string>)
    requires |xs| == |xt| && |ys| == |yt| && o in sp
    requires forall i | 0 <= i < |xs| :: xs[i] in sp && xt[i] == sp[xs[i]]
    requires forall i | 0 <= i < |ys| :: ys[i] in sp && yt[i] == sp[ys[i]]
    ensures var ts, tt := xs + [o] + ys, xt + [sp[o]] + yt;
      |ts| == |tt| && forall i | 0 <= i < |ts| :: ts[i] in sp && tt[i] == sp[ts[i]]
  {
  }

  lemma LexedCodes(code: T.Codes, sp: Spelling, tbl: OpTable, t: Expr, input: seq<Token>)
    requires Injective(sp) && Covers(sp, tbl, t) && tbl.open in sp && sp[tbl.open] == "(" && tbl.close in sp && sp[tbl.close] == ")"
    requires TokensOf(code, sp, Texts(sp, t), input)
    ensures Agreement.CodesOf(code, input) == Tokens(tbl, t)
  {
    hide Tokens, Texts, T.CodeOf;
    TextsSpell(sp, tbl, t);
    forall i | 0 <= i < |input| ensures Agreement.CodesOf(code, input)[i] == Tokens(tbl, t)[i] {
      assert sp[T.CodeOf(code, input[i].kind)] == sp[Tokens(tbl, t)[i]];
    }
  }

  /** Printing an expression, lexing the text and parsing the tokens gives the expression back, as long as no
      two neighbours in the text make another token. */
  lemma TextParses(g: Grammar, fm: FirstMap, a: Automaton, m: Mode, pt: ParseTables, code: T.Codes, tbl: OpTable, input: seq<Token>,
                   fuel: nat, out: Outcome, prec: Levels, e: Ast, sp: Spelling, spaced: bool)
    requires T.OperatorGrammar(g, code, tbl) && BuiltFrom(g, fm, a, m, pt) && Kinds(input)
    requires OutcomeOk(g, true, pt, input, false, fuel, out) && Deterministically(g, pt, input, fuel, out) && fuel > 2 * |input|
    requires SameOrder(prec, tbl) && Known(tbl, e) && tbl.open in Agreement.StartCodes(g, code)
    requires Uses(Agreement.InfixCodes(g, code), Agreement.StartCodes(g, code), tbl, Bare(e))
    requires Injective(sp) && tbl.open in sp && sp[tbl.open] == "(" && tbl.close in sp && sp[tbl.close] == ")"
    requires Covers(sp, tbl, Printed(prec, e, 0)) && Plainly(sp, Printed(prec, e, 0)) && Apart(sp, spaced, Printed(prec, e, 0))
    requires TokensOf(code, sp, Lexed(Text(sp, spaced, Printed(prec, e, 0)), true), input)
    ensures out.Parsed? && Meaning(T.ExprOf(code, out.value)) == e
  {
    hide T.OperatorGrammar, BuiltFrom, Kinds, OutcomeOk, Deterministically, Agreement.InfixCodes, Agreement.StartCodes, Agreement.CodesOf,
      Tokens, Printed, Uses, T.ExprOf, Meaning, Bare, SameOrder, Known, Texts, Text, Lexed, Plainly, Apart, Covers, Injective;
    var t := Printed(prec, e, 0);
    TextReadsBack(sp, spaced, t);
    LexedCodes(code, sp, tbl, t, input);
    PrintedParses(g, fm, a, m, pt, code, tbl, input, fuel, out, prec, e);
  }
}
