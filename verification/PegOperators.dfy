/** Precedence climbing by seed growing reads operator expressions as precedence says (src/peg.ts:303-316,
    448-495). */
module PegOperators {
  import opened Options
  import opened PegAnalysis
  import opened PegMatcher
  import opened PegTrees
  import opened Operators
  import Grammars

  // ----- operator nonterminals -----

  function OpOf(r: Rule): nat {
    if |r.rhs| > 1 && r.rhs[1].Token? then r.rhs[1].t else 0
  }

  function FirstToken(r: Rule): nat {
    if |r.rhs| > 0 && r.rhs[0].Token? then r.rhs[0].t else 0
  }

  // `n -> n op n`, of the level and associativity of `op`.
  predicate BinaryRule(r: Rule, n: nat, tbl: OpTable) {
    && r.lhs == n && r.rhs == [NonTerminal(n), Token(OpOf(r)), NonTerminal(n)] && OpOf(r) in tbl.binary && Level(tbl, OpOf(r)) >= 0
    && LevelOf(r) == Some(Level(tbl, OpOf(r)))
    && r.prec.value.assoc == if RightAssoc(tbl, OpOf(r)) then Grammars.Right else Grammars.Left
  }

  // `n -> op n`, on the level above all others, right-associative.
  predicate PrefixRule(r: Rule, n: nat, tbl: OpTable) {
    && r.lhs == n && r.rhs == [Token(FirstToken(r)), NonTerminal(n)] && FirstToken(r) in tbl.prefixes
    && LevelOf(r) == Some(tbl.tight) && r.prec.value.assoc == Grammars.Right
  }

  // `n -> ( n )`.
  predicate GroupRule(r: Rule, n: nat, tbl: OpTable) {
    r.lhs == n && r.rhs == [Token(tbl.open), NonTerminal(n), Token(tbl.close)] && LevelOf(r) == None
  }

  // `n -> operand`.
  predicate OperandRule(r: Rule, n: nat, tbl: OpTable) {
    r.lhs == n && r.rhs == [Token(FirstToken(r))] && FirstToken(r) !in tbl.prefixes && FirstToken(r) != tbl.open && LevelOf(r) == None
  }

  predicate BaseRule(r: Rule, n: nat, tbl: OpTable) {
    PrefixRule(r, n, tbl) || GroupRule(r, n, tbl) || OperandRule(r, n, tbl)
  }

  ghost predicate OperatorPart(c: Peg, n: nat, tbl: OpTable) {
    && TableOk(tbl)
    && n in c.a.alts && n !in c.a.anon && n in c.a.direct && n in c.a.base && c.a.direct[n] != []
    && (forall r | r in c.a.direct[n] :: r < |c.g| && BinaryRule(c.g[r], n, tbl))
    && (forall r | r in c.a.base[n] :: r < |c.g| && BaseRule(c.g[r], n, tbl))
  }

  lemma PartFacts(c: Peg, n: nat, tbl: OpTable)
    requires OperatorPart(c, n, tbl)
    ensures TableOk(tbl) && n in c.a.alts && n !in c.a.anon && n in c.a.direct && n in c.a.base && c.a.direct[n] != []
  {
    hide TableOk;
  }

  lemma DirectAt(c: Peg, n: nat, tbl: OpTable, j: nat)
    requires OperatorPart(c, n, tbl) && j < |c.a.direct[n]|
    ensures c.a.direct[n][j] < |c.g| && BinaryRule(c.g[c.a.direct[n][j]], n, tbl)
  {
    hide TableOk, BinaryRule;
    assert c.a.direct[n][j] in c.a.direct[n];
  }

  lemma BaseAt(c: Peg, n: nat, tbl: OpTable, j: nat)
    requires OperatorPart(c, n, tbl) && j < |c.a.base[n]|
    ensures c.a.base[n][j] < |c.g| && BaseRule(c.g[c.a.base[n][j]], n, tbl)
  {
    hide TableOk, BaseRule;
    assert c.a.base[n][j] in c.a.base[n];
  }

  // A tree of such rules as an expression.
  function AsExpr(t: Tree): Expr {
    match t
    case Leaf(k, _) => Operand(k)
    case Node(_, _, kids) =>
      if |kids| == 3 && kids[1].Leaf? then Binary(kids[1].t, AsExpr(kids[0]), AsExpr(kids[2]))
      else if |kids| == 3 then Group(AsExpr(kids[1]))
      else if |kids| == 2 && kids[0].Leaf? then Operators.Prefix(kids[0].t, AsExpr(kids[1]))
      else if |kids| == 1 then AsExpr(kids[0]) else Operand(0)
    case _ => Operand(0)
  }

  // ----- the tokens from one place to another -----

  ghost predicate Stream(c: Peg, p: Pos, ts: seq<nat>, q: Pos)
    requires Ready(c)
    decreases |ts|
  {
    if ts == [] then p == q
    else p.offset <= c.size && var m := MatchTerminal(c, ts[0], p); m.Some? && Stream(c, m.value.pos, ts[1..], q)
  }

  // The place between two stretches of tokens.
  lemma {:induction false} StreamSplit(c: Peg, p: Pos, xs: seq<nat>, ys: seq<nat>, q: Pos) returns (mid: Pos)
    requires Ready(c) && Stream(c, p, xs + ys, q) && p.offset <= c.size
    ensures Stream(c, p, xs, mid) && Stream(c, mid, ys, q) && mid.offset <= c.size && p.offset + |xs| <= mid.offset
    decreases |xs|
  {
    hide Ready;
    if xs == [] {
      assert xs + ys == ys;
      mid := p;
    } else {
      assert (xs + ys)[1..] == xs[1..] + ys;
      var m := MatchTerminal(c, xs[0], p);
      mid := StreamSplit(c, m.value.pos, xs[1..], ys, q);
    }
  }

  lemma {:induction false} StreamAppend(c: Peg, p: Pos, xs: seq<nat>, q: Pos, ys: seq<nat>, s: Pos)
    requires Ready(c) && Stream(c, p, xs, q) && Stream(c, q, ys, s)
    ensures Stream(c, p, xs + ys, s)
    decreases |xs|
  {
    hide Ready;
    if xs == [] {
      assert xs + ys == ys;
    } else {
      var m := MatchTerminal(c, xs[0], p);
      StreamAppend(c, m.value.pos, xs[1..], q, ys, s);
      assert (xs + ys)[1..] == xs[1..] + ys;
    }
  }

  lemma StreamOne(c: Peg, p: Pos, t: nat, q: Pos)
    requires Ready(c)
    ensures Stream(c, p, [t], q) <==> p.offset <= c.size && MatchTerminal(c, t, p).Some? && MatchTerminal(c, t, p).value.pos == q
  {
    hide Ready;
    assert [t][1..] == [];
  }

  // With maximal munch, a place has one token.
  lemma OneToken(c: Peg, p: Pos, s: nat, t: nat)
    requires Ready(c) && c.maxMunch && p.offset <= c.size && MatchTerminal(c, s, p).Some? && MatchTerminal(c, t, p).Some?
    ensures s == t
  {
    hide Ready;
  }

  // ----- what one rule matches -----

  ghost function BinaryMatch(c: Peg, n: nat, r: nat, q: Pos, v: Tree, start: nat): Option<Match>
    requires Ready(c) && n in c.a.alts && r < |c.g| && q.offset <= c.size && |c.g[r].rhs| == 3
  {
    hide Ready;
    var op := MatchTerminal(c, OpOf(c.g[r]), q);
    if op.None? then None
    else
      var right := MatchNonTerminal(c, n, op.value.pos, OperandMin(c.g[r], 2));
      if right.None? then None else Some(Match(Node(r, start, [v, op.value.value, right.value.value]), right.value.pos, start))
  }

  lemma BinaryRest(c: Peg, n: nat, tbl: OpTable, r: nat, q: Pos, v: Tree, start: nat, entry: nat)
    requires Ready(c) && OperatorPart(c, n, tbl) && 1 <= r < |c.g| && BinaryRule(c.g[r], n, tbl) && entry <= q.offset <= c.size
    requires entry < q.offset || AllNullable(c.nullable, c.g[r].rhs[..1])
    ensures n in c.a.alts && MatchRest(c, r, 1, q, [v], Some(start), entry) == BinaryMatch(c, n, r, q, v, start)
  {
    hide Ready, AllNullable, Nullable, OperatorPart, LevelOf;
    PartFacts(c, n, tbl);
    var op := MatchTerminal(c, OpOf(c.g[r]), q);
    SymFacts(c, r, 1);
    CornerRank(c, r, 1);
    NullableSoFar(c, r, 1);
    assert OperandMin(c.g[r], 1) == 0;
    if op.Some? {
      SymFacts(c, r, 2);
      CornerRank(c, r, 2);
      NullableSoFar(c, r, 2);
      var right := MatchNonTerminal(c, n, op.value.pos, OperandMin(c.g[r], 2));
      assert MatchSym(c, c.g[r].rhs[2], op.value.pos, [v, op.value.value], OperandMin(c.g[r], 2)) == right;
      assert [v] + [op.value.value] == [v, op.value.value];
      if right.Some? {
        assert [v, op.value.value] + [right.value.value] == [v, op.value.value, right.value.value];
        assert MatchRest(c, r, 3, right.value.pos, [v, op.value.value, right.value.value], Some(start), entry)
          == Some(Match(Node(r, start, [v, op.value.value, right.value.value]), right.value.pos, start));
      }
      assert MatchRest(c, r, 2, op.value.pos, [v, op.value.value], Some(start), entry) == BinaryMatch(c, n, r, q, v, start);
    }
  }

  // The rest of a rule after its first token, which has consumed something.
  ghost function AfterFirst(c: Peg, r: nat, p: Pos, first: Match): Option<Match>
    requires Ready(c) && 1 <= r < |c.g| && |c.g[r].rhs| > 0 && p.offset < first.pos.offset <= c.size
  {
    hide Ready;
    MatchRest(c, r, 1, first.pos, [first.value], Some(first.start), p.offset)
  }

  lemma FirstRest(c: Peg, r: nat, p: Pos)
    requires Ready(c) && 1 <= r < |c.g| && |c.g[r].rhs| > 0 && c.g[r].rhs[0].Token? && p.offset <= c.size
    ensures AllNullable(c.nullable, c.g[r].rhs[..0]) && !Direct(c.g, r)
    ensures var m := MatchTerminal(c, FirstToken(c.g[r]), p);
      MatchRest(c, r, 0, p, [], None, p.offset) == if m.None? then None else AfterFirst(c, r, p, m.value)
  {
    hide Ready, LevelOf;
    SymFacts(c, r, 0);
    CornerRank(c, r, 0);
    NullableSoFar(c, r, 0);
    var m := MatchTerminal(c, FirstToken(c.g[r]), p);
    if m.Some? { assert [] + [m.value.value] == [m.value.value]; }
  }

  lemma OperandMatch(c: Peg, n: nat, tbl: OpTable, r: nat, p: Pos, first: Match)
    requires Ready(c) && 1 <= r < |c.g| && OperandRule(c.g[r], n, tbl) && p.offset < first.pos.offset <= c.size
    ensures AfterFirst(c, r, p, first) == Some(Match(Node(r, first.start, [first.value]), first.pos, first.start))
  {
    hide Ready;
  }

  lemma PrefixMatch(c: Peg, n: nat, tbl: OpTable, r: nat, p: Pos, first: Match)
    requires Ready(c) && OperatorPart(c, n, tbl) && 1 <= r < |c.g| && PrefixRule(c.g[r], n, tbl) && p.offset < first.pos.offset <= c.size
    ensures n in c.a.alts
    ensures var m := MatchNonTerminal(c, n, first.pos, tbl.tight);
      AfterFirst(c, r, p, first) == if m.None? then None else Some(Match(Node(r, first.start, [first.value, m.value.value]), m.value.pos, first.start))
  {
    hide Ready, OperatorPart, AllNullable, Nullable;
    PartFacts(c, n, tbl);
    SymFacts(c, r, 1);
    CornerRank(c, r, 1);
    NullableSoFar(c, r, 1);
    assert OperandMin(c.g[r], 1) == tbl.tight;
    var m := MatchNonTerminal(c, n, first.pos, tbl.tight);
    assert MatchSym(c, c.g[r].rhs[1], first.pos, [first.value], OperandMin(c.g[r], 1)) == m;
    if m.Some? {
      assert [first.value] + [m.value.value] == [first.value, m.value.value];
      assert MatchRest(c, r, 2, m.value.pos, [first.value, m.value.value], Some(first.start), p.offset)
        == Some(Match(Node(r, first.start, [first.value, m.value.value]), m.value.pos, first.start));
    }
  }

  lemma GroupMatch(c: Peg, n: nat, tbl: OpTable, r: nat, p: Pos, first: Match)
    requires Ready(c) && OperatorPart(c, n, tbl) && 1 <= r < |c.g| && GroupRule(c.g[r], n, tbl) && p.offset < first.pos.offset <= c.size
    ensures n in c.a.alts
    ensures var m := MatchNonTerminal(c, n, first.pos, 0);
      var close := if m.None? then None else MatchTerminal(c, tbl.close, m.value.pos);
      AfterFirst(c, r, p, first) == if close.None? then None
        else Some(Match(Node(r, first.start, [first.value, m.value.value, close.value.value]), close.value.pos, first.start))
  {
    hide Ready, OperatorPart, AllNullable, Nullable, LevelOf;
    PartFacts(c, n, tbl);
    SymFacts(c, r, 1);
    CornerRank(c, r, 1);
    NullableSoFar(c, r, 1);
    assert OperandMin(c.g[r], 1) == 0;
    var m := MatchNonTerminal(c, n, first.pos, 0);
    assert MatchSym(c, c.g[r].rhs[1], first.pos, [first.value], 0) == m;
    if m.Some? {
      assert [first.value] + [m.value.value] == [first.value, m.value.value];
      SymFacts(c, r, 2);
      CornerRank(c, r, 2);
      NullableSoFar(c, r, 2);
      var close := MatchTerminal(c, tbl.close, m.value.pos);
      assert MatchSym(c, c.g[r].rhs[2], m.value.pos, [first.value, m.value.value], OperandMin(c.g[r], 2)) == close;
      if close.Some? {
        assert [first.value, m.value.value] + [close.value.value] == [first.value, m.value.value, close.value.value];
        assert MatchRest(c, r, 3, close.value.pos, [first.value, m.value.value, close.value.value], Some(first.start), p.offset)
          == Some(Match(Node(r, first.start, [first.value, m.value.value, close.value.value]), close.value.pos, first.start));
      }
      assert MatchRest(c, r, 2, m.value.pos, [first.value, m.value.value], Some(first.start), p.offset)
        == if close.None? then None else Some(Match(Node(r, first.start, [first.value, m.value.value, close.value.value]), close.value.pos, first.start));
    }
  }

  // ----- what is asked of the rules and of what follows -----

  // The tokens that begin an operand, and the binary operators, among the alternatives of `n`.
  ghost function Starts(c: Peg, n: nat): set<nat>
    requires n in c.a.base
  {
    set j: nat | j < |c.a.base[n]| && c.a.base[n][j] < |c.g| :: FirstToken(c.g[c.a.base[n][j]])
  }

  ghost function Infixes(c: Peg, n: nat): set<nat>
    requires n in c.a.direct
  {
    set j: nat | j < |c.a.direct[n]| && c.a.direct[n][j] < |c.g| :: OpOf(c.g[c.a.direct[n][j]])
  }

  // There is a rule for each construct of `t`.
  ghost predicate Ruled(c: Peg, n: nat, tbl: OpTable, t: Expr)
    requires n in c.a.base && n in c.a.direct
  {
    Uses(Infixes(c, n), Starts(c, n), tbl, t)
  }

  // Whatever operator comes at `q`, `t` stands to its left.
  ghost predicate Yields(c: Peg, tbl: OpTable, t: Expr, q: Pos)
    requires Ready(c)
  {
    hide Ready;
    q.offset <= c.size && forall o | o in tbl.binary && MatchTerminal(c, o, q).Some? :: AllLeft(tbl, t, o)
  }

  // No operator of this level comes at `q`.
  ghost predicate NoneFrom(c: Peg, tbl: OpTable, q: Pos, least: int)
    requires Ready(c)
  {
    hide Ready;
    q.offset <= c.size && forall o | o in tbl.binary && MatchTerminal(c, o, q).Some? :: Level(tbl, o) < least
  }

  lemma RuleLeast(r: Rule, n: nat, tbl: OpTable)
    requires BinaryRule(r, n, tbl)
    ensures OperandMin(r, 2) == RightLeast(tbl, OpOf(r)) >= 0
    ensures forall least: int :: BelowLevel(r, least) <==> Level(tbl, OpOf(r)) < least
    ensures forall floor: int :: FloorAfter(r, floor) == floor
  {
  }

  lemma BaseLeast(r: Rule, n: nat, tbl: OpTable, least: int)
    requires BaseRule(r, n, tbl) && least <= tbl.tight
    ensures !BelowLevel(r, least) && r.rhs != [] && r.rhs[0] == Token(FirstToken(r))
  {
  }

  // Which rule a token at the beginning calls for.
  lemma RuleFor(tbl: OpTable, r: Rule, n: nat, t: Expr)
    requires TableOk(tbl) && BaseRule(r, n, tbl) && Named(tbl, t) && !t.Binary? && FirstToken(r) == Tokens(tbl, t)[0]
    ensures t.Operand? ==> OperandRule(r, n, tbl)
    ensures t.Prefix? ==> PrefixRule(r, n, tbl)
    ensures t.Group? ==> GroupRule(r, n, tbl)
  {
  }

  // ----- the operand that begins a match -----

  lemma {:induction false} FirstThat(c: Peg, n: nat, tbl: OpTable, j: nat, p: Pos, least: int, k: nat) returns (i: nat)
    requires Ready(c) && c.maxMunch && OperatorPart(c, n, tbl) && n in c.a.base && RulesFor(c.g, n, c.a.base[n], false)
    requires j <= |c.a.base[n]| && p.offset <= c.size && least <= tbl.tight && MatchTerminal(c, k, p).Some?
    requires exists x :: j <= x < |c.a.base[n]| && c.a.base[n][x] < |c.g| && FirstToken(c.g[c.a.base[n][x]]) == k
    ensures j <= i < |c.a.base[n]| && 1 <= c.a.base[n][i] < |c.g| && FirstToken(c.g[c.a.base[n][i]]) == k
    ensures FirstOf(c, n, c.a.base[n], j, p, least) == FirstOf(c, n, c.a.base[n], i, p, least)
    decreases |c.a.base[n]| - j
  {
    hide Ready, RulesFor, OperatorPart, BaseRule;
    var list := c.a.base[n];
    RuleIn(c, n, list, false, j);
    BaseAt(c, n, tbl, j);
    var r := list[j];
    if FirstToken(c.g[r]) == k {
      i := j;
    } else {
      BaseLeast(c.g[r], n, tbl, least);
      FirstRest(c, r, p);
      if MatchTerminal(c, FirstToken(c.g[r]), p).Some? { OneToken(c, p, FirstToken(c.g[r]), k); }
      i := FirstThat(c, n, tbl, j + 1, p, least, k);
    }
  }

  // An operand is matched whole.
  lemma {:induction false} UnitMatched(c: Peg, n: nat, tbl: OpTable, t: Expr, p: Pos, q: Pos, least: int) returns (m: Match)
    requires Ready(c) && c.maxMunch && OperatorPart(c, n, tbl) && n in c.a.alts && n in c.a.base && n in c.a.direct
    requires RulesFor(c.g, n, c.a.base[n], false)
    requires Ordered(tbl, t) && Named(tbl, t) && !t.Binary? && Ruled(c, n, tbl, t) && least <= tbl.tight && p.offset <= c.size
    requires Stream(c, p, Tokens(tbl, t), q) && q.offset <= c.size
    ensures AsExpr(m.value) == t && m.pos == q && FirstOf(c, n, c.a.base[n], 0, p, least) == Some(m)
    decreases t, 0
  {
    hide Ready, RulesFor, OperatorPart, BaseRule, OperandRule, PrefixRule, GroupRule, BelowLevel;
    PartFacts(c, n, tbl);
    var k := Tokens(tbl, t)[0];
    var first := MatchTerminal(c, k, p).value;
    var i := FirstThat(c, n, tbl, 0, p, least, k);
    var list := c.a.base[n];
    var r := list[i];
    RuleIn(c, n, list, false, i);
    BaseAt(c, n, tbl, i);
    BaseLeast(c.g[r], n, tbl, least);
    RuleFor(tbl, c.g[r], n, t);
    FirstRest(c, r, p);
    assert first.value == Leaf(k, first.start);
    match t
    case Operand(a) =>
      StreamOne(c, p, a, q);
      OperandMatch(c, n, tbl, r, p, first);
      m := Match(Node(r, first.start, [first.value]), first.pos, first.start);
    case Prefix(x, e) =>
      assert ([x] + Tokens(tbl, e))[1..] == Tokens(tbl, e);
      NoneTight(c, tbl, q);
      UnitYields(c, tbl, e, q);
      var inner := Builds(c, n, tbl, e, first.pos, q, tbl.tight);
      PrefixMatch(c, n, tbl, r, p, first);
      m := Match(Node(r, first.start, [first.value, inner.value]), inner.pos, first.start);
    case Group(e) =>
      assert Tokens(tbl, t)[1..] == Tokens(tbl, e) + [tbl.close];
      var mid := StreamSplit(c, first.pos, Tokens(tbl, e), [tbl.close], q);
      StreamOne(c, mid, tbl.close, q);
      NothingAtClose(c, tbl, e, mid);
      NotNegative(c, n, tbl, e);
      TightPositive(c, n, tbl);
      var inner := Builds(c, n, tbl, e, first.pos, mid, 0);
      GroupMatch(c, n, tbl, r, p, first);
      var close := MatchTerminal(c, tbl.close, mid).value;
      m := Match(Node(r, first.start, [first.value, inner.value, close.value]), close.pos, first.start);
      NodeNotLeaf(c, n, first.pos, 0);
  }

  // Every binary operator is below the prefix operators.
  lemma NoneTight(c: Peg, tbl: OpTable, q: Pos)
    requires Ready(c) && TableOk(tbl) && q.offset <= c.size
    ensures NoneFrom(c, tbl, q, tbl.tight)
  {
    hide Ready;
  }

  lemma UnitYields(c: Peg, tbl: OpTable, e: Expr, q: Pos)
    requires Ready(c) && !e.Binary? && q.offset <= c.size
    ensures Yields(c, tbl, e, q) && forall least: int :: AtLeast(tbl, e, least)
  {
    hide Ready;
  }

  lemma NothingAtClose(c: Peg, tbl: OpTable, e: Expr, q: Pos)
    requires Ready(c) && c.maxMunch && TableOk(tbl) && q.offset <= c.size && MatchTerminal(c, tbl.close, q).Some?
    ensures Yields(c, tbl, e, q) && forall least: int :: NoneFrom(c, tbl, q, least)
  {
    hide Ready;
    forall o | o in tbl.binary ensures MatchTerminal(c, o, q).None? {
      if MatchTerminal(c, o, q).Some? { OneToken(c, q, o, tbl.close); }
    }
  }

  lemma {:induction false} NotNegative(c: Peg, n: nat, tbl: OpTable, t: Expr)
    requires OperatorPart(c, n, tbl) && n in c.a.base && n in c.a.direct && Ruled(c, n, tbl, t)
    ensures AtLeast(tbl, t, 0)
  {
    hide OperatorPart;
    if t.Binary? {
      var j: nat :| j < |c.a.direct[n]| && c.a.direct[n][j] < |c.g| && OpOf(c.g[c.a.direct[n][j]]) == t.op;
      DirectAt(c, n, tbl, j);
      NotNegative(c, n, tbl, t.left);
      NotNegative(c, n, tbl, t.right);
    }
  }

  lemma TightPositive(c: Peg, n: nat, tbl: OpTable)
    requires OperatorPart(c, n, tbl) && n in c.a.direct
    ensures tbl.tight > 0
  {
    DirectAt(c, n, tbl, 0);
  }

  // A match of a nonterminal is no leaf.
  lemma NodeNotLeaf(c: Peg, n: nat, p: Pos, least: int)
    requires Ready(c) && n in c.a.alts && p.offset <= c.size && MatchNonTerminal(c, n, p, least).Some?
    ensures MatchNonTerminal(c, n, p, least).value.value.Node?
  {
    hide Ready;
    NameParses(c, n, p, least);
  }

  // ----- growing -----

  // No rule applies where no operator of the level comes.
  lemma {:induction false} GrowEnds(c: Peg, n: nat, tbl: OpTable, j: nat, m: Match, least: int, entry: nat)
    requires Ready(c) && OperatorPart(c, n, tbl) && n in c.a.alts && n in c.a.direct && j <= |c.a.direct[n]|
    requires entry < m.pos.offset <= c.size && NoneFrom(c, tbl, m.pos, least)
    ensures Grow(c, n, j, m, least, entry) == m
    decreases |c.a.direct[n]| - j
  {
    hide Ready, OperatorPart, RulesFor, AllNullable, BinaryRule;
    var lr := c.a.direct[n];
    if j < |lr| {
      NameFacts(c, n);
      RuleIn(c, n, lr, true, j);
      DirectAt(c, n, tbl, j);
      SeedBound(c, n, lr[j]);
      BinaryRest(c, n, tbl, lr[j], m.pos, m.value, m.start, entry);
      BinaryFacts(c.g[lr[j]], n, tbl);
      RuleLeast(c.g[lr[j]], n, tbl);
      GrowEnds(c, n, tbl, j + 1, m, least, entry);
    }
  }

  lemma BinaryFacts(r: Rule, n: nat, tbl: OpTable)
    requires BinaryRule(r, n, tbl)
    ensures |r.rhs| == 3 && OpOf(r) in tbl.binary
  {
  }

  // The rule of the operator that comes applies; those of others do not.
  lemma {:induction false} GrowStep(c: Peg, n: nat, tbl: OpTable, j: nat, m: Match, least: int, entry: nat, o: nat, right: Match) returns (grown: Match)
    requires Ready(c) && c.maxMunch && OperatorPart(c, n, tbl) && n in c.a.alts && n in c.a.direct && j <= |c.a.direct[n]|
    requires entry < m.pos.offset <= c.size && o in tbl.binary && Level(tbl, o) >= least && MatchTerminal(c, o, m.pos).Some?
    requires exists x :: j <= x < |c.a.direct[n]| && c.a.direct[n][x] < |c.g| && OpOf(c.g[c.a.direct[n][x]]) == o
    requires var op := MatchTerminal(c, o, m.pos).value; MatchNonTerminal(c, n, op.pos, RightLeast(tbl, o)) == Some(right)
    ensures grown.pos == right.pos && entry < grown.pos.offset <= c.size
    ensures AsExpr(grown.value) == Binary(o, AsExpr(m.value), AsExpr(right.value))
    ensures Grow(c, n, j, m, least, entry) == Grow(c, n, 0, grown, least, entry)
    decreases |c.a.direct[n]| - j
  {
    hide Ready, OperatorPart, RulesFor, AllNullable, BinaryRule;
    var lr := c.a.direct[n];
    NameFacts(c, n);
    RuleIn(c, n, lr, true, j);
    DirectAt(c, n, tbl, j);
    var r := lr[j];
    SeedBound(c, n, r);
    BinaryRest(c, n, tbl, r, m.pos, m.value, m.start, entry);
    BinaryFacts(c.g[r], n, tbl);
    RuleLeast(c.g[r], n, tbl);
    var op := MatchTerminal(c, o, m.pos).value;
    if OpOf(c.g[r]) == o {
      grown := Match(Node(r, m.start, [m.value, op.value, right.value]), right.pos, m.start);
      assert op.value == Leaf(o, op.start);
    } else {
      if MatchTerminal(c, OpOf(c.g[r]), m.pos).Some? { OneToken(c, m.pos, OpOf(c.g[r]), o); }
      grown := GrowStep(c, n, tbl, j + 1, m, least, entry, o, right);
    }
  }

  lemma RightEnds(c: Peg, tbl: OpTable, o: nat, l: Expr, r: Expr, q: Pos)
    requires Ready(c) && TableOk(tbl) && o in tbl.binary && Yields(c, tbl, Binary(o, l, r), q)
    ensures NoneFrom(c, tbl, q, RightLeast(tbl, o)) && Yields(c, tbl, r, q)
  {
    hide Ready;
  }

  lemma LeftYields(c: Peg, tbl: OpTable, l: Expr, o: nat, q: Pos)
    requires Ready(c) && c.maxMunch && TableOk(tbl) && o in tbl.binary && Ordered(tbl, l) && Named(tbl, l) && (l.Binary? ==> LeftFits(tbl, l.op, o))
    requires q.offset <= c.size && MatchTerminal(c, o, q).Some?
    ensures Yields(c, tbl, l, q)
  {
    hide Ready;
    FitsThroughout(tbl, l, o);
    forall x | x in tbl.binary && MatchTerminal(c, x, q).Some? ensures AllLeft(tbl, l, x) { OneToken(c, q, x, o); }
  }

  // From its first operand, growing comes to the whole of `t`.
  lemma {:induction false} GrowsTo(c: Peg, n: nat, tbl: OpTable, t: Expr, p: Pos, q: Pos, least: int) returns (m: Match)
    requires Ready(c) && c.maxMunch && OperatorPart(c, n, tbl) && n in c.a.alts && n in c.a.base && n in c.a.direct
    requires RulesFor(c.g, n, c.a.base[n], false)
    requires Ordered(tbl, t) && Named(tbl, t) && Ruled(c, n, tbl, t) && least <= tbl.tight && p.offset <= c.size
    requires Stream(c, p, Tokens(tbl, t), q) && AtLeast(tbl, t, least) && Yields(c, tbl, t, q)
    ensures AsExpr(m.value) == t && m.pos == q && p.offset < q.offset <= c.size
    ensures var seed := FirstOf(c, n, c.a.base[n], 0, p, least);
      seed.Some? && p.offset < seed.value.pos.offset <= c.size && Grow(c, n, 0, seed.value, least, p.offset) == Grow(c, n, 0, m, least, p.offset)
    decreases t, 1
  {
    hide Ready, OperatorPart, RulesFor, BelowLevel, Starts, Infixes, LevelOf;
    PartFacts(c, n, tbl);
    if !t.Binary? {
      m := UnitMatched(c, n, tbl, t, p, q, least);
      StreamAdvances(c, p, Tokens(tbl, t), q);
    } else {
      var o, l, r := t.op, t.left, t.right;
      var p2 := StreamSplit(c, p, Tokens(tbl, l) + [o], Tokens(tbl, r), q);
      var p1 := StreamSplit(c, p, Tokens(tbl, l), [o], p2);
      StreamOne(c, p1, o, p2);
      LeftYields(c, tbl, l, o, p1);
      var left := GrowsTo(c, n, tbl, l, p, p1, least);
      RightEnds(c, tbl, o, l, r, q);
      FitsThroughout(tbl, r, o);
      RightAtLeast(tbl, r, o);
      RightLevel(tbl, o);
      var right := Builds(c, n, tbl, r, p2, q, RightLeast(tbl, o));
      DirectThere(c, n, o);
      m := GrowStep(c, n, tbl, 0, left, least, p.offset, o, right);
    }
  }

  lemma DirectThere(c: Peg, n: nat, o: nat)
    requires n in c.a.direct && o in Infixes(c, n)
    ensures exists x :: 0 <= x < |c.a.direct[n]| && c.a.direct[n][x] < |c.g| && OpOf(c.g[c.a.direct[n][x]]) == o
  {
  }

  lemma {:induction false} StreamAdvances(c: Peg, p: Pos, ts: seq<nat>, q: Pos)
    requires Ready(c) && Stream(c, p, ts, q)
    ensures p.offset + |ts| <= q.offset && (ts != [] ==> q.offset <= c.size)
    decreases |ts|
  {
    hide Ready;
    if ts != [] { StreamAdvances(c, MatchTerminal(c, ts[0], p).value.pos, ts[1..], q); }
  }

  /** Wherever an expression that respects precedence stands, on its level and with nothing after it that it
      could take, it is matched whole. */
  lemma {:induction false} Builds(c: Peg, n: nat, tbl: OpTable, t: Expr, p: Pos, q: Pos, least: int) returns (m: Match)
    requires Ready(c) && c.maxMunch && OperatorPart(c, n, tbl) && n in c.a.alts && n in c.a.base && n in c.a.direct
    requires RulesFor(c.g, n, c.a.base[n], false)
    requires Ordered(tbl, t) && Named(tbl, t) && Ruled(c, n, tbl, t) && least <= tbl.tight && p.offset <= c.size
    requires Stream(c, p, Tokens(tbl, t), q) && AtLeast(tbl, t, least) && Yields(c, tbl, t, q) && NoneFrom(c, tbl, q, least)
    ensures MatchNonTerminal(c, n, p, least) == Some(m) && AsExpr(m.value) == t && m.pos == q
    decreases t, 2
  {
    hide Ready, OperatorPart, RulesFor, BelowLevel, LevelOf, Yields, NoneFrom, Ruled;
    PartFacts(c, n, tbl);
    NameFacts(c, n);
    m := GrowsTo(c, n, tbl, t, p, q, least);
    GrowEnds(c, n, tbl, 0, m, least, p.offset);
  }

  // ----- from the grammar -----

  /** The rules of `n` are operators, parentheses and operands, and there is a binary operator. */
  ghost predicate OperatorRules(g: Grammar, n: nat, tbl: OpTable) {
    && TableOk(tbl)
    && (forall r | 1 <= r < |g| && g[r].lhs == n :: BinaryRule(g[r], n, tbl) || BaseRule(g[r], n, tbl))
    && (exists r :: 1 <= r < |g| && g[r].lhs == n && BinaryRule(g[r], n, tbl))
  }

  lemma RuleKinds(g: Grammar, r: nat, n: nat, tbl: OpTable)
    requires r < |g| && g[r].lhs == n
    ensures BinaryRule(g[r], n, tbl) ==> Direct(g, r) && !MidRule(g, r)
    ensures BaseRule(g[r], n, tbl) ==> !Direct(g, r) && !MidRule(g, r)
  {
  }

  /** What the theorems ask of an operator nonterminal can be read off the grammar. */
  lemma PartFromRules(c: Peg, n: nat, tbl: OpTable)
    requires Sorted(c.g, c.a) && OperatorRules(c.g, n, tbl)
    ensures OperatorPart(c, n, tbl)
  {
    hide Sorted, TableOk, BinaryRule, BaseRule, Direct, MidRule;
    var r0: nat :| 1 <= r0 < |c.g| && c.g[r0].lhs == n && BinaryRule(c.g[r0], n, tbl);
    InAlternatives(c.g, c.a, n, r0);
    RuleKinds(c.g, r0, n, tbl);
    NotMidRule(c, n, tbl);
    forall r | r in c.a.direct[n] ensures r < |c.g| && BinaryRule(c.g[r], n, tbl) {
      InAlternatives(c.g, c.a, n, r);
      RuleKinds(c.g, r, n, tbl);
    }
    forall r | r in c.a.base[n] ensures r < |c.g| && BaseRule(c.g[r], n, tbl) {
      InAlternatives(c.g, c.a, n, r);
      RuleKinds(c.g, r, n, tbl);
    }
  }

  lemma NotMidRule(c: Peg, n: nat, tbl: OpTable)
    requires Sorted(c.g, c.a) && OperatorRules(c.g, n, tbl)
    ensures n !in c.a.anon
  {
    hide SortedAlts, SortedParts, TableOk, BinaryRule, BaseRule, Direct, MidRule;
    if n in c.a.anon { RuleKinds(c.g, c.a.anon[n], n, tbl); }
  }

  // A rule of the grammar is among the alternatives.
  lemma RuleHas(c: Peg, n: nat, tbl: OpTable, r: nat)
    requires Sorted(c.g, c.a) && 1 <= r < |c.g| && c.g[r].lhs == n
    ensures n in c.a.direct && n in c.a.base
    ensures BinaryRule(c.g[r], n, tbl) ==> OpOf(c.g[r]) in Infixes(c, n)
    ensures BaseRule(c.g[r], n, tbl) ==> FirstToken(c.g[r]) in Starts(c, n)
  {
    hide Sorted, BinaryRule, BaseRule, Direct, MidRule;
    InAlternatives(c.g, c.a, n, r);
    RuleKinds(c.g, r, n, tbl);
    if BinaryRule(c.g[r], n, tbl) { var j :| 0 <= j < |c.a.direct[n]| && c.a.direct[n][j] == r; }
    if BaseRule(c.g[r], n, tbl) { var j :| 0 <= j < |c.a.base[n]| && c.a.base[n][j] == r; }
  }

  // The tokens that begin an operand, and the binary operators, read off the grammar.
  ghost function StartTokens(g: Grammar, n: nat, tbl: OpTable): set<nat> {
    set r: nat | 1 <= r < |g| && g[r].lhs == n && BaseRule(g[r], n, tbl) :: FirstToken(g[r])
  }

  ghost function InfixTokens(g: Grammar, n: nat, tbl: OpTable): set<nat> {
    set r: nat | 1 <= r < |g| && g[r].lhs == n && BinaryRule(g[r], n, tbl) :: OpOf(g[r])
  }

  lemma TokensTried(c: Peg, n: nat, tbl: OpTable)
    requires Sorted(c.g, c.a) && OperatorRules(c.g, n, tbl)
    ensures n in c.a.alts && n in c.a.base && n in c.a.direct
    ensures Starts(c, n) == StartTokens(c.g, n, tbl) && Infixes(c, n) == InfixTokens(c.g, n, tbl)
  {
    hide Sorted, OperatorRules, BinaryRule, BaseRule, Direct, MidRule;
    PartFromRules(c, n, tbl);
    PartFacts(c, n, tbl);
    forall k | k in StartTokens(c.g, n, tbl) ensures k in Starts(c, n) {
      var r: nat :| 1 <= r < |c.g| && c.g[r].lhs == n && BaseRule(c.g[r], n, tbl) && FirstToken(c.g[r]) == k;
      RuleHas(c, n, tbl, r);
    }
    forall k | k in InfixTokens(c.g, n, tbl) ensures k in Infixes(c, n) {
      var r: nat :| 1 <= r < |c.g| && c.g[r].lhs == n && BinaryRule(c.g[r], n, tbl) && OpOf(c.g[r]) == k;
      RuleHas(c, n, tbl, r);
    }
    forall k | k in Starts(c, n) ensures k in StartTokens(c.g, n, tbl) {
      var j: nat :| j < |c.a.base[n]| && c.a.base[n][j] < |c.g| && FirstToken(c.g[c.a.base[n][j]]) == k;
      BaseAt(c, n, tbl, j);
      InAlternatives(c.g, c.a, n, c.a.base[n][j]);
    }
    forall k | k in Infixes(c, n) ensures k in InfixTokens(c.g, n, tbl) {
      var j: nat :| j < |c.a.direct[n]| && c.a.direct[n][j] < |c.g| && OpOf(c.g[c.a.direct[n][j]]) == k;
      DirectAt(c, n, tbl, j);
      InAlternatives(c.g, c.a, n, c.a.direct[n][j]);
    }
  }

  // ----- whatever is matched is an expression over the tokens consumed -----

  ghost predicate Means(c: Peg, n: nat, tbl: OpTable, t: Tree, p: Pos, q: Pos)
    requires Ready(c)
  {
    hide Ready;
    var e := AsExpr(t);
    n in c.a.base && n in c.a.direct && Named(tbl, e) && Ruled(c, n, tbl, e) && Stream(c, p, Tokens(tbl, e), q)
  }

  lemma TokenMeans(c: Peg, k: nat, t: Tree, p: Pos, q: Pos)
    requires Ready(c) && Parses(c, Token(k), t, p, q) && p.offset <= c.size
    ensures t.Leaf? && t.t == k && MatchTerminal(c, k, p).Some? && MatchTerminal(c, k, p).value.pos == q && Stream(c, p, [k], q)
    ensures p.offset <= q.offset <= c.size
  {
    hide Ready;
    StreamOne(c, p, k, q);
  }

  // The children of a node, one after the other.
  lemma Kid(c: Peg, r: nat, i: nat, t: Tree, p: Pos, q: Pos) returns (mid: Pos)
    requires r < |c.g| && t.Node? && |t.kids| == |c.g[r].rhs| && i < |t.kids| && ParsesRest(c, r, i, t, p, q)
    ensures Parses(c, c.g[r].rhs[i], t.kids[i], p, mid) && ParsesRest(c, r, i + 1, t, mid, q)
  {
    hide Parses;
    mid :| Parses(c, c.g[r].rhs[i], t.kids[i], p, mid) && ParsesRest(c, r, i + 1, t, mid, q);
  }

  lemma NoKidsLeft(c: Peg, r: nat, t: Tree, p: Pos, q: Pos)
    requires r < |c.g| && t.Node? && |t.kids| == |c.g[r].rhs| && ParsesRest(c, r, |t.kids|, t, p, q)
    ensures q == p
  {
  }

  lemma {:induction false} ParsesMeans(c: Peg, n: nat, tbl: OpTable, t: Tree, p: Pos, q: Pos)
    requires Ready(c) && Sorted(c.g, c.a) && OperatorRules(c.g, n, tbl) && Parses(c, NonTerminal(n), t, p, q) && p.offset <= c.size
    ensures t.Node? && Means(c, n, tbl, t, p, q) && p.offset <= q.offset <= c.size
    decreases t
  {
    hide Ready, Sorted, BinaryRule, BaseRule, ParsesRest, Named, Ruled, Tokens, AsExpr, TableOk;
    var r := if t.Node? then t.rule else if t.Mid? then t.rule else 0;
    RuleKinds(c.g, r, n, tbl);
    RuleHas(c, n, tbl, r);
    assert t.Node?;
    if BinaryRule(c.g[r], n, tbl) {
      BinaryShape(c.g[r], n, tbl);
      var p1 := Kid(c, r, 0, t, p, q);
      ParsesMeans(c, n, tbl, t.kids[0], p, p1);
      var p2 := Kid(c, r, 1, t, p1, q);
      TokenMeans(c, OpOf(c.g[r]), t.kids[1], p1, p2);
      var p3 := Kid(c, r, 2, t, p2, q);
      ParsesMeans(c, n, tbl, t.kids[2], p2, p3);
      NoKidsLeft(c, r, t, p3, q);
      BinaryMeans(c, n, tbl, t, p, p1, p2, q);
    } else {
      BaseShape(c.g[r], n, tbl);
      var k := FirstToken(c.g[r]);
      var p1 := Kid(c, r, 0, t, p, q);
      TokenMeans(c, k, t.kids[0], p, p1);
      if |t.kids| == 1 {
        NoKidsLeft(c, r, t, p1, q);
        OperandMeans(c, n, tbl, t, p, q);
      } else {
        var p2 := Kid(c, r, 1, t, p1, q);
        ParsesMeans(c, n, tbl, t.kids[1], p1, p2);
        if |t.kids| == 2 {
          NoKidsLeft(c, r, t, p2, q);
          PrefixMeans(c, n, tbl, t, p, p1, q);
        } else {
          var p3 := Kid(c, r, 2, t, p2, q);
          TokenMeans(c, tbl.close, t.kids[2], p2, p3);
          NoKidsLeft(c, r, t, p3, q);
          GroupMeans(c, n, tbl, t, p, p1, p2, q);
        }
      }
    }
  }

  lemma BinaryShape(r: Rule, n: nat, tbl: OpTable)
    requires BinaryRule(r, n, tbl)
    ensures r.rhs == [NonTerminal(n), Token(OpOf(r)), NonTerminal(n)] && OpOf(r) in tbl.binary
  {
  }

  lemma BaseShape(r: Rule, n: nat, tbl: OpTable)
    requires BaseRule(r, n, tbl)
    ensures 1 <= |r.rhs| <= 3 && r.rhs[0] == Token(FirstToken(r))
    ensures |r.rhs| == 1 ==> FirstToken(r) !in tbl.prefixes && FirstToken(r) != tbl.open
    ensures |r.rhs| > 1 ==> r.rhs[1] == NonTerminal(n)
    ensures |r.rhs| == 2 ==> FirstToken(r) in tbl.prefixes
    ensures |r.rhs| == 3 ==> r.rhs[2] == Token(tbl.close) && FirstToken(r) == tbl.open
  {
  }

  lemma OperandMeans(c: Peg, n: nat, tbl: OpTable, t: Tree, p: Pos, q: Pos)
    requires Ready(c) && n in c.a.base && n in c.a.direct && t.Node? && |t.kids| == 1 && t.kids[0].Leaf?
    requires Stream(c, p, [t.kids[0].t], q) && t.kids[0].t in Starts(c, n) && t.kids[0].t !in tbl.prefixes && t.kids[0].t != tbl.open
    ensures Means(c, n, tbl, t, p, q)
  {
    hide Ready;
    assert AsExpr(t) == AsExpr(t.kids[0]) == Operand(t.kids[0].t);
  }

  lemma PrefixMeans(c: Peg, n: nat, tbl: OpTable, t: Tree, p: Pos, p1: Pos, q: Pos)
    requires Ready(c) && n in c.a.base && n in c.a.direct && t.Node? && |t.kids| == 2 && t.kids[0].Leaf?
    requires Stream(c, p, [t.kids[0].t], p1) && t.kids[0].t in Starts(c, n) && t.kids[0].t in tbl.prefixes && Means(c, n, tbl, t.kids[1], p1, q)
    ensures Means(c, n, tbl, t, p, q)
  {
    hide Ready, Starts;
    StreamAppend(c, p, [t.kids[0].t], p1, Tokens(tbl, AsExpr(t.kids[1])), q);
  }

  lemma GroupMeans(c: Peg, n: nat, tbl: OpTable, t: Tree, p: Pos, p1: Pos, p2: Pos, q: Pos)
    requires Ready(c) && n in c.a.base && n in c.a.direct && t.Node? && |t.kids| == 3 && t.kids[1].Node?
    requires Stream(c, p, [tbl.open], p1) && tbl.open in Starts(c, n) && Means(c, n, tbl, t.kids[1], p1, p2) && Stream(c, p2, [tbl.close], q)
    ensures Means(c, n, tbl, t, p, q)
  {
    hide Ready, Starts;
    var e := Tokens(tbl, AsExpr(t.kids[1]));
    StreamAppend(c, p, [tbl.open], p1, e, p2);
    StreamAppend(c, p, [tbl.open] + e, p2, [tbl.close], q);
  }

  lemma BinaryMeans(c: Peg, n: nat, tbl: OpTable, t: Tree, p: Pos, p1: Pos, p2: Pos, q: Pos)
    requires Ready(c) && n in c.a.base && n in c.a.direct && t.Node? && |t.kids| == 3 && t.kids[1].Leaf? && t.kids[1].t in tbl.binary
    requires Means(c, n, tbl, t.kids[0], p, p1) && Stream(c, p1, [t.kids[1].t], p2) && t.kids[1].t in Infixes(c, n)
    requires Means(c, n, tbl, t.kids[2], p2, q)
    ensures Means(c, n, tbl, t, p, q)
  {
    hide Ready, Starts, Infixes;
    var l, r, o := Tokens(tbl, AsExpr(t.kids[0])), Tokens(tbl, AsExpr(t.kids[2])), t.kids[1].t;
    StreamAppend(c, p, l, p1, [o], p2);
    StreamAppend(c, p, l + [o], p2, r, q);
  }

  // ----- the theorem -----

  lemma {:induction false} StreamsAgree(c: Peg, p: Pos, xs: seq<nat>, q: Pos, ys: seq<nat>, s: Pos)
    requires Ready(c) && c.maxMunch && Stream(c, p, xs, q) && Stream(c, p, ys, s) && q == s
    ensures xs == ys
    decreases |xs|
  {
    hide Ready;
    if xs != [] && ys != [] {
      OneToken(c, p, xs[0], ys[0]);
      StreamsAgree(c, MatchTerminal(c, xs[0], p).value.pos, xs[1..], q, ys[1..], s);
      assert xs == [xs[0]] + xs[1..] && ys == [ys[0]] + ys[1..];
    } else if xs != [] {
      StreamAdvances(c, p, xs, q);
    } else if ys != [] {
      StreamAdvances(c, p, ys, s);
    }
  }

  /** An expression at `p`, however it is bracketed by rules, is matched whole as its reading, when what
      follows is no binary operator. */
  lemma PegReads(c: Peg, n: nat, tbl: OpTable, e: Expr, p: Pos, q: Pos)
    requires Ready(c) && c.maxMunch && OperatorPart(c, n, tbl) && n in c.a.alts && n in c.a.base && n in c.a.direct
    requires Named(tbl, e) && Ruled(c, n, tbl, Reading(tbl, e)) && Stream(c, p, Tokens(tbl, e), q) && p.offset <= c.size && q.offset <= c.size
    requires forall o | o in tbl.binary :: MatchTerminal(c, o, q).None?
    ensures var m := MatchNonTerminal(c, n, p, 0); m.Some? && m.value.pos == q && AsExpr(m.value.value) == Reading(tbl, e)
  {
    hide Ready, OperatorPart, Reading, Ordered, Named, Ruled, Tokens, AtLeast, RulesFor;
    PartFacts(c, n, tbl);
    NameFacts(c, n);
    ReadingOk(tbl, e);
    NotNegative(c, n, tbl, Reading(tbl, e));
    TightPositive(c, n, tbl);
    var m := Builds(c, n, tbl, Reading(tbl, e), p, q, 0);
  }

  // ----- every match respects precedence -----

  // Operator `o` and an operand come next.
  ghost predicate Continues(c: Peg, n: nat, o: nat, q: Pos)
    requires Ready(c) && n in c.a.alts
  {
    hide Ready;
    q.offset <= c.size && MatchTerminal(c, o, q).Some? && MatchNonTerminal(c, n, MatchTerminal(c, o, q).value.pos, 0).Some?
  }

  // No binary operator of this level or above can go on.
  ghost predicate Stopped(c: Peg, n: nat, tbl: OpTable, q: Pos, least: int)
    requires Ready(c) && n in c.a.alts && n in c.a.direct
  {
    forall o | o in Infixes(c, n) && Level(tbl, o) >= least :: !Continues(c, n, o, q)
  }

  /** The expression respects precedence, its operators outside parentheses are of at least the level asked
      for, its tokens are those consumed, and its right operand went as far as it could. */
  ghost predicate Climbed(c: Peg, n: nat, tbl: OpTable, p: Pos, least: int, m: Match)
    requires Ready(c) && n in c.a.alts && n in c.a.direct
  {
    hide Ready;
    var e := AsExpr(m.value);
    && Ordered(tbl, e) && Named(tbl, e) && AtLeast(tbl, e, least) && Stream(c, p, Tokens(tbl, e), m.pos)
    && m.pos.offset <= c.size && p.offset < m.pos.offset && m.value.Node?
    && (e.Binary? ==> Stopped(c, n, tbl, m.pos, RightLeast(tbl, e.op)))
  }

  lemma NoneAbove(tbl: OpTable, e: Expr)
    requires TableOk(tbl) && Named(tbl, e) && AtLeast(tbl, e, tbl.tight)
    ensures !e.Binary?
  {
  }

  // An operand, if its parts are matched as they should be.
  lemma UnitClimbs(c: Peg, n: nat, tbl: OpTable, p: Pos, least: int, m: Match)
    requires Ready(c) && n in c.a.alts && n in c.a.direct && m.value.Node?
    requires var e := AsExpr(m.value); !e.Binary? && Ordered(tbl, e) && Named(tbl, e) && Stream(c, p, Tokens(tbl, e), m.pos)
    requires m.pos.offset <= c.size && p.offset < m.pos.offset
    ensures Climbed(c, n, tbl, p, least, m)
  {
    hide Ready;
  }

  // What an operand is made of, and that it is one.
  lemma {:induction false} BaseClimbs(c: Peg, n: nat, tbl: OpTable, r: nat, p: Pos, least: int)
    requires Ready(c) && OperatorPart(c, n, tbl) && n in c.a.alts && n in c.a.direct && p.offset <= c.size
    requires 1 <= r < |c.g| && !Direct(c.g, r) && BaseRule(c.g[r], n, tbl) && AllNullable(c.nullable, c.g[r].rhs[..0])
    requires MatchRest(c, r, 0, p, [], None, p.offset).Some?
    ensures var m := MatchRest(c, r, 0, p, [], None, p.offset).value; Climbed(c, n, tbl, p, least, m) && !AsExpr(m.value).Binary?
    decreases c.size - p.offset, 0, 0, 0
  {
    hide Ready, OperatorPart, Climbed, Stopped, BaseRule, OperandRule, PrefixRule, GroupRule, TableOk, AllNullable, Stream, Named, Ordered;
    PartFacts(c, n, tbl);
    BaseKinds(c.g[r], n, tbl);
    FirstRest(c, r, p);
    var k := FirstToken(c.g[r]);
    var first := MatchTerminal(c, k, p).value;
    StreamOne(c, p, k, first.pos);
    FirstLeaf(c, k, p);
    if OperandRule(c.g[r], n, tbl) {
      OperandMatch(c, n, tbl, r, p, first);
      OperandClimbs(c, n, tbl, r, p, least, first);
    } else if PrefixRule(c.g[r], n, tbl) {
      PrefixMatch(c, n, tbl, r, p, first);
      NameClimbs(c, n, tbl, first.pos, tbl.tight);
      PrefixClimbs(c, n, tbl, r, p, least, first, MatchNonTerminal(c, n, first.pos, tbl.tight).value);
    } else {
      GroupMatch(c, n, tbl, r, p, first);
      NameClimbs(c, n, tbl, first.pos, 0);
      GroupClimbs(c, n, tbl, r, p, least, first, MatchNonTerminal(c, n, first.pos, 0).value);
    }
  }

  lemma BaseKinds(r: Rule, n: nat, tbl: OpTable)
    requires BaseRule(r, n, tbl)
    ensures |r.rhs| > 0 && r.rhs[0].Token? && (OperandRule(r, n, tbl) || PrefixRule(r, n, tbl) || GroupRule(r, n, tbl))
  {
  }

  lemma FirstLeaf(c: Peg, k: nat, p: Pos)
    requires Ready(c) && p.offset <= c.size && MatchTerminal(c, k, p).Some?
    ensures var m := MatchTerminal(c, k, p).value; m.value == Leaf(k, m.start) && p.offset < m.pos.offset <= c.size
  {
    hide Ready;
  }

  lemma OperandClimbs(c: Peg, n: nat, tbl: OpTable, r: nat, p: Pos, least: int, first: Match)
    requires Ready(c) && n in c.a.alts && n in c.a.direct && 1 <= r < |c.g| && OperandRule(c.g[r], n, tbl)
    requires first.value == Leaf(FirstToken(c.g[r]), first.start) && p.offset < first.pos.offset <= c.size
    requires Stream(c, p, [FirstToken(c.g[r])], first.pos)
    ensures var m := Match(Node(r, first.start, [first.value]), first.pos, first.start);
      Climbed(c, n, tbl, p, least, m) && !AsExpr(m.value).Binary?
  {
    hide Ready, Climbed, Stream, LevelOf;
    var m := Match(Node(r, first.start, [first.value]), first.pos, first.start);
    assert AsExpr(first.value) == Operand(FirstToken(c.g[r])) == AsExpr(m.value);
    UnitClimbs(c, n, tbl, p, least, m);
  }

  lemma PrefixClimbs(c: Peg, n: nat, tbl: OpTable, r: nat, p: Pos, least: int, first: Match, inner: Match)
    requires Ready(c) && TableOk(tbl) && n in c.a.alts && n in c.a.direct && 1 <= r < |c.g| && PrefixRule(c.g[r], n, tbl)
    requires first.value == Leaf(FirstToken(c.g[r]), first.start) && p.offset < first.pos.offset <= c.size
    requires Stream(c, p, [FirstToken(c.g[r])], first.pos) && Climbed(c, n, tbl, first.pos, tbl.tight, inner)
    ensures var m := Match(Node(r, first.start, [first.value, inner.value]), inner.pos, first.start);
      Climbed(c, n, tbl, p, least, m) && !AsExpr(m.value).Binary?
  {
    hide Ready, Stopped, Stream, LevelOf, TableOk;
    var m := Match(Node(r, first.start, [first.value, inner.value]), inner.pos, first.start);
    var e := AsExpr(inner.value);
    NoneAbove(tbl, e);
    assert AsExpr(m.value) == Operators.Prefix(FirstToken(c.g[r]), e);
    StreamAppend(c, p, [FirstToken(c.g[r])], first.pos, Tokens(tbl, e), inner.pos);
    UnitClimbs(c, n, tbl, p, least, m);
  }

  lemma GroupClimbs(c: Peg, n: nat, tbl: OpTable, r: nat, p: Pos, least: int, first: Match, inner: Match)
    requires Ready(c) && n in c.a.alts && n in c.a.direct && 1 <= r < |c.g| && GroupRule(c.g[r], n, tbl)
    requires first.value == Leaf(FirstToken(c.g[r]), first.start) && p.offset < first.pos.offset <= c.size
    requires Stream(c, p, [FirstToken(c.g[r])], first.pos) && Climbed(c, n, tbl, first.pos, 0, inner)
    requires inner.pos.offset <= c.size && MatchTerminal(c, tbl.close, inner.pos).Some?
    ensures var close := MatchTerminal(c, tbl.close, inner.pos).value;
      var m := Match(Node(r, first.start, [first.value, inner.value, close.value]), close.pos, first.start);
      Climbed(c, n, tbl, p, least, m) && !AsExpr(m.value).Binary?
  {
    hide Ready, Stopped, Stream, LevelOf;
    var close := MatchTerminal(c, tbl.close, inner.pos).value;
    var m := Match(Node(r, first.start, [first.value, inner.value, close.value]), close.pos, first.start);
    var e := AsExpr(inner.value);
    assert AsExpr(m.value) == Group(e);
    StreamAppend(c, p, [tbl.open], first.pos, Tokens(tbl, e), inner.pos);
    StreamOne(c, inner.pos, tbl.close, close.pos);
    StreamAppend(c, p, [tbl.open] + Tokens(tbl, e), inner.pos, [tbl.close], close.pos);
    FirstLeaf(c, tbl.close, inner.pos);
    UnitClimbs(c, n, tbl, p, least, m);
  }

  // The first alternative that matches; the level asked for does not matter up to that of prefix operators.
  lemma {:induction false} FirstClimbs(c: Peg, n: nat, tbl: OpTable, j: nat, p: Pos, least: int)
    requires Ready(c) && OperatorPart(c, n, tbl) && n in c.a.alts && n in c.a.base && n in c.a.direct
    requires RulesFor(c.g, n, c.a.base[n], false) && j <= |c.a.base[n]| && p.offset <= c.size
    ensures least <= tbl.tight ==> FirstOf(c, n, c.a.base[n], j, p, least) == FirstOf(c, n, c.a.base[n], j, p, 0)
    ensures var m := FirstOf(c, n, c.a.base[n], j, p, least);
      m.Some? ==> Climbed(c, n, tbl, p, least, m.value) && !AsExpr(m.value.value).Binary?
    decreases c.size - p.offset, 1, |c.a.base[n]| - j, 0
  {
    hide Ready, RulesFor, Climbed, OperatorPart, BaseRule, BelowLevel;
    var list := c.a.base[n];
    if j < |list| {
      RuleIn(c, n, list, false, j);
      BaseAt(c, n, tbl, j);
      var r := list[j];
      TightPositive(c, n, tbl);
      BaseLeast(c.g[r], n, tbl, 0);
      if least <= tbl.tight { BaseLeast(c.g[r], n, tbl, least); }
      FirstRest(c, r, p);
      FirstClimbs(c, n, tbl, j + 1, p, least);
      if MatchRest(c, r, 0, p, [], None, p.offset).Some? { BaseClimbs(c, n, tbl, r, p, least); }
    }
  }

  // ----- growing -----

  // The operators of the first `j` rules cannot go on.
  ghost predicate TriedTo(c: Peg, n: nat, tbl: OpTable, j: nat, q: Pos, least: int)
    requires Ready(c) && n in c.a.alts && n in c.a.direct && j <= |c.a.direct[n]|
  {
    forall k | 0 <= k < j && c.a.direct[n][k] < |c.g| && Level(tbl, OpOf(c.g[c.a.direct[n][k]])) >= least ::
      !Continues(c, n, OpOf(c.g[c.a.direct[n][k]]), q)
  }

  lemma AllTried(c: Peg, n: nat, tbl: OpTable, q: Pos, least: int)
    requires Ready(c) && n in c.a.alts && n in c.a.direct && TriedTo(c, n, tbl, |c.a.direct[n]|, q, least)
    ensures Stopped(c, n, tbl, q, least)
  {
    hide Ready, Continues, Level;
    forall o | o in Infixes(c, n) && Level(tbl, o) >= least ensures !Continues(c, n, o, q) {
      var j: nat :| j < |c.a.direct[n]| && c.a.direct[n][j] < |c.g| && OpOf(c.g[c.a.direct[n][j]]) == o;
    }
  }

  // An operator that goes on where `x` stopped is weaker than what `x` takes.
  lemma StoppedFits(c: Peg, n: nat, tbl: OpTable, q: Pos, x: nat, o: nat)
    requires Ready(c) && n in c.a.alts && n in c.a.direct && TableOk(tbl) && x in tbl.binary && o in tbl.binary && o in Infixes(c, n)
    requires Stopped(c, n, tbl, q, RightLeast(tbl, x)) && Continues(c, n, o, q)
    ensures LeftFits(tbl, x, o)
  {
    hide Ready, Continues, Infixes;
  }

  lemma LeastFits(tbl: OpTable, x: nat, o: nat)
    requires Level(tbl, x) >= RightLeast(tbl, o)
    ensures RightFits(tbl, x, o)
  {
  }

  // The parts of a grown tree.
  lemma JoinedOk(tbl: OpTable, e: Expr, o: nat, er: Expr, least: int)
    requires TableOk(tbl) && o in tbl.binary && Level(tbl, o) >= least && Ordered(tbl, e) && Named(tbl, e) && AtLeast(tbl, e, least)
    requires Ordered(tbl, er) && Named(tbl, er) && AtLeast(tbl, er, RightLeast(tbl, o)) && (e.Binary? ==> LeftFits(tbl, e.op, o))
    ensures var t := Binary(o, e, er); Ordered(tbl, t) && Named(tbl, t) && AtLeast(tbl, t, least)
  {
    if er.Binary? { LeastFits(tbl, er.op, o); }
    LowerAtLeast(tbl, er, RightLeast(tbl, o), least);
  }

  lemma GrownClimbs(c: Peg, n: nat, tbl: OpTable, r: nat, p: Pos, least: int, seed: Match)
    requires Ready(c) && TableOk(tbl) && n in c.a.alts && n in c.a.direct && r < |c.g| && BinaryRule(c.g[r], n, tbl)
    requires OpOf(c.g[r]) in Infixes(c, n)
    requires Climbed(c, n, tbl, p, least, seed) && Level(tbl, OpOf(c.g[r])) >= least
    requires BinaryMatch(c, n, r, seed.pos, seed.value, seed.start).Some?
    requires Continues(c, n, OpOf(c.g[r]), seed.pos)
    requires var op := MatchTerminal(c, OpOf(c.g[r]), seed.pos).value;
      var least' := RightLeast(tbl, OpOf(c.g[r]));
      var right := MatchNonTerminal(c, n, op.pos, least').value;
      Climbed(c, n, tbl, op.pos, least', right) && Stopped(c, n, tbl, right.pos, least')
    ensures var m := BinaryMatch(c, n, r, seed.pos, seed.value, seed.start).value;
      Climbed(c, n, tbl, p, least, m) && seed.pos.offset < m.pos.offset
  {
    hide Ready, Stopped, Continues, Level, RightAssoc, LeftFits, RightFits, TableOk, Infixes, AtLeast, Stream;
    RuleLeast(c.g[r], n, tbl);
    BinaryFacts(c.g[r], n, tbl);
    var o := OpOf(c.g[r]);
    var op := MatchTerminal(c, o, seed.pos).value;
    var right := MatchNonTerminal(c, n, op.pos, RightLeast(tbl, o)).value;
    var e, er := AsExpr(seed.value), AsExpr(right.value);
    FirstLeaf(c, o, seed.pos);
    StreamOne(c, seed.pos, o, op.pos);
    StreamAppend(c, p, Tokens(tbl, e), seed.pos, [o], op.pos);
    StreamAppend(c, p, Tokens(tbl, e) + [o], op.pos, Tokens(tbl, er), right.pos);
    if e.Binary? { StoppedFits(c, n, tbl, seed.pos, e.op, o); }
    JoinedOk(tbl, e, o, er, least);
    var m := BinaryMatch(c, n, r, seed.pos, seed.value, seed.start).value;
    assert AsExpr(m.value) == Binary(o, e, er);
  }

  lemma {:induction false} GrowClimbs(c: Peg, n: nat, tbl: OpTable, j: nat, seed: Match, least: int, p: Pos)
    requires Ready(c) && OperatorPart(c, n, tbl) && n in c.a.alts && n in c.a.direct && j <= |c.a.direct[n]|
    requires p.offset <= c.size && Climbed(c, n, tbl, p, least, seed) && TriedTo(c, n, tbl, j, seed.pos, least)
    ensures p.offset < seed.pos.offset <= c.size
    ensures var m := Grow(c, n, j, seed, least, p.offset); Climbed(c, n, tbl, p, least, m) && Stopped(c, n, tbl, m.pos, least)
    decreases c.size - p.offset, 2, c.size - seed.pos.offset, |c.a.direct[n]| - j
  {
    hide Ready, OperatorPart, Stopped, Continues, TriedTo, RulesFor, AllNullable, Climbed, BinaryRule, BelowLevel, Infixes, TableOk;
    PartFacts(c, n, tbl);
    NameFacts(c, n);
    ClimbedBounds(c, n, tbl, p, least, seed);
    var lr := c.a.direct[n];
    if j == |lr| {
      AllTried(c, n, tbl, seed.pos, least);
    } else {
      RuleIn(c, n, lr, true, j);
      DirectAt(c, n, tbl, j);
      var r := lr[j];
      RuleLeast(c.g[r], n, tbl);
      BinaryFacts(c.g[r], n, tbl);
      SeedBound(c, n, r);
      BinaryRest(c, n, tbl, r, seed.pos, seed.value, seed.start, p.offset);
      RuleTried(c, n, tbl, j, seed, least);
      if BelowLevel(c.g[r], least) || BinaryMatch(c, n, r, seed.pos, seed.value, seed.start).None? {
        OneMoreTried(c, n, tbl, j, seed.pos, least);
        GrowClimbs(c, n, tbl, j + 1, seed, least, p);
      } else {
        var m := BinaryMatch(c, n, r, seed.pos, seed.value, seed.start).value;
        TakenClimbs(c, n, tbl, j, p, least, seed);
        NoneTried(c, n, tbl, m.pos, least);
        GrowClimbs(c, n, tbl, 0, m, least, p);
      }
    }
  }

  // Whether the rule of an operator applies.
  lemma {:induction false} RuleTried(c: Peg, n: nat, tbl: OpTable, j: nat, seed: Match, least: int)
    requires Ready(c) && OperatorPart(c, n, tbl) && n in c.a.alts && n in c.a.direct && j < |c.a.direct[n]| && c.a.direct[n][j] < |c.g|
    requires BinaryRule(c.g[c.a.direct[n][j]], n, tbl) && seed.pos.offset <= c.size
    ensures |c.g[c.a.direct[n][j]].rhs| == 3
    ensures var r := c.a.direct[n][j];
      BinaryMatch(c, n, r, seed.pos, seed.value, seed.start).Some? <==> Continues(c, n, OpOf(c.g[r]), seed.pos)
    decreases c.size - seed.pos.offset, 4, 0, 0
  {
    hide Ready, OperatorPart, BinaryRule, Level, TableOk;
    var r := c.a.direct[n][j];
    RuleLeast(c.g[r], n, tbl);
    BinaryFacts(c.g[r], n, tbl);
    PartFacts(c, n, tbl);
    RightLevel(tbl, OpOf(c.g[r]));
    TightPositive(c, n, tbl);
    var op := MatchTerminal(c, OpOf(c.g[r]), seed.pos);
    if op.Some? { NameClimbs(c, n, tbl, op.value.pos, RightLeast(tbl, OpOf(c.g[r]))); }
  }

  lemma {:induction false} TakenClimbs(c: Peg, n: nat, tbl: OpTable, j: nat, p: Pos, least: int, seed: Match)
    requires Ready(c) && OperatorPart(c, n, tbl) && n in c.a.alts && n in c.a.direct && j < |c.a.direct[n]| && c.a.direct[n][j] < |c.g|
    requires BinaryRule(c.g[c.a.direct[n][j]], n, tbl) && |c.g[c.a.direct[n][j]].rhs| == 3 && p.offset < seed.pos.offset <= c.size
    requires Climbed(c, n, tbl, p, least, seed) && !BelowLevel(c.g[c.a.direct[n][j]], least)
    requires BinaryMatch(c, n, c.a.direct[n][j], seed.pos, seed.value, seed.start).Some? && Continues(c, n, OpOf(c.g[c.a.direct[n][j]]), seed.pos)
    ensures var m := BinaryMatch(c, n, c.a.direct[n][j], seed.pos, seed.value, seed.start).value;
      Climbed(c, n, tbl, p, least, m) && seed.pos.offset < m.pos.offset <= c.size
    decreases c.size - seed.pos.offset, 4, 0, 0
  {
    hide Ready, OperatorPart, BinaryRule, Level, TableOk, Climbed, Stopped, BelowLevel;
    var r := c.a.direct[n][j];
    RuleLeast(c.g[r], n, tbl);
    BinaryFacts(c.g[r], n, tbl);
    PartFacts(c, n, tbl);
    var op := MatchTerminal(c, OpOf(c.g[r]), seed.pos);
    NameClimbs(c, n, tbl, op.value.pos, RightLeast(tbl, OpOf(c.g[r])));
    GrownClimbs(c, n, tbl, r, p, least, seed);
    ClimbedBounds(c, n, tbl, p, least, BinaryMatch(c, n, r, seed.pos, seed.value, seed.start).value);
  }

  lemma ClimbedBounds(c: Peg, n: nat, tbl: OpTable, p: Pos, least: int, m: Match)
    requires Ready(c) && n in c.a.alts && n in c.a.direct && Climbed(c, n, tbl, p, least, m)
    ensures p.offset < m.pos.offset <= c.size
  {
    hide Ready;
  }

  lemma OneMoreTried(c: Peg, n: nat, tbl: OpTable, j: nat, q: Pos, least: int)
    requires Ready(c) && n in c.a.alts && n in c.a.direct && j < |c.a.direct[n]| && c.a.direct[n][j] < |c.g|
    requires TriedTo(c, n, tbl, j, q, least)
    requires Level(tbl, OpOf(c.g[c.a.direct[n][j]])) < least || !Continues(c, n, OpOf(c.g[c.a.direct[n][j]]), q)
    ensures TriedTo(c, n, tbl, j + 1, q, least)
  {
    hide Ready, Continues;
  }

  lemma NoneTried(c: Peg, n: nat, tbl: OpTable, q: Pos, least: int)
    requires Ready(c) && n in c.a.alts && n in c.a.direct
    ensures TriedTo(c, n, tbl, 0, q, least)
  {
    hide Ready, Continues;
  }

  /** A match of an operator nonterminal respects precedence, has only operators of the level asked for outside
      parentheses, and ends only where no operator of that level can go on. */
  lemma {:induction false} NameClimbs(c: Peg, n: nat, tbl: OpTable, p: Pos, least: int)
    requires Ready(c) && OperatorPart(c, n, tbl) && n in c.a.alts && p.offset <= c.size
    ensures n in c.a.direct
    ensures least <= tbl.tight ==> (MatchNonTerminal(c, n, p, least).Some? <==> MatchNonTerminal(c, n, p, 0).Some?)
    ensures var m := MatchNonTerminal(c, n, p, least);
      m.Some? ==> Climbed(c, n, tbl, p, least, m.value) && Stopped(c, n, tbl, m.value.pos, least)
    decreases c.size - p.offset, 3, 0, 0
  {
    hide Ready, OperatorPart, Stopped, Continues, TriedTo, RulesFor, Climbed, TableOk;
    PartFacts(c, n, tbl);
    NameFacts(c, n);
    FirstClimbs(c, n, tbl, 0, p, least);
    var seed := FirstOf(c, n, c.a.base[n], 0, p, least);
    if seed.Some? {
      NoneTried(c, n, tbl, seed.value.pos, least);
      GrowClimbs(c, n, tbl, 0, seed.value, least, p);
    }
  }
}
