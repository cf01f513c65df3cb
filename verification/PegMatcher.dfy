/** What matching computes, without memoisation (src/peg.ts:299-316, 356-495). The termination measure is
    (input left, left-corner rank, step): a grammar the analysis accepts has no other way to loop. */
module PegMatcher {
  import opened Options
  import opened PegAnalysis

  // ----- the input -----

  // Where in the input, and the kind and place of the token before, which a lexer may look at.
  datatype Pos = Pos(offset: nat, prev: Option<(nat, nat)>)

  // `kind` is absent at the end of input and where nothing matches.
  datatype Lexed = Lexed(kind: Option<nat>, at: nat, after: Pos)

  // The next token, of the terminal wanted or of any terminal.
  type Lexer = (Option<nat>, Pos) -> Lexed

  /** Tokens are not empty. */
  ghost predicate Consumes(lex: Lexer, size: nat) {
    forall want: Option<nat>, pos: Pos {:trigger lex(want, pos)} | pos.offset <= size && lex(want, pos).kind.Some? ::
      pos.offset < lex(want, pos).after.offset <= size
  }

  // ----- what a match is -----

  /** `Mid` is the value of a mid-rule action over the values before it, `Absent` that of a negated predicate. */
  datatype Tree = Leaf(t: nat, at: nat) | Node(rule: nat, start: nat, kids: seq<Tree>) | Mid(rule: nat, start: nat, peeked: seq<Tree>) | Absent

  datatype Match = Match(value: Tree, pos: Pos, start: nat)

  // The end of `values` that a mid-rule action looks at, as `slice` cuts it.
  function LastOf(values: seq<Tree>, peek: nat): seq<Tree> {
    var from := |values| - peek;
    if from >= 0 then values[from..] else if |values| + from >= 0 then values[|values| + from..] else values
  }

  // ----- precedence -----

  // No level is above every level.
  function LevelOf(r: Rule): Option<int> {
    match r.prec
    case Some(p) => if p.assoc.Fork? then None else Some(if p.level.Some? then p.level.value else 0)
    case None => None
  }

  predicate BelowLevel(r: Rule, minPrec: int) {
    LevelOf(r).Some? && LevelOf(r).value < minPrec
  }

  // The least level of an operand at the end of the rule.
  function TrailingMinPrec(r: Rule): Option<int> {
    if LevelOf(r).Some? && |r.rhs| > 1 && r.rhs[|r.rhs| - 1] == NonTerminal(r.lhs)
    then Some(LevelOf(r).value + if r.prec.value.assoc.Right? then 0 else 1)
    else None
  }

  function OperandMin(r: Rule, i: nat): int
    requires i < |r.rhs|
  {
    if i == |r.rhs| - 1 && TrailingMinPrec(r).Some? && r.rhs[i] == NonTerminal(r.lhs) then TrailingMinPrec(r).value else 0
  }

  function FloorAfter(r: Rule, floor: int): int {
    if r.prec.Some? && r.prec.value.assoc.NonAssoc? && LevelOf(r).Some? && floor < LevelOf(r).value + 1 then LevelOf(r).value + 1 else floor
  }

  // ----- what matching works with -----

  datatype Peg = Peg(g: Grammar, a: Analysis, nullable: set<nat>, rank: map<nat, nat>, maxMunch: bool, lex: Lexer, size: nat)

  ghost predicate RulesFor(g: Grammar, n: nat, list: seq<nat>, direct: bool) {
    forall r | r in list :: 1 <= r < |g| && g[r].lhs == n && Direct(g, r) == direct
  }

  ghost predicate Usable(g: Grammar, a: Analysis) {
    && a.direct.Keys == a.alts.Keys && a.base.Keys == a.alts.Keys
    && (forall n | n in a.alts :: RulesFor(g, n, a.direct[n], true) && RulesFor(g, n, a.base[n], false))
    && (forall n | n in a.alts && a.direct[n] == [] :: RulesFor(g, n, a.alts[n], false))
    && (forall n | n in a.anon :: 1 <= a.anon[n] < |g| && g[a.anon[n]].lhs == n && MidRule(g, a.anon[n]))
  }

  // Predicates are not nested.
  ghost predicate Flat(g: Grammar) {
    forall r, i | 0 <= r < |g| && 0 <= i < |g[r].rhs| :: !Inner(g[r].rhs[i]).Predicate?
  }

  ghost predicate SymKnown(a: Analysis, s: Sym) {
    Inner(s).NonTerminal? ==> Inner(s).n in a.alts
  }

  // Every nonterminal has a rule.
  ghost predicate Known(g: Grammar, a: Analysis) {
    forall r, i | 0 <= r < |g| && 0 <= i < |g[r].rhs| :: SymKnown(a, g[r].rhs[i])
  }

  ghost predicate Ready(c: Peg) {
    && Usable(c.g, c.a) && Flat(c.g) && Known(c.g, c.a) && Closed(c.g, c.nullable) && Ranked(c.g, c.nullable, c.rank)
    && Consumes(c.lex, c.size)
  }

  // The terminal and the mid-rule rank lowest.
  function RankOf(c: Peg, n: nat): nat {
    1 + if n in c.rank then c.rank[n] else 0
  }

  function SymRank(c: Peg, s: Sym): nat {
    if Inner(s).NonTerminal? then RankOf(c, Inner(s).n) else 0
  }

  lemma RuleIn(c: Peg, n: nat, list: seq<nat>, direct: bool, j: nat)
    requires RulesFor(c.g, n, list, direct) && j < |list|
    ensures 1 <= list[j] < |c.g| && c.g[list[j]].lhs == n && Direct(c.g, list[j]) == direct
  {
    assert list[j] in list;
  }

  // At a left corner, the rank goes down.
  lemma CornerRank(c: Peg, r: nat, i: nat)
    requires Ready(c) && 1 <= r < |c.g| && i < |c.g[r].rhs| && (i == 0 ==> !Direct(c.g, r))
    ensures AllNullable(c.nullable, c.g[r].rhs[..i]) ==> SymRank(c, c.g[r].rhs[i]) < RankOf(c, c.g[r].lhs)
  {
    hide Usable, Flat, Known, Closed, Consumes, AllNullable;
    var s := Inner(c.g[r].rhs[i]);
    if AllNullable(c.nullable, c.g[r].rhs[..i]) && s.NonTerminal? { assert Corner(c.g, c.nullable, r, i, s.n); }
  }

  lemma NullableSoFar(c: Peg, r: nat, i: nat)
    requires r < |c.g| && i < |c.g[r].rhs|
    ensures AllNullable(c.nullable, c.g[r].rhs[..i + 1]) <==> AllNullable(c.nullable, c.g[r].rhs[..i]) && Nullable(c.nullable, c.g[r].rhs[i])
  {
    var rhs := c.g[r].rhs;
    assert rhs[..i + 1] == rhs[..i] + [rhs[i]];
  }

  lemma ClosedRule(c: Peg, r: nat)
    requires Ready(c) && r < |c.g|
    ensures AllNullable(c.nullable, c.g[r].rhs[..|c.g[r].rhs|]) ==> c.g[r].lhs in c.nullable
  {
    assert c.g[r].rhs[..|c.g[r].rhs|] == c.g[r].rhs;
  }

  lemma SymFacts(c: Peg, r: nat, i: nat)
    requires Ready(c) && r < |c.g| && i < |c.g[r].rhs|
    ensures SymKnown(c.a, c.g[r].rhs[i]) && !Inner(c.g[r].rhs[i]).Predicate?
  {
    hide Usable, Closed, Ranked, Consumes;
  }

  lemma NameFacts(c: Peg, n: nat)
    requires Ready(c) && n in c.a.alts
    ensures n in c.a.direct && n in c.a.base
    ensures RulesFor(c.g, n, c.a.direct[n], true) && RulesFor(c.g, n, c.a.base[n], false)
    ensures c.a.direct[n] == [] ==> RulesFor(c.g, n, c.a.alts[n], false)
  {
    hide Flat, Known, Closed, Ranked, Consumes, RulesFor;
    assert n in c.a.direct.Keys && n in c.a.base.Keys;
  }

  lemma MidFacts(c: Peg, n: nat)
    requires Ready(c) && n in c.a.anon
    ensures c.a.anon[n] < |c.g| && c.g[c.a.anon[n]].rhs == [] && c.g[c.a.anon[n]].peek.Some? && n in c.nullable
  {
    hide Flat, Known, Ranked, Consumes, RulesFor;
    assert AllNullable(c.nullable, c.g[c.a.anon[n]].rhs);
  }

  // ----- matching -----

  ghost predicate Advances(c: Peg, pos: Pos, m: Option<Match>, must: bool) {
    m.Some? ==> pos.offset <= m.value.pos.offset <= c.size && (must ==> pos.offset < m.value.pos.offset)
  }

  ghost function MatchTerminal(c: Peg, t: nat, pos: Pos): (m: Option<Match>)
    requires Ready(c) && pos.offset <= c.size
    ensures Advances(c, pos, m, true)
  {
    hide Usable, Flat, Known, Closed, Ranked;
    var l := c.lex(if c.maxMunch then None else Some(t), pos);
    if l.kind == Some(t) then Some(Match(Leaf(t, l.at), l.after, l.at)) else None
  }

  ghost function MatchSym(c: Peg, s: Sym, pos: Pos, values: seq<Tree>, minPrec: int): (m: Option<Match>)
    requires Ready(c) && pos.offset <= c.size && SymKnown(c.a, s) && !Inner(s).Predicate?
    ensures Advances(c, pos, m, !Nullable(c.nullable, s))
    decreases c.size - pos.offset, SymRank(c, s), if s.Predicate? then 6 else 5, 0, 0
  {
    hide Ready;
    match s
    case Token(t) => MatchTerminal(c, t, pos)
    case Predicate(negate, inner) =>
      var m := MatchSym(c, inner, pos, values, 0);
      if !negate then
        if m.Some? then Some(Match(m.value.value, pos, m.value.start)) else None
      else if m.None? then Some(Match(Absent, pos, pos.offset)) else None
    case NonTerminal(n) =>
      if n in c.a.anon then
        MidFacts(c, n);
        var r := c.a.anon[n];
        Some(Match(Mid(r, pos.offset, LastOf(values, c.g[r].peek.value)), pos, pos.offset))
      else MatchNonTerminal(c, n, pos, minPrec)
  }

  // The rest of rule `r` from position `i`, for an alternative tried at offset `entry`.
  ghost function MatchRest(c: Peg, r: nat, i: nat, cur: Pos, values: seq<Tree>, start: Option<nat>, entry: nat): (m: Option<Match>)
    requires Ready(c) && 1 <= r < |c.g| && i <= |c.g[r].rhs| && entry <= cur.offset <= c.size
    requires entry < cur.offset || AllNullable(c.nullable, c.g[r].rhs[..i])
    requires i == 0 ==> !Direct(c.g, r)
    ensures Advances(c, cur, m, false)
    ensures m.Some? && m.value.pos.offset == entry ==> c.g[r].lhs in c.nullable
    decreases c.size - entry, RankOf(c, c.g[r].lhs), 1, |c.g[r].rhs| - i, 0
  {
    hide Ready, AllNullable, Nullable;
    var rhs := c.g[r].rhs;
    if i == |rhs| then
      ClosedRule(c, r);
      var s := if start.Some? then start.value else entry;
      Some(Match(Node(r, s, values), cur, s))
    else
      SymFacts(c, r, i);
      CornerRank(c, r, i);
      NullableSoFar(c, r, i);
      var m := MatchSym(c, rhs[i], cur, values, OperandMin(c.g[r], i));
      if m.None? then None
      else
        var next := if start.None? && cur.offset < m.value.pos.offset then Some(m.value.start) else start;
        MatchRest(c, r, i + 1, m.value.pos, values + [m.value.value], next, entry)
  }

  ghost function MatchNonTerminal(c: Peg, n: nat, pos: Pos, minPrec: int): (m: Option<Match>)
    requires Ready(c) && n in c.a.alts && pos.offset <= c.size
    ensures Advances(c, pos, m, n !in c.nullable)
    decreases c.size - pos.offset, RankOf(c, n), 4, 0, 0
  {
    hide Ready;
    NameFacts(c, n);
    if c.a.direct[n] == [] then FirstOf(c, n, c.a.alts[n], 0, pos, minPrec)
    else
      var seed := FirstOf(c, n, c.a.base[n], 0, pos, minPrec);
      if seed.None? then None else Some(Grow(c, n, 0, seed.value, minPrec, pos.offset))
  }

  // Ordered choice: the first alternative that matches.
  ghost function FirstOf(c: Peg, n: nat, list: seq<nat>, j: nat, pos: Pos, minPrec: int): (m: Option<Match>)
    requires Ready(c) && pos.offset <= c.size && j <= |list| && RulesFor(c.g, n, list, false)
    ensures Advances(c, pos, m, n !in c.nullable)
    decreases c.size - pos.offset, RankOf(c, n), 2, |list| - j, 0
  {
    hide Ready, RulesFor;
    if j == |list| then None
    else
      RuleIn(c, n, list, false, j);
      var r := list[j];
      var m := if BelowLevel(c.g[r], minPrec) then None else MatchRest(c, r, 0, pos, [], None, pos.offset);
      if m.Some? then m else FirstOf(c, n, list, j + 1, pos, minPrec)
  }

  // Seed growing: the first recursive alternative that extends the match, again and again.
  ghost function Grow(c: Peg, n: nat, j: nat, seed: Match, floor: int, entry: nat): (m: Match)
    requires Ready(c) && n in c.a.alts && n in c.a.direct && j <= |c.a.direct[n]|
    requires entry <= seed.pos.offset <= c.size && (entry < seed.pos.offset || n in c.nullable)
    ensures seed.pos.offset <= m.pos.offset <= c.size
    decreases c.size - entry, RankOf(c, n), 2, c.size - seed.pos.offset, |c.a.direct[n]| - j
  {
    hide Ready, RulesFor;
    var lr := c.a.direct[n];
    if j == |lr| then seed
    else
      NameFacts(c, n);
      RuleIn(c, n, lr, true, j);
      var r := lr[j];
      if BelowLevel(c.g[r], floor) then Grow(c, n, j + 1, seed, floor, entry)
      else
        SeedBound(c, n, r);
        var m := MatchRest(c, r, 1, seed.pos, [seed.value], Some(seed.start), entry);
        if m.Some? && seed.pos.offset < m.value.pos.offset then Grow(c, n, 0, m.value, FloorAfter(c.g[r], floor), entry)
        else Grow(c, n, j + 1, seed, floor, entry)
  }

  lemma SeedBound(c: Peg, n: nat, r: nat)
    requires r < |c.g| && c.g[r].lhs == n && Direct(c.g, r)
    ensures n in c.nullable ==> AllNullable(c.nullable, c.g[r].rhs[..1])
  {
    assert c.g[r].rhs[..1][0] == NonTerminal(n);
  }
}
