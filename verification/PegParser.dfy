/** The packrat parser: matching with a token cache, a memo table and the set of matches under way
    (src/peg.ts:256-301, 318-505). */
module PegParser {
  import opened Options
  import opened PegAnalysis
  import opened PegMatcher

  datatype Key = Key(n: nat, minPrec: int, pos: Pos)

  // ----- what a run returns -----

  // Only skipped text is left.
  type AtEnd = Pos -> bool

  function StartOf(g: Grammar): nat {
    if g != [] && g[0].rhs != [] && g[0].rhs[0].NonTerminal? then g[0].rhs[0].n else 0
  }

  ghost function Parsed(c: Peg, end: AtEnd, prefix: bool): Option<Match>
    requires Ready(c) && StartOf(c.g) in c.a.alts
  {
    var m := MatchNonTerminal(c, StartOf(c.g), Pos(0, None), 0);
    if m.Some? && !prefix && !end(m.value.pos) then None else m
  }

  // ----- the run -----

  class Run {
    const g: Grammar
    const a: Analysis
    const maxMunch: bool
    const useMemo: bool
    const lex: Lexer
    ghost const c: Peg
    var tokens: map<(Option<nat>, Pos), Lexed>
    var memo: map<Key, Option<Match>>
    var active: set<Key>

    constructor (ghost c: Peg, g: Grammar, a: Analysis, maxMunch: bool, useMemo: bool, lex: Lexer)
      requires Ready(c) && c.g == g && c.a == a && c.maxMunch == maxMunch && c.lex == lex
      ensures Valid() && this.c == c && this.g == g && this.a == a && active == {}
    {
      this.c, this.g, this.a, this.maxMunch, this.useMemo, this.lex := c, g, a, maxMunch, useMemo, lex;
      tokens, memo, active := map[], map[], {};
    }

    ghost predicate Bound() {
      Ready(c) && c.g == g && c.a == a && c.maxMunch == maxMunch && c.lex == lex
    }

    // What is cached is what would be computed.
    ghost predicate Valid()
      reads this
    {
      && Bound()
      && (forall k | k in tokens :: tokens[k] == lex(k.0, k.1))
      && (forall k | k in memo :: Recorded(k))
    }

    ghost predicate Recorded(k: Key)
      requires Bound()
      requires k in memo
      reads this`memo
    {
      k.n in c.a.alts && k.pos.offset <= c.size && memo[k] == MatchNonTerminal(c, k.n, k.pos, k.minPrec)
    }

    // The matches under way are at earlier offsets, or higher in rank.
    ghost predicate Above(offset: nat, rank: int)
      reads this`active
    {
      forall k | k in active :: k.pos.offset < offset || (k.pos.offset == offset && RankOf(c, k.n) >= rank)
    }

    method Lex(want: Option<nat>, pos: Pos) returns (l: Lexed)
      requires Valid()
      modifies this`tokens
      ensures Valid() && l == lex(want, pos)
    {
      hide Bound, Recorded;
      if (want, pos) in tokens { return tokens[(want, pos)]; }
      l := lex(want, pos);
      tokens := tokens[(want, pos) := l];
    }

    method Terminal(t: nat, pos: Pos) returns (m: Option<Match>)
      requires Valid() && pos.offset <= c.size
      modifies this`tokens
      ensures Valid() && m == MatchTerminal(c, t, pos)
    {
      hide Recorded, Ready;
      var l := Lex(if maxMunch then None else Some(t), pos);
      m := if l.kind == Some(t) then Some(Match(Leaf(t, l.at), l.after, l.at)) else None;
    }

    method Symbol(s: Sym, pos: Pos, values: seq<Tree>, minPrec: int) returns (m: Option<Match>)
      requires Valid() && pos.offset <= c.size && SymKnown(a, s) && !Inner(s).Predicate?
      requires Above(pos.offset, SymRank(c, s) + 1)
      modifies this`tokens, this`memo, this`active
      ensures Valid() && active == old(active) && m == MatchSym(c, s, pos, values, minPrec)
      decreases c.size - pos.offset, SymRank(c, s), if s.Predicate? then 6 else 5, 0, 0
    {
      hide Ready, Recorded;
      match s {
        case Token(t) => m := Terminal(t, pos);
        case Predicate(negate, inner) =>
          m := Symbol(inner, pos, values, 0);
          if !negate {
            m := if m.Some? then Some(Match(m.value.value, pos, m.value.start)) else None;
          } else {
            m := if m.None? then Some(Match(Absent, pos, pos.offset)) else None;
          }
        case NonTerminal(n) =>
          if n in a.anon {
            MidFacts(c, n);
            var r := a.anon[n];
            m := Some(Match(Mid(r, pos.offset, LastOf(values, g[r].peek.value)), pos, pos.offset));
          } else {
            m := Name(n, pos, minPrec);
          }
      }
    }

    // Rule `r` from position `from`, at offset `entry`.
    method Alternative(r: nat, pos: Pos, values0: seq<Tree>, from: nat, start0: Option<nat>, ghost entry: nat) returns (m: Option<Match>)
      requires Valid() && 1 <= r < |g| && from <= |g[r].rhs| && entry <= pos.offset <= c.size
      requires entry < pos.offset || AllNullable(c.nullable, g[r].rhs[..from])
      requires from == 0 ==> !Direct(g, r)
      requires start0.Some? || pos.offset == entry
      requires Above(entry, RankOf(c, g[r].lhs))
      modifies this`tokens, this`memo, this`active
      ensures Valid() && active == old(active) && m == MatchRest(c, r, from, pos, values0, start0, entry)
      decreases c.size - entry, RankOf(c, g[r].lhs), 1, 0, 0
    {
      hide Ready, Recorded, AllNullable, Nullable;
      var rhs := g[r].rhs;
      var cur, values := pos, values0;
      var start: Option<nat> := start0;
      ghost var all := MatchRest(c, r, from, pos, values0, start0, entry);
      for i := from to |rhs|
        invariant Valid() && active == old(active)
        invariant entry <= cur.offset <= c.size && (entry < cur.offset || AllNullable(c.nullable, rhs[..i]))
        invariant (i == 0 ==> !Direct(g, r)) && (start.None? ==> pos.offset == entry)
        invariant all == MatchRest(c, r, i, cur, values, start, entry)
      {
        SymFacts(c, r, i);
        CornerRank(c, r, i);
        NullableSoFar(c, r, i);
        var next := Symbol(rhs[i], cur, values, OperandMin(g[r], i));
        if next.None? { return None; }
        if start.None? && cur.offset < next.value.pos.offset { start := Some(next.value.start); }
        values := values + [next.value.value];
        cur := next.value.pos;
      }
      var s := if start.Some? then start.value else pos.offset;
      m := Some(Match(Node(r, s, values), cur, s));
    }

    method Name(n: nat, pos: Pos, minPrec: int) returns (m: Option<Match>)
      requires Valid() && n in a.alts && pos.offset <= c.size
      requires Above(pos.offset, RankOf(c, n) + 1)
      modifies this`tokens, this`memo, this`active
      ensures Valid() && active == old(active) && m == MatchNonTerminal(c, n, pos, minPrec)
      decreases c.size - pos.offset, RankOf(c, n), 4, 0, 0
    {
      hide Ready;
      var key := Key(n, minPrec, pos);
      if useMemo && key in memo {
        assert Recorded(key);
        return memo[key];
      }
      if key in active {
        // Here the program throws: left recursion that the analysis did not reject.
        assert false;
      }
      active := active + {key};
      m := Alternatives(n, pos, minPrec);
      if useMemo { memo := memo[key := m]; }
      active := active - {key};
    }

    method Alternatives(n: nat, pos: Pos, minPrec: int) returns (m: Option<Match>)
      requires Valid() && n in a.alts && pos.offset <= c.size
      requires Above(pos.offset, RankOf(c, n))
      modifies this`tokens, this`memo, this`active
      ensures Valid() && active == old(active) && m == MatchNonTerminal(c, n, pos, minPrec)
      decreases c.size - pos.offset, RankOf(c, n), 3, 0, 0
    {
      hide Ready, Recorded, RulesFor;
      NameFacts(c, n);
      if a.direct[n] == [] {
        m := Choice(n, a.alts[n], pos, minPrec);
      } else {
        m := Choice(n, a.base[n], pos, minPrec);
        if m.Some? {
          var seed := Growing(n, m.value, minPrec, pos.offset);
          m := Some(seed);
        }
      }
    }

    method Choice(n: nat, list: seq<nat>, pos: Pos, minPrec: int) returns (m: Option<Match>)
      requires Valid() && pos.offset <= c.size && RulesFor(g, n, list, false)
      requires Above(pos.offset, RankOf(c, n))
      modifies this`tokens, this`memo, this`active
      ensures Valid() && active == old(active) && m == FirstOf(c, n, list, 0, pos, minPrec)
      decreases c.size - pos.offset, RankOf(c, n), 2, 0, 0
    {
      hide Ready, Recorded, RulesFor;
      for j := 0 to |list|
        invariant Valid() && active == old(active)
        invariant FirstOf(c, n, list, 0, pos, minPrec) == FirstOf(c, n, list, j, pos, minPrec)
      {
        RuleIn(c, n, list, false, j);
        var r := list[j];
        if BelowLevel(g[r], minPrec) { continue; }
        m := Alternative(r, pos, [], 0, None, pos.offset);
        if m.Some? { return; }
      }
      m := None;
    }

    method Growing(n: nat, seed0: Match, minPrec: int, ghost entry: nat) returns (seed: Match)
      requires Valid() && n in a.alts && n in a.direct
      requires entry <= seed0.pos.offset <= c.size && (entry < seed0.pos.offset || n in c.nullable)
      requires Above(entry, RankOf(c, n))
      modifies this`tokens, this`memo, this`active
      ensures Valid() && active == old(active) && seed == Grow(c, n, 0, seed0, minPrec, entry)
      decreases c.size - entry, RankOf(c, n), 2, 0, 0
    {
      hide Ready, Recorded, RulesFor;
      var lr := a.direct[n];
      seed := seed0;
      var floor, growing := minPrec, true;
      NameFacts(c, n);
      while growing
        invariant Valid() && active == old(active)
        invariant entry <= seed.pos.offset <= c.size && (entry < seed.pos.offset || n in c.nullable)
        invariant Grow(c, n, 0, seed0, minPrec, entry) == if growing then Grow(c, n, 0, seed, floor, entry) else seed
        decreases c.size - seed.pos.offset, if growing then 1 else 0
      {
        growing := false;
        ghost var here := seed;
        for j := 0 to |lr|
          invariant Valid() && active == old(active) && !growing && seed == here
          invariant Grow(c, n, 0, seed0, minPrec, entry) == Grow(c, n, j, seed, floor, entry)
        {
          RuleIn(c, n, lr, true, j);
          var r := lr[j];
          if BelowLevel(g[r], floor) { continue; }
          SeedBound(c, n, r);
          var m := Alternative(r, seed.pos, [seed.value], 1, Some(seed.start), entry);
          if m.Some? && seed.pos.offset < m.value.pos.offset {
            seed, growing, floor := m.value, true, FloorAfter(g[r], floor);
            break;
          }
        }
      }
    }
  }

  // ----- building and parsing -----

  lemma UsableFrom(g: Grammar, a: Analysis)
    requires Sorted(g, a)
    ensures Usable(g, a)
  {
    hide RulesOf, Epsilons, Directs, Epsilon, Direct, EndsFull;
    forall n | n in a.alts ensures RulesFor(g, n, a.direct[n], true) && RulesFor(g, n, a.base[n], false) {
      TriedRules(g, n);
    }
    forall n | n in a.alts && a.direct[n] == [] ensures RulesFor(g, n, a.alts[n], false) {
      TriedRules(g, n);
      forall r | r in a.alts[n] ensures !Direct(g, r) { NoneDirect(g, a.alts[n], r); }
    }
  }

  lemma TriedRules(g: Grammar, n: nat)
    ensures forall r | r in Tried(g, RulesOf(g, n, |g|)) :: 1 <= r < |g| && g[r].lhs == n
  {
    hide RulesOf, Epsilon;
  }

  lemma NoneDirect(g: Grammar, list: seq<nat>, r: nat)
    requires Directs(g, list, true) == [] && r in list
    ensures !Direct(g, r)
  {
    assert r !in Directs(g, list, true);
  }

  /** What a caller has to see to: predicates are not nested, every nonterminal has a rule, and tokens are
      not empty. The analysis does the rest. */
  lemma ReadyFrom(c: Peg)
    requires Sorted(c.g, c.a) && Closed(c.g, c.nullable) && Ranked(c.g, c.nullable, c.rank)
    requires Flat(c.g) && Known(c.g, c.a) && Consumes(c.lex, c.size)
    ensures Ready(c)
  {
    hide Sorted, Closed, Ranked, Flat, Known, Consumes;
    UsableFrom(c.g, c.a);
  }

  /** Parsing ends, never reports re-entry, and returns what matching without a memo table computes. */
  method Parse(ghost c: Peg, g: Grammar, a: Analysis, maxMunch: bool, useMemo: bool, lex: Lexer, end: AtEnd, prefix: bool)
    returns (m: Option<Match>)
    requires Ready(c) && c.g == g && c.a == a && c.maxMunch == maxMunch && c.lex == lex && StartOf(g) in a.alts
    ensures m == Parsed(c, end, prefix)
  {
    hide Ready;
    var run := new Run(c, g, a, maxMunch, useMemo, lex);
    m := run.Name(StartOf(g), Pos(0, None), 0);
    if m.Some? && !prefix && !end(m.value.pos) { m := None; }
  }

  datatype Made = Made(a: Analysis) | Refused(problems: seq<Problem>)

  /** A parser is refused exactly when the grammar has left recursion a seed cannot be grown for. */
  method MakePegParser(g: Grammar) returns (made: Made, ghost nullable: set<nat>, ghost rank: map<nat, nat>)
    requires Augmented(g)
    ensures Closed(g, nullable) && forall n :: n in nullable <==> DerivesEmpty(g, n)
    ensures made.Made? <==> OnlyDirect(g, nullable)
    ensures made.Made? ==> Sorted(g, made.a) && Ranked(g, nullable, rank)
  {
    hide Augmented, Closed, DerivesEmpty, OnlyDirect, Sorted, Ranked;
    var a;
    a, nullable, rank := Analyse(g);
    made := if a.problems == [] then Made(a) else Refused(a.problems);
  }

  // Every nonterminal used has a rule, and the start symbol is one.
  ghost predicate Defined(g: Grammar) {
    && g != [] && g[0].rhs != [] && g[0].rhs[0].NonTerminal?
    && (forall r, i | 0 <= r < |g| && 0 <= i < |g[r].rhs| && Inner(g[r].rhs[i]).NonTerminal? ::
          exists q :: 1 <= q < |g| && g[q].lhs == Inner(g[r].rhs[i]).n)
  }

  /** From grammar to result: refused exactly for unsupported left recursion; otherwise parsing ends with a
      result that depends neither on the memo table nor on the cached tokens. */
  method MakeAndParse(g: Grammar, maxMunch: bool, useMemo: bool, lex: Lexer, end: AtEnd, prefix: bool, ghost size: nat)
    returns (made: Made, m: Option<Match>, ghost c: Peg)
    requires Augmented(g) && Defined(g) && Flat(g) && Consumes(lex, size)
    ensures made.Made? <==> OnlyDirect(g, c.nullable)
    ensures c.g == g && c.maxMunch == maxMunch && c.lex == lex && c.size == size
    ensures Closed(g, c.nullable) && forall n :: n in c.nullable <==> DerivesEmpty(g, n)
    ensures made.Made? ==> Ready(c) && c.a == made.a && StartOf(g) in c.a.alts && m == Parsed(c, end, prefix)
    ensures made.Refused? ==> m == None
  {
    hide Augmented, Closed, DerivesEmpty, OnlyDirect, Sorted, Ranked, Flat, Consumes, Known, Ready, Defined;
    ghost var nullable, rank;
    made, nullable, rank := MakePegParser(g);
    m := None;
    c := Peg(g, if made.Made? then made.a else Analysis(map[], map[], map[], map[], []), nullable, rank, maxMunch, lex, size);
    if made.Made? {
      AllKnown(g, made.a);
      ReadyFrom(c);
      m := Parse(c, g, made.a, maxMunch, useMemo, lex, end, prefix);
    }
  }

  lemma AllKnown(g: Grammar, a: Analysis)
    requires Sorted(g, a) && Defined(g)
    ensures Known(g, a) && StartOf(g) in a.alts
  {
    hide SortedParts, SortedAnon, Tried;
    forall r, i | 0 <= r < |g| && 0 <= i < |g[r].rhs| ensures SymKnown(a, g[r].rhs[i]) {
      if Inner(g[r].rhs[i]).NonTerminal? {
        var q: nat :| 1 <= q < |g| && g[q].lhs == Inner(g[r].rhs[i]).n;
        assert q in RulesOf(g, g[q].lhs, |g|);
      }
    }
    assert SymKnown(a, g[0].rhs[0]);
  }

  // ----- where the analysis does not look -----

  // What a predicate is about, however deep.
  function Innermost(s: Sym): Sym {
    if s.Predicate? then Innermost(s.sym) else s
  }

  /** Matching `n` asks for `m` at the same place before anything else: the first alternative it tries, whether
      or not it then grows a seed, begins with `m`, however many predicates that stands in. */
  ghost predicate Asks(g: Grammar, a: Analysis, n: nat, m: nat) {
    && n in a.alts && n in a.direct && n in a.base
    && var list := if a.direct[n] == [] then a.alts[n] else a.base[n];
       list != [] && list[0] < |g| && g[list[0]].rhs != [] && Innermost(g[list[0]].rhs[0]) == NonTerminal(m)
  }

  /** A predicate inside a predicate escapes the analysis: `A -> !&A` passes, and matching `A` asks for `A`
      again at the same place, so the match under way is met again. */
  lemma NestedEscapes() returns (g: Grammar)
    ensures Augmented(g) && Defined(g) && !Flat(g)
    ensures OnlyDirect(g, {0, 1}) && Closed(g, {0, 1}) && forall n :: n in {0, 1} <==> DerivesEmpty(g, n)
    ensures forall a | Sorted(g, a) :: Asks(g, a, 1, 1)
  {
    g := NestedGrammar();
    forall a | Sorted(g, a) ensures Asks(g, a, 1, 1) { NestedAsks(g, a); }
  }

  lemma NestedAsks(g: Grammar, a: Analysis)
    requires Sorted(g, a) && |g| == 2 && g[0].lhs == 0 && g[1].lhs == 1 && |g[1].rhs| == 1 && g[1].rhs[0].Predicate?
    requires Innermost(g[1].rhs[0]) == NonTerminal(1)
    ensures Asks(g, a, 1, 1)
  {
    hide Sorted, Innermost;
    forall r: nat ensures (1 in a.alts && r in a.alts[1] <==> r == 1) && (1 in a.alts ==> 1 in a.direct && 1 in a.base && (r in a.direct[1] <==> r in a.alts[1] && Direct(g, r))) {
      InAlternatives(g, a, 1, r);
    }
    InAlternatives(g, a, 1, 1);
    assert 1 in a.alts && 1 in a.alts[1];
    assert !Direct(g, 1);
    var list := a.alts[1];
    assert list[0] in list;
    HasFirst(a.direct[1]);
  }

  lemma HasFirst(s: seq<nat>)
    ensures s == [] || exists x: nat :: x in s
  {
    if s != [] { assert s[0] in s; }
  }

  lemma NestedGrammar() returns (g: Grammar)
    ensures Augmented(g) && Defined(g) && !Flat(g)
    ensures OnlyDirect(g, {0, 1}) && Closed(g, {0, 1}) && forall n :: n in {0, 1} <==> DerivesEmpty(g, n)
    ensures |g| == 2 && g[0].lhs == 0 && g[1].lhs == 1 && |g[1].rhs| == 1 && g[1].rhs[0].Predicate? && Innermost(g[1].rhs[0]) == NonTerminal(1)
  {
    var rhs := [Predicate(true, Predicate(false, NonTerminal(1)))];
    g := [Rule(0, [NonTerminal(1)], None, None), Rule(1, rhs, None, None)];
    assert g[0].lhs == 0 && g[1].lhs == 1 && g[1].rhs[0] == rhs[0] && Inner(g[1].rhs[0]).Predicate?;
    assert RuleEmptyIn(g, 1, 1) && EmptyIn(g, NonTerminal(1), 1);
    assert RuleEmptyIn(g, 0, 2) && EmptyIn(g, NonTerminal(0), 2);
    forall u, v | u != v ensures !(CornersTo(g, {0, 1}, u, v) && CornersTo(g, {0, 1}, v, u)) {
      LeavesByEdge(g, {0, 1}, u, v);
      LeavesByEdge(g, {0, 1}, v, u);
    }
  }

  lemma LeavesByEdge(g: Grammar, nullable: set<nat>, u: nat, v: nat)
    requires u != v
    ensures CornersTo(g, nullable, u, v) ==> exists w :: CornerEdge(g, nullable, u, w)
  {
    if CornersTo(g, nullable, u, v) {
      var p: seq<nat> :| p != [] && p[0] == u && p[|p| - 1] == v && CornerPath(g, nullable, p);
      assert CornerEdge(g, nullable, p[0], p[1]);
    }
  }
}
