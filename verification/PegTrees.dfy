/** Every match is a derivation of what it consumed (src/peg.ts:356-495). */
module PegTrees {
  import opened Options
  import opened PegAnalysis
  import opened PegMatcher

  ghost predicate Fails(c: Peg, s: Sym, p: Pos) {
    Ready(c) && p.offset <= c.size && SymKnown(c.a, s) && !Inner(s).Predicate? && MatchSym(c, s, p, [], 0).None?
  }

  /** `t` is a derivation tree of `s` over the tokens from `p` to `q`. A predicate consumes nothing; a mid-rule
      action sees the values before it, which the tree of the containing rule checks. */
  ghost predicate Parses(c: Peg, s: Sym, t: Tree, p: Pos, q: Pos)
    decreases t, 2, 0, s
  {
    match s
    case Token(k) =>
      var l := c.lex(if c.maxMunch then None else Some(k), p);
      l.kind == Some(k) && t == Leaf(k, l.at) && q == l.after
    case Predicate(negate, inner) =>
      q == p && if negate then t == Absent && Fails(c, inner, p) else exists after :: Parses(c, inner, t, p, after)
    case NonTerminal(n) =>
      match t
      case Node(r, _, kids) => 1 <= r < |c.g| && c.g[r].lhs == n && |kids| == |c.g[r].rhs| && ParsesRest(c, r, 0, t, p, q)
      case Mid(r, _, _) => 1 <= r < |c.g| && c.g[r].lhs == n && MidRule(c.g, r) && q == p
      case _ => false
  }

  // The children from the `i`th on, and what a mid-rule action among them was shown.
  ghost predicate ParsesRest(c: Peg, r: nat, i: nat, t: Tree, p: Pos, q: Pos)
    requires r < |c.g| && t.Node? && |t.kids| == |c.g[r].rhs|
    decreases t, 1, |c.g[r].rhs| - i
  {
    if i >= |t.kids| then q == p
    else Shown(c, t.kids, i) && exists mid :: Parses(c, c.g[r].rhs[i], t.kids[i], p, mid) && ParsesRest(c, r, i + 1, t, mid, q)
  }

  ghost predicate Shown(c: Peg, kids: seq<Tree>, i: nat)
    requires i < |kids|
  {
    kids[i].Mid? && kids[i].rule < |c.g| && c.g[kids[i].rule].peek.Some? ==> kids[i].peeked == LastOf(kids[..i], c.g[kids[i].rule].peek.value)
  }

  // Whether a symbol matches does not depend on the values before it.
  lemma FailsAnyway(c: Peg, s: Sym, p: Pos, values: seq<Tree>)
    requires Ready(c) && p.offset <= c.size && SymKnown(c.a, s) && !s.Predicate?
    ensures MatchSym(c, s, p, values, 0).None? <==> Fails(c, s, p)
  {
    hide Ready;
  }

  lemma {:induction false} SymParses(c: Peg, s: Sym, p: Pos, values: seq<Tree>, minPrec: int)
    requires Ready(c) && p.offset <= c.size && SymKnown(c.a, s) && !Inner(s).Predicate?
    requires MatchSym(c, s, p, values, minPrec).Some?
    ensures var m := MatchSym(c, s, p, values, minPrec).value; Parses(c, s, m.value, p, m.pos)
    ensures var t := MatchSym(c, s, p, values, minPrec).value.value;
      t.Mid? ==> t.rule < |c.g| && c.g[t.rule].peek.Some? && t.peeked == LastOf(values, c.g[t.rule].peek.value)
    decreases c.size - p.offset, SymRank(c, s), if s.Predicate? then 6 else 5, 0, 0
  {
    hide Ready;
    match s
    case Token(t) =>
    case Predicate(negate, inner) =>
      if negate {
        FailsAnyway(c, inner, p, values);
      } else {
        SymParses(c, inner, p, values, 0);
      }
    case NonTerminal(n) =>
      if n in c.a.anon { MidUsable(c, n); } else { NameParses(c, n, p, minPrec); }
  }

  lemma MidUsable(c: Peg, n: nat)
    requires Ready(c) && n in c.a.anon
    ensures 1 <= c.a.anon[n] < |c.g| && c.g[c.a.anon[n]].lhs == n && MidRule(c.g, c.a.anon[n])
  {
    hide Flat, Known, Ranked, Consumes, RulesFor, Closed;
  }

  // The tree of a rule starts with the values it was given.
  lemma {:induction false} RestParses(c: Peg, r: nat, i: nat, cur: Pos, values: seq<Tree>, start: Option<nat>, entry: nat)
    requires Ready(c) && 1 <= r < |c.g| && i <= |c.g[r].rhs| && entry <= cur.offset <= c.size && |values| == i
    requires entry < cur.offset || AllNullable(c.nullable, c.g[r].rhs[..i])
    requires i == 0 ==> !Direct(c.g, r)
    requires MatchRest(c, r, i, cur, values, start, entry).Some?
    ensures var m := MatchRest(c, r, i, cur, values, start, entry).value;
      && m.value.Node? && m.value.rule == r && |m.value.kids| == |c.g[r].rhs| && m.value.kids[..i] == values
      && ParsesRest(c, r, i, m.value, cur, m.pos)
    decreases c.size - entry, RankOf(c, c.g[r].lhs), 1, |c.g[r].rhs| - i, 0
  {
    hide Ready, AllNullable, Nullable, Parses;
    var rhs := c.g[r].rhs;
    var all := MatchRest(c, r, i, cur, values, start, entry);
    if i < |rhs| {
      SymFacts(c, r, i);
      CornerRank(c, r, i);
      NullableSoFar(c, r, i);
      SymParses(c, rhs[i], cur, values, OperandMin(c.g[r], i));
      var m := MatchSym(c, rhs[i], cur, values, OperandMin(c.g[r], i));
      var next := if start.None? && cur.offset < m.value.pos.offset then Some(m.value.start) else start;
      var values' := values + [m.value.value];
      RestParses(c, r, i + 1, m.value.pos, values', next, entry);
      KidHere(all.value.value.kids, values, m.value.value);
      assert Shown(c, all.value.value.kids, i);
    }
  }

  lemma KidHere(kids: seq<Tree>, values: seq<Tree>, v: Tree)
    requires |values| < |kids| && kids[..|values| + 1] == values + [v]
    ensures kids[..|values|] == values && kids[|values|] == v
  {
    assert kids[..|values|] == kids[..|values| + 1][..|values|];
    assert kids[|values|] == kids[..|values| + 1][|values|];
  }

  lemma {:induction false} FirstParses(c: Peg, n: nat, list: seq<nat>, j: nat, p: Pos, minPrec: int)
    requires Ready(c) && p.offset <= c.size && j <= |list| && RulesFor(c.g, n, list, false)
    requires FirstOf(c, n, list, j, p, minPrec).Some?
    ensures var m := FirstOf(c, n, list, j, p, minPrec).value; Parses(c, NonTerminal(n), m.value, p, m.pos) && m.value.Node?
    decreases c.size - p.offset, RankOf(c, n), 2, |list| - j, 0
  {
    hide Ready, RulesFor, ParsesRest, AllNullable;
    if j < |list| {
      RuleIn(c, n, list, false, j);
      var r := list[j];
      NothingBefore(c, r);
      var m := if BelowLevel(c.g[r], minPrec) then None else MatchRest(c, r, 0, p, [], None, p.offset);
      if m.Some? { RestParses(c, r, 0, p, [], None, p.offset); } else { FirstParses(c, n, list, j + 1, p, minPrec); }
    }
  }

  lemma NothingBefore(c: Peg, r: nat)
    requires r < |c.g|
    ensures AllNullable(c.nullable, c.g[r].rhs[..0])
  {
  }

  // `t` is the seed, or a left-recursive rule's node whose first child was grown from it.
  ghost predicate GrownFrom(g: Grammar, n: nat, t: Tree, seed: Tree)
    decreases t
  {
    t == seed || (t.Node? && 1 <= t.rule < |g| && g[t.rule].lhs == n && Direct(g, t.rule) && t.kids != [] && GrownFrom(g, n, t.kids[0], seed))
  }

  lemma {:induction false} GrownThrough(g: Grammar, n: nat, t: Tree, mid: Tree, seed: Tree)
    requires GrownFrom(g, n, t, mid) && GrownFrom(g, n, mid, seed)
    ensures GrownFrom(g, n, t, seed)
    decreases t
  {
    if t != mid { GrownThrough(g, n, t.kids[0], mid, seed); }
  }

  lemma SeedItself(g: Grammar, n: nat, t: Tree)
    ensures GrownFrom(g, n, t, t)
  {
  }

  lemma FirstChild(g: Grammar, n: nat, t: Tree, seed: Tree)
    requires t.Node? && 1 <= t.rule < |g| && g[t.rule].lhs == n && Direct(g, t.rule) && |t.kids| > 0 && t.kids[..1] == [seed]
    ensures GrownFrom(g, n, t, seed)
  {
    assert t.kids[0] == t.kids[..1][0];
  }

  /** A grown seed is a derivation, and as long as it is not the seed itself, a left-recursive rule's whose first child
      is the seed before. */
  lemma {:induction false} GrowParses(c: Peg, n: nat, j: nat, seed: Match, floor: int, p: Pos)
    requires Ready(c) && n in c.a.alts && n in c.a.direct && j <= |c.a.direct[n]|
    requires p.offset <= seed.pos.offset <= c.size && (p.offset < seed.pos.offset || n in c.nullable)
    requires Parses(c, NonTerminal(n), seed.value, p, seed.pos) && seed.value.Node?
    ensures var m := Grow(c, n, j, seed, floor, p.offset); Parses(c, NonTerminal(n), m.value, p, m.pos) && m.value.Node?
    ensures GrownFrom(c.g, n, Grow(c, n, j, seed, floor, p.offset).value, seed.value)
    decreases c.size - p.offset, RankOf(c, n), 2, c.size - seed.pos.offset, |c.a.direct[n]| - j
  {
    hide Ready, RulesFor, Parses, AllNullable, GrownFrom;
    SeedItself(c.g, n, seed.value);
    var lr := c.a.direct[n];
    if j < |lr| {
      NameFacts(c, n);
      RuleIn(c, n, lr, true, j);
      var r := lr[j];
      if BelowLevel(c.g[r], floor) {
        GrowParses(c, n, j + 1, seed, floor, p);
      } else {
        SeedBound(c, n, r);
        var m := MatchRest(c, r, 1, seed.pos, [seed.value], Some(seed.start), p.offset);
        if m.Some? && seed.pos.offset < m.value.pos.offset {
          RestParses(c, r, 1, seed.pos, [seed.value], Some(seed.start), p.offset);
          SeedFirst(c, n, r, seed, m.value, p);
          FirstChild(c.g, n, m.value.value, seed.value);
          GrowParses(c, n, 0, m.value, FloorAfter(c.g[r], floor), p);
          GrownThrough(c.g, n, Grow(c, n, j, seed, floor, p.offset).value, m.value.value, seed.value);
        } else {
          GrowParses(c, n, j + 1, seed, floor, p);
        }
      }
    }
  }

  lemma SeedFirst(c: Peg, n: nat, r: nat, seed: Match, m: Match, p: Pos)
    requires 1 <= r < |c.g| && c.g[r].lhs == n && Direct(c.g, r) && seed.value.Node?
    requires Parses(c, NonTerminal(n), seed.value, p, seed.pos)
    requires m.value.Node? && m.value.rule == r && |m.value.kids| == |c.g[r].rhs| && m.value.kids[..1] == [seed.value]
    requires ParsesRest(c, r, 1, m.value, seed.pos, m.pos)
    ensures Parses(c, NonTerminal(n), m.value, p, m.pos)
  {
    assert m.value.kids[0] == m.value.kids[..1][0];
    assert c.g[r].rhs[0] == NonTerminal(n);
    assert Shown(c, m.value.kids, 0);
    assert ParsesRest(c, r, 0, m.value, p, m.pos);
  }

  /** A match of a nonterminal is a derivation from it of exactly the tokens consumed. */
  lemma {:induction false} NameParses(c: Peg, n: nat, p: Pos, minPrec: int)
    requires Ready(c) && n in c.a.alts && p.offset <= c.size && MatchNonTerminal(c, n, p, minPrec).Some?
    ensures var m := MatchNonTerminal(c, n, p, minPrec).value; Parses(c, NonTerminal(n), m.value, p, m.pos) && m.value.Node?
    decreases c.size - p.offset, RankOf(c, n), 4, 0, 0
  {
    hide Ready, Parses;
    NameFacts(c, n);
    if c.a.direct[n] == [] {
      FirstParses(c, n, c.a.alts[n], 0, p, minPrec);
    } else {
      FirstParses(c, n, c.a.base[n], 0, p, minPrec);
      var seed := FirstOf(c, n, c.a.base[n], 0, p, minPrec).value;
      GrowParses(c, n, 0, seed, minPrec, p);
    }
  }
}
