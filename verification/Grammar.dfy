/** Context-free grammars, their sentential forms, and the trees a parser builds.
    Follows the internal representation of src/core.ts: a rule's id is its index, terminals are
    known by their interned name, nonterminals by identity. */
module Grammars {
  import opened Options

  // `$end` and `$error` live outside the namespace of named terminals.
  datatype Terminal = End | Error | Named(name: string)

  // `$accept` is the left-hand side of the augmented rule only.
  datatype NonTerminal = Accept | Nt(id: nat)

  datatype Symbol = Term(t: Terminal) | NonTerm(n: NonTerminal)

  datatype Assoc = Left | Right | NonAssoc | Fork

  // A precedence handed over as an object that was never declared has no level.
  datatype Prec = Prec(assoc: Assoc, level: Option<int>)

  /** `identity`: the rule has no action of its own, so its value is its first child's.
      `peek`: how many values below the right-hand side the action also reads (mid-rule actions).
      `merge`: the rule carries its own combiner for converging derivations. */
  datatype Rule = Rule(lhs: NonTerminal, rhs: seq<Symbol>, prec: Option<Prec>,
                       identity: bool, peek: nat, merge: bool)

  type Grammar = seq<Rule>

  /** What the grammar builder guarantees: rule 0 is the augmented rule, `$accept` and the two
      special terminals occur nowhere else, and a mid-rule action nonterminal has a single empty
      rule and occurs only at the position it peeks from. */
  ghost predicate WellFormed(g: Grammar) {
    && |g| > 0
    && g[0].lhs == Accept
    && |g[0].rhs| == 2 && g[0].rhs[0].NonTerm? && g[0].rhs[0].n != Accept && g[0].rhs[1] == Term(End)
    && g[0].peek == 0
    && (forall r | 0 < r < |g| :: g[r].lhs != Accept)
    && (forall r, i | 0 < r < |g| && 0 <= i < |g[r].rhs| ::
          g[r].rhs[i] != Term(End) && g[r].rhs[i] != Term(Error) && g[r].rhs[i] != NonTerm(Accept))
    && (forall r | 0 < r < |g| && g[r].peek > 0 :: PeekPlaced(g, r))
  }

  ghost predicate PeekPlaced(g: Grammar, r: nat)
    requires r < |g|
  {
    && g[r].rhs == []
    && forall q, i | 0 <= q < |g| && 0 <= i < |g[q].rhs| && g[q].rhs[i] == NonTerm(g[r].lhs) :: i == g[r].peek
  }

  function StartSymbol(g: Grammar): Symbol
    requires |g| > 0 && |g[0].rhs| > 0
  {
    g[0].rhs[0]
  }

  // ----- sentential forms -----

  // One rule application: the nonterminal at position `at` is replaced by `rule`'s right-hand side.
  datatype Step = Step(at: nat, rule: nat)

  /** Applying `steps` in order turns `a` into `b`. */
  ghost predicate Rewrites(g: Grammar, a: seq<Symbol>, b: seq<Symbol>, steps: seq<Step>)
    decreases |steps|
  {
    if steps == [] then a == b
    else CanApply(g, a, steps[0]) && Rewrites(g, Apply(g, a, steps[0]), b, steps[1..])
  }

  predicate CanApply(g: Grammar, a: seq<Symbol>, s: Step) {
    s.at < |a| && s.rule < |g| && a[s.at] == NonTerm(g[s.rule].lhs)
  }

  function Apply(g: Grammar, a: seq<Symbol>, s: Step): seq<Symbol>
    requires CanApply(g, a, s)
  {
    a[..s.at] + g[s.rule].rhs + a[s.at + 1..]
  }

  ghost predicate Vanishes(g: Grammar, a: seq<Symbol>) {
    exists steps :: Rewrites(g, a, [], steps)
  }

  ghost predicate BeginsWith(g: Grammar, a: seq<Symbol>, t: Terminal) {
    exists steps, rest: seq<Symbol> :: Rewrites(g, a, [Term(t)] + rest, steps)
  }

  lemma {:induction false} RewritesTransitive(g: Grammar, a: seq<Symbol>, b: seq<Symbol>, c: seq<Symbol>, p: seq<Step>, q: seq<Step>)
    requires Rewrites(g, a, b, p) && Rewrites(g, b, c, q)
    ensures Rewrites(g, a, c, p + q)
    decreases |p|
  {
    if p == [] {
      assert p + q == q;
    } else {
      assert (p + q)[1..] == p[1..] + q;
      RewritesTransitive(g, Apply(g, a, p[0]), b, c, p[1..], q);
    }
  }

  lemma {:induction false} RewritesInContext(g: Grammar, x: seq<Symbol>, a: seq<Symbol>, y: seq<Symbol>, b: seq<Symbol>, p: seq<Step>)
      returns (q: seq<Step>)
    requires Rewrites(g, a, b, p)
    ensures Rewrites(g, x + a + y, x + b + y, q)
    decreases |p|
  {
    if p == [] {
      q := [];
    } else {
      var s := Step(|x| + p[0].at, p[0].rule);
      var rest := RewritesInContext(g, x, Apply(g, a, p[0]), y, b, p[1..]);
      assert (x + a + y)[s.at] == a[p[0].at];
      assert Apply(g, x + a + y, s) == x + Apply(g, a, p[0]) + y;
      q := [s] + rest;
      assert q[1..] == rest;
    }
  }

  // ----- trees -----

  datatype Token = Token(kind: Terminal, value: int)

  /** The value a parse builds when every action builds a node and every merge keeps both sides.
      `peeked` holds what a mid-rule action read below its (empty) right-hand side. */
  datatype Tree =
    | Leaf(tok: Token)
    | Node(rule: nat, peeked: seq<Tree>, kids: seq<Tree>)
    | Both(left: Tree, right: Tree)

  function Yield(t: Tree): seq<Token>
    decreases t, 0
  {
    match t
    case Leaf(tok) => [tok]
    case Node(_, _, kids) => Yields(kids)
    case Both(l, _) => Yield(l)
  }

  function Yields(ts: seq<Tree>): seq<Token>
    decreases ts, 1
  {
    if ts == [] then [] else Yields(ts[..|ts| - 1]) + Yield(ts[|ts| - 1])
  }

  /** `t` is a derivation tree of `sym`; a tree with `Both` nodes packs several of the same yield.
      Each mid-rule action in it has read exactly the values to its left in its containing rule. */
  ghost predicate Derives(g: Grammar, t: Tree, sym: Symbol)
    decreases t
  {
    match t
    case Leaf(tok) => sym == Term(tok.kind)
    case Node(r, peeked, kids) =>
      && r < |g| && sym == NonTerm(g[r].lhs)
      && |peeked| == g[r].peek
      && |kids| == |g[r].rhs|
      && forall i | 0 <= i < |kids| :: Derives(g, kids[i], g[r].rhs[i]) && ReadsLeft(kids[i], kids[..i])
    case Both(l, r) => Derives(g, l, sym) && Derives(g, r, sym) && Yield(l) == Yield(r)
  }

  /** What `t`'s action peeked at is the end of `left`. */
  ghost predicate ReadsLeft(t: Tree, left: seq<Tree>)
    decreases t
  {
    match t
    case Leaf(_) => true
    case Node(_, peeked, _) => |peeked| <= |left| && peeked == left[|left| - |peeked|..]
    case Both(l, r) => ReadsLeft(l, left) && ReadsLeft(r, left)
  }

  // A derivation tree proper: no packed alternatives.
  ghost predicate Plain(t: Tree)
    decreases t
  {
    match t
    case Leaf(_) => true
    case Node(_, peeked, kids) =>
      && (forall i | 0 <= i < |peeked| :: Plain(peeked[i]))
      && (forall i | 0 <= i < |kids| :: Plain(kids[i]))
    case Both(_, _) => false
  }

  ghost predicate Kinds(input: seq<Token>) {
    forall i | 0 <= i < |input| :: input[i].kind != End
  }

  lemma {:induction false} YieldsAppend(a: seq<Tree>, b: seq<Tree>)
    ensures Yields(a + b) == Yields(a) + Yields(b)
    decreases |b|
  {
    if b == [] {
      assert a + b == a;
    } else {
      var b' := b[..|b| - 1];
      assert (a + b)[..|a + b| - 1] == a + b';
      YieldsAppend(a, b');
    }
  }

  lemma YieldsOne(t: Tree)
    ensures Yields([t]) == Yield(t)
  {
    assert [t][..0] == [];
  }
}
