/** What precedence and associativity mean, apart from any parser (README.md:45-58, 111-114): expressions of
    operands, parentheses, prefix operators and binary operators on levels. */
module Operators {

  datatype Expr = Operand(token: nat) | Prefix(op: nat, operand: Expr) | Group(inner: Expr) | Binary(op: nat, left: Expr, right: Expr)

  /** Level and associativity of the binary operators, and the tokens and the level of the prefix operators,
      which bind tighter than all of them. An operator can be both. */
  datatype OpTable = OpTable(binary: map<nat, (int, bool)>, prefixes: set<nat>, tight: int, open: nat, close: nat)

  function Level(tbl: OpTable, o: nat): int {
    if o in tbl.binary then tbl.binary[o].0 else 0
  }

  predicate RightAssoc(tbl: OpTable, o: nat) {
    o in tbl.binary && tbl.binary[o].1
  }

  // One associativity to a level, prefix operators above all levels, and parentheses that are nothing else.
  ghost predicate TableOk(tbl: OpTable) {
    && (forall x, y | x in tbl.binary && y in tbl.binary && Level(tbl, x) == Level(tbl, y) :: RightAssoc(tbl, x) == RightAssoc(tbl, y))
    && (forall x | x in tbl.binary :: Level(tbl, x) < tbl.tight)
    && tbl.close !in tbl.binary && tbl.open !in tbl.prefixes
  }

  // An application of `x` may stand to the left of `o`.
  predicate LeftFits(tbl: OpTable, x: nat, o: nat) {
    Level(tbl, x) > Level(tbl, o) || (Level(tbl, x) == Level(tbl, o) && !RightAssoc(tbl, o))
  }

  // An application of `x` may stand to the right of `o`.
  predicate RightFits(tbl: OpTable, x: nat, o: nat) {
    Level(tbl, x) > Level(tbl, o) || (Level(tbl, x) == Level(tbl, o) && RightAssoc(tbl, o))
  }

  /** Between two adjacent operators, one of them takes the operand, and only one. */
  lemma OneTakes(tbl: OpTable, x: nat, o: nat)
    requires TableOk(tbl) && x in tbl.binary && o in tbl.binary
    ensures LeftFits(tbl, x, o) <==> !RightFits(tbl, o, x)
  {
  }

  predicate Ordered(tbl: OpTable, t: Expr) {
    match t
    case Operand(_) => true
    case Prefix(_, e) => !e.Binary? && Ordered(tbl, e)
    case Group(e) => Ordered(tbl, e)
    case Binary(o, l, r) =>
      && (l.Binary? ==> LeftFits(tbl, l.op, o)) && (r.Binary? ==> RightFits(tbl, r.op, o))
      && Ordered(tbl, l) && Ordered(tbl, r)
  }

  // Operators are in the table, and operands are not mistaken for what begins another expression.
  predicate Named(tbl: OpTable, t: Expr) {
    match t
    case Operand(a) => a !in tbl.prefixes && a != tbl.open
    case Prefix(p, e) => p in tbl.prefixes && Named(tbl, e)
    case Group(e) => Named(tbl, e)
    case Binary(o, l, r) => o in tbl.binary && Named(tbl, l) && Named(tbl, r)
  }

  function Tokens(tbl: OpTable, t: Expr): (ts: seq<nat>)
    ensures |ts| > 0
  {
    match t
    case Operand(a) => [a]
    case Prefix(p, e) => [p] + Tokens(tbl, e)
    case Group(e) => [tbl.open] + Tokens(tbl, e) + [tbl.close]
    case Binary(o, l, r) => Tokens(tbl, l) + [o] + Tokens(tbl, r)
  }

  // Every operator of `t` outside parentheses may stand to the left of `o`.
  predicate AllLeft(tbl: OpTable, t: Expr, o: nat) {
    t.Binary? ==> LeftFits(tbl, t.op, o) && AllLeft(tbl, t.left, o) && AllLeft(tbl, t.right, o)
  }

  predicate AllRight(tbl: OpTable, t: Expr, o: nat) {
    t.Binary? ==> RightFits(tbl, t.op, o) && AllRight(tbl, t.left, o) && AllRight(tbl, t.right, o)
  }

  /** What holds of an operand's operator holds of everything in it. */
  lemma {:induction false} FitsThroughout(tbl: OpTable, t: Expr, o: nat)
    requires TableOk(tbl) && o in tbl.binary && Ordered(tbl, t) && Named(tbl, t)
    ensures t.Binary? && LeftFits(tbl, t.op, o) ==> AllLeft(tbl, t, o)
    ensures t.Binary? && RightFits(tbl, t.op, o) ==> AllRight(tbl, t, o)
    ensures !t.Binary? ==> AllLeft(tbl, t, o) && AllRight(tbl, t, o)
  {
    if t.Binary? {
      FitsThroughout(tbl, t.left, o);
      FitsThroughout(tbl, t.right, o);
    }
  }

  // ----- and in one way only -----

  // The operators outside parentheses are of this level at least.
  predicate AtLeast(tbl: OpTable, t: Expr, least: int) {
    t.Binary? ==> Level(tbl, t.op) >= least && AtLeast(tbl, t.left, least) && AtLeast(tbl, t.right, least)
  }

  // The least level of the operators in a right operand of `o`.
  function RightLeast(tbl: OpTable, o: nat): int {
    if RightAssoc(tbl, o) then Level(tbl, o) else Level(tbl, o) + 1
  }

  lemma {:induction false} RightAtLeast(tbl: OpTable, r: Expr, o: nat)
    requires TableOk(tbl) && o in tbl.binary && AllRight(tbl, r, o)
    ensures AtLeast(tbl, r, RightLeast(tbl, o))
  {
    if r.Binary? {
      RightAtLeast(tbl, r.left, o);
      RightAtLeast(tbl, r.right, o);
    }
  }

  lemma RightLevel(tbl: OpTable, o: nat)
    requires TableOk(tbl) && o in tbl.binary
    ensures RightLeast(tbl, o) <= tbl.tight
  {
  }

  lemma {:induction false} LowerAtLeast(tbl: OpTable, t: Expr, least: int, lower: int)
    requires AtLeast(tbl, t, least) && lower <= least
    ensures AtLeast(tbl, t, lower)
  {
    if t.Binary? {
      LowerAtLeast(tbl, t.left, least, lower);
      LowerAtLeast(tbl, t.right, least, lower);
    }
  }

  lemma {:induction false} SomeLevel(tbl: OpTable, t: Expr) returns (least: int)
    ensures AtLeast(tbl, t, least)
  {
    least := 0;
    if t.Binary? {
      var l := SomeLevel(tbl, t.left);
      var r := SomeLevel(tbl, t.right);
      least := if l < r then l else r;
      if Level(tbl, t.op) < least { least := Level(tbl, t.op); }
      LowerAtLeast(tbl, t.left, l, least);
      LowerAtLeast(tbl, t.right, r, least);
    }
  }

  // What comes does not begin with a binary operator of this level.
  predicate Quiet(tbl: OpTable, more: seq<nat>, least: int) {
    more != [] && more[0] in tbl.binary ==> Level(tbl, more[0]) < least
  }

  // The operator that comes, if any, leaves all of `t` to its left.
  predicate GivesWay(tbl: OpTable, t: Expr, more: seq<nat>) {
    more != [] && more[0] in tbl.binary ==> AllLeft(tbl, t, more[0])
  }

  lemma {:induction false} QuietGivesWay(tbl: OpTable, t: Expr, more: seq<nat>, least: int)
    requires AtLeast(tbl, t, least) && Quiet(tbl, more, least)
    ensures GivesWay(tbl, t, more)
  {
    if t.Binary? {
      QuietGivesWay(tbl, t.left, more, least);
      QuietGivesWay(tbl, t.right, more, least);
    }
  }

  // `l` is what `t` begins with, down its left side.
  predicate OnSpine(l: Expr, t: Expr) {
    l == t || (t.Binary? && OnSpine(l, t.left))
  }

  // The application whose left operand `l` is, and the tokens after it.
  lemma {:induction false} Parent(tbl: OpTable, l: Expr, t: Expr, least: int) returns (p: Expr, more: seq<nat>)
    requires OnSpine(l, t) && l != t && Ordered(tbl, t) && Named(tbl, t) && AtLeast(tbl, t, least)
    ensures p.Binary? && p.left == l && OnSpine(p, t) && Ordered(tbl, p) && Named(tbl, p) && AtLeast(tbl, p, least)
    ensures Tokens(tbl, t) == Tokens(tbl, p) + more
    ensures more != [] ==> more[0] in tbl.binary && LeftFits(tbl, p.op, more[0])
    decreases t
  {
    if t.left == l {
      p, more := t, [];
    } else {
      var rest;
      p, rest := Parent(tbl, l, t.left, least);
      more := rest + [t.op] + Tokens(tbl, t.right);
      assert Tokens(tbl, t) == Tokens(tbl, p) + more;
      if rest == [] { SpineWhole(tbl, p, t.left); }
    }
  }

  lemma {:induction false} SpineWhole(tbl: OpTable, p: Expr, t: Expr)
    requires OnSpine(p, t) && |Tokens(tbl, p)| == |Tokens(tbl, t)|
    ensures p == t
  {
    if p != t { SpineLonger(tbl, p, t.left); }
  }

  lemma {:induction false} SpineLonger(tbl: OpTable, p: Expr, t: Expr)
    requires OnSpine(p, t)
    ensures |Tokens(tbl, p)| <= |Tokens(tbl, t)|
  {
    if p != t { SpineLonger(tbl, p, t.left); }
  }

  // The operand `t` begins with.
  function Leftmost(t: Expr): (u: Expr)
    ensures !u.Binary? && OnSpine(u, t)
  {
    if t.Binary? then Leftmost(t.left) else t
  }

  lemma {:induction false} LeftmostTokens(tbl: OpTable, t: Expr) returns (more: seq<nat>)
    requires Ordered(tbl, t) && Named(tbl, t)
    ensures Tokens(tbl, t) == Tokens(tbl, Leftmost(t)) + more && Ordered(tbl, Leftmost(t)) && Named(tbl, Leftmost(t))
  {
    if t.Binary? {
      var rest := LeftmostTokens(tbl, t.left);
      more := rest + [t.op] + Tokens(tbl, t.right);
    } else {
      more := [];
    }
  }

  // The same beginning is the same operand.
  lemma {:induction false} SameUnit(tbl: OpTable, u: Expr, v: Expr, x: seq<nat>, y: seq<nat>)
    requires TableOk(tbl) && !u.Binary? && !v.Binary? && Ordered(tbl, u) && Ordered(tbl, v) && Named(tbl, u) && Named(tbl, v)
    requires Tokens(tbl, u) + x == Tokens(tbl, v) + y
    ensures u == v
    decreases u, 0
  {
    var us, vs := Tokens(tbl, u) + x, Tokens(tbl, v) + y;
    assert us[0] == Tokens(tbl, u)[0] && vs[0] == Tokens(tbl, v)[0];
    match u
    case Operand(_) =>
    case Prefix(_, e) =>
      assert us[1..] == Tokens(tbl, e) + x && vs[1..] == Tokens(tbl, v.operand) + y;
      SameUnit(tbl, e, v.operand, x, y);
    case Group(e) =>
      var x', y' := [tbl.close] + x, [tbl.close] + y;
      assert us[1..] == Tokens(tbl, e) + x' && vs[1..] == Tokens(tbl, v.inner) + y';
      var i := SomeLevel(tbl, e);
      var j := SomeLevel(tbl, v.inner);
      var least := if i < j then i else j;
      LowerAtLeast(tbl, e, i, least);
      LowerAtLeast(tbl, v.inner, j, least);
      SameBeginning(tbl, e, v.inner, x', y', least);
  }

  // What may be an operand there, read from the same tokens, is the beginning of the whole.
  lemma {:induction false} BeginningRead(tbl: OpTable, l: Expr, t: Expr, x: seq<nat>, y: seq<nat>, least: int)
    requires TableOk(tbl) && Ordered(tbl, l) && Ordered(tbl, t) && Named(tbl, l) && Named(tbl, t)
    requires AtLeast(tbl, l, least) && AtLeast(tbl, t, least) && GivesWay(tbl, l, x) && Quiet(tbl, y, least)
    requires Tokens(tbl, l) + x == Tokens(tbl, t) + y
    ensures OnSpine(l, t)
    decreases l, 1
  {
    hide TableOk, Ordered, Named, AtLeast, AllLeft;
    if !l.Binary? {
      var more := LeftmostTokens(tbl, t);
      assert Tokens(tbl, t) + y == Tokens(tbl, Leftmost(t)) + (more + y);
      SameUnit(tbl, l, Leftmost(t), x, more + y);
    } else {
      LeftRead(tbl, l, t, x, y, least);
    }
  }

  lemma BinaryParts(tbl: OpTable, t: Expr, least: int, x: seq<nat>)
    requires TableOk(tbl) && t.Binary? && Ordered(tbl, t) && Named(tbl, t) && AtLeast(tbl, t, least) && GivesWay(tbl, t, x)
    ensures Ordered(tbl, t.left) && Named(tbl, t.left) && AtLeast(tbl, t.left, least)
    ensures Ordered(tbl, t.right) && Named(tbl, t.right) && t.op in tbl.binary && Level(tbl, t.op) >= least
    ensures AtLeast(tbl, t.right, RightLeast(tbl, t.op)) && Quiet(tbl, x, RightLeast(tbl, t.op))
    ensures GivesWay(tbl, t.left, [t.op] + Tokens(tbl, t.right) + x)
  {
    FitsThroughout(tbl, t.right, t.op);
    FitsThroughout(tbl, t.left, t.op);
    RightAtLeast(tbl, t.right, t.op);
  }

  lemma QuietAfter(tbl: OpTable, o: nat, more: seq<nat>, y: seq<nat>, least: int)
    requires TableOk(tbl) && o in tbl.binary && Level(tbl, o) >= least && Quiet(tbl, y, least)
    requires more != [] ==> more[0] in tbl.binary && LeftFits(tbl, o, more[0])
    ensures Quiet(tbl, more + y, RightLeast(tbl, o))
  {
  }

  lemma {:induction false} LeftRead(tbl: OpTable, l: Expr, t: Expr, x: seq<nat>, y: seq<nat>, least: int)
    requires TableOk(tbl) && Ordered(tbl, l) && Ordered(tbl, t) && Named(tbl, l) && Named(tbl, t)
    requires AtLeast(tbl, l, least) && AtLeast(tbl, t, least) && GivesWay(tbl, l, x) && Quiet(tbl, y, least)
    requires Tokens(tbl, l) + x == Tokens(tbl, t) + y && l.Binary?
    ensures OnSpine(l, t)
    decreases l, 0
  {
    hide TableOk, Ordered, Named, AtLeast, AllLeft, LeftFits;
    BinaryParts(tbl, l, least, x);
    var x' := [l.op] + Tokens(tbl, l.right) + x;
    assert Tokens(tbl, l) + x == Tokens(tbl, l.left) + x';
    BeginningRead(tbl, l.left, t, x', y, least);
    if l.left == t {
      SameRest(Tokens(tbl, t), x', Tokens(tbl, t), y);
    } else {
      var p, more := Parent(tbl, l.left, t, least);
      TokensAfter(tbl, l, p, t, x, more, y);
      ParentParts(tbl, p, least);
      QuietAfter(tbl, p.op, more, y, least);
      SameBeginning(tbl, l.right, p.right, x, more + y, RightLeast(tbl, l.op));
    }
  }

  // Two applications to the same left operand, over the same tokens.
  lemma TokensAfter(tbl: OpTable, l: Expr, p: Expr, t: Expr, x: seq<nat>, more: seq<nat>, y: seq<nat>)
    requires l.Binary? && p.Binary? && l.left == p.left && Tokens(tbl, t) == Tokens(tbl, p) + more
    requires Tokens(tbl, l) + x == Tokens(tbl, t) + y
    ensures l.op == p.op && Tokens(tbl, l.right) + x == Tokens(tbl, p.right) + (more + y)
  {
    Cancel(Tokens(tbl, l.left), l.op, Tokens(tbl, l.right) + x, p.op, Tokens(tbl, p.right) + (more + y)) by {
      Reassociate(Tokens(tbl, l.left), l.op, Tokens(tbl, l.right), x, []);
      Reassociate(Tokens(tbl, p.left), p.op, Tokens(tbl, p.right), more, y);
      assert x + [] == x;
    }
  }

  lemma Reassociate(a: seq<nat>, o: nat, r: seq<nat>, x: seq<nat>, y: seq<nat>)
    ensures a + [o] + r + x + y == a + ([o] + (r + (x + y)))
  {
  }

  lemma Cancel(a: seq<nat>, o: nat, x: seq<nat>, o': nat, y: seq<nat>)
    requires a + ([o] + x) == a + ([o'] + y)
    ensures o == o' && x == y
  {
    SameRest(a, [o] + x, a, [o'] + y);
    assert ([o] + x)[0] == o && ([o'] + y)[0] == o' && ([o] + x)[1..] == x && ([o'] + y)[1..] == y;
  }

  lemma ParentParts(tbl: OpTable, p: Expr, least: int)
    requires TableOk(tbl) && p.Binary? && Ordered(tbl, p) && Named(tbl, p) && AtLeast(tbl, p, least)
    ensures Ordered(tbl, p.right) && Named(tbl, p.right) && p.op in tbl.binary && Level(tbl, p.op) >= least
    ensures AtLeast(tbl, p.right, RightLeast(tbl, p.op))
  {
    BinaryParts(tbl, p, least, []);
  }

  lemma SameRest(a: seq<nat>, x: seq<nat>, b: seq<nat>, y: seq<nat>)
    requires a + x == b + y && a == b
    ensures x == y
  {
    assert x == (a + x)[|a|..] && y == (b + y)[|b|..];
  }

  lemma {:induction false} SameBeginning(tbl: OpTable, s: Expr, t: Expr, x: seq<nat>, y: seq<nat>, least: int)
    requires TableOk(tbl) && Ordered(tbl, s) && Ordered(tbl, t) && Named(tbl, s) && Named(tbl, t)
    requires AtLeast(tbl, s, least) && AtLeast(tbl, t, least) && Quiet(tbl, x, least) && Quiet(tbl, y, least)
    requires Tokens(tbl, s) + x == Tokens(tbl, t) + y
    ensures s == t
    decreases s, 2
  {
    hide TableOk, Ordered, Named, AtLeast, LeftFits;
    QuietGivesWay(tbl, s, x, least);
    BeginningRead(tbl, s, t, x, y, least);
    if s != t {
      var p, more := Parent(tbl, s, t, least);
      ParentParts(tbl, p, least);
      var y' := [p.op] + Tokens(tbl, p.right) + (more + y);
      assert Tokens(tbl, t) + y == Tokens(tbl, s) + y';
      SameRest(Tokens(tbl, s), x, Tokens(tbl, s), y');
    }
  }

  /** No two expressions that respect precedence have the same tokens. */
  lemma OneReading(tbl: OpTable, s: Expr, t: Expr)
    requires TableOk(tbl) && Ordered(tbl, s) && Ordered(tbl, t) && Named(tbl, s) && Named(tbl, t)
    requires Tokens(tbl, s) == Tokens(tbl, t)
    ensures s == t
  {
    hide TableOk, Ordered, Named, AtLeast;
    var i := SomeLevel(tbl, s);
    var j := SomeLevel(tbl, t);
    var least := if i < j then i else j;
    LowerAtLeast(tbl, s, i, least);
    LowerAtLeast(tbl, t, j, least);
    SameBeginning(tbl, s, t, [], [], least);
  }

  // ----- every expression can be read that way -----

  /** One more operator, and an operand that is no binary application, at the right end. */
  function Extended(tbl: OpTable, t: Expr, o: nat, u: Expr): Expr {
    if t.Binary? && !LeftFits(tbl, t.op, o) then Binary(t.op, t.left, Extended(tbl, t.right, o, u))
    else Binary(o, t, u)
  }

  // A whole expression at the right end, operand by operand.
  function Appended(tbl: OpTable, t: Expr, o: nat, r: Expr): Expr
    decreases r
  {
    if r.Binary? then Appended(tbl, Appended(tbl, t, o, r.left), r.op, r.right) else Extended(tbl, t, o, r)
  }

  // A prefix operator takes the first operand only.
  function Prefixed(p: nat, t: Expr): Expr {
    if t.Binary? then Binary(t.op, Prefixed(p, t.left), t.right) else Prefix(p, t)
  }

  /** The same tokens, read as precedence says. */
  function Reading(tbl: OpTable, t: Expr): Expr {
    match t
    case Operand(_) => t
    case Prefix(p, e) => Prefixed(p, Reading(tbl, e))
    case Group(e) => Group(Reading(tbl, e))
    case Binary(o, l, r) => Appended(tbl, Reading(tbl, l), o, Reading(tbl, r))
  }

  lemma {:induction false} ExtendedOk(tbl: OpTable, t: Expr, o: nat, u: Expr)
    requires TableOk(tbl) && Ordered(tbl, t) && Named(tbl, t) && o in tbl.binary && !u.Binary? && Ordered(tbl, u) && Named(tbl, u)
    ensures var e := Extended(tbl, t, o, u);
      e.Binary? && Ordered(tbl, e) && Named(tbl, e) && Tokens(tbl, e) == Tokens(tbl, t) + [o] + Tokens(tbl, u)
    ensures Extended(tbl, t, o, u).op == o || (t.Binary? && Extended(tbl, t, o, u).op == t.op)
  {
    if t.Binary? && !LeftFits(tbl, t.op, o) {
      OneTakes(tbl, t.op, o);
      ExtendedOk(tbl, t.right, o, u);
      Regroup(Tokens(tbl, t.left), t.op, Tokens(tbl, t.right), o, Tokens(tbl, u));
    }
  }

  lemma Regroup(a: seq<nat>, x: nat, b: seq<nat>, y: nat, c: seq<nat>)
    ensures a + [x] + (b + [y] + c) == (a + [x] + b) + [y] + c
  {
  }

  lemma {:induction false} AppendedOk(tbl: OpTable, t: Expr, o: nat, r: Expr)
    requires TableOk(tbl) && Ordered(tbl, t) && Named(tbl, t) && o in tbl.binary && Ordered(tbl, r) && Named(tbl, r)
    ensures var e := Appended(tbl, t, o, r);
      Ordered(tbl, e) && Named(tbl, e) && Tokens(tbl, e) == Tokens(tbl, t) + [o] + Tokens(tbl, r)
    decreases r
  {
    if r.Binary? {
      AppendedOk(tbl, t, o, r.left);
      AppendedOk(tbl, Appended(tbl, t, o, r.left), r.op, r.right);
      Regroup(Tokens(tbl, t), o, Tokens(tbl, r.left), r.op, Tokens(tbl, r.right));
    } else {
      ExtendedOk(tbl, t, o, r);
    }
  }

  lemma {:induction false} PrefixedOk(tbl: OpTable, p: nat, t: Expr)
    requires Ordered(tbl, t) && Named(tbl, t) && p in tbl.prefixes
    ensures var e := Prefixed(p, t); Ordered(tbl, e) && Named(tbl, e) && Tokens(tbl, e) == [p] + Tokens(tbl, t)
    ensures t.Binary? ==> Prefixed(p, t).Binary? && Prefixed(p, t).op == t.op
  {
    if t.Binary? {
      PrefixedOk(tbl, p, t.left);
      assert ([p] + Tokens(tbl, t.left)) + [t.op] + Tokens(tbl, t.right) == [p] + (Tokens(tbl, t.left) + [t.op] + Tokens(tbl, t.right));
    }
  }

  /** Every expression has a reading that respects precedence, over the same tokens. */
  lemma {:induction false} ReadingOk(tbl: OpTable, t: Expr)
    requires TableOk(tbl) && Named(tbl, t)
    ensures var e := Reading(tbl, t); Ordered(tbl, e) && Named(tbl, e) && Tokens(tbl, e) == Tokens(tbl, t)
  {
    match t
    case Operand(_) =>
    case Prefix(p, e) =>
      ReadingOk(tbl, e);
      PrefixedOk(tbl, p, Reading(tbl, e));
    case Group(e) =>
      ReadingOk(tbl, e);
    case Binary(o, l, r) =>
      ReadingOk(tbl, l);
      ReadingOk(tbl, r);
      AppendedOk(tbl, Reading(tbl, l), o, Reading(tbl, r));
  }

  // ----- which operators and operands are used -----

  // The binary operators of `t` are among `infixes`, and what begins its operands among `starts`.
  predicate Uses(infixes: set<nat>, starts: set<nat>, tbl: OpTable, t: Expr) {
    match t
    case Operand(a) => a in starts
    case Prefix(p, e) => p in starts && Uses(infixes, starts, tbl, e)
    case Group(e) => tbl.open in starts && Uses(infixes, starts, tbl, e)
    case Binary(o, l, r) => o in infixes && Uses(infixes, starts, tbl, l) && Uses(infixes, starts, tbl, r)
  }

  lemma {:induction false} PrefixedUses(infixes: set<nat>, starts: set<nat>, tbl: OpTable, p: nat, t: Expr)
    requires Uses(infixes, starts, tbl, t) && p in starts
    ensures Uses(infixes, starts, tbl, Prefixed(p, t))
  {
    if t.Binary? { PrefixedUses(infixes, starts, tbl, p, t.left); }
  }

  lemma {:induction false} ExtendedUses(infixes: set<nat>, starts: set<nat>, tbl: OpTable, t: Expr, o: nat, u: Expr)
    requires Uses(infixes, starts, tbl, t) && o in infixes && Uses(infixes, starts, tbl, u)
    ensures Uses(infixes, starts, tbl, Extended(tbl, t, o, u))
  {
    if t.Binary? && !LeftFits(tbl, t.op, o) { ExtendedUses(infixes, starts, tbl, t.right, o, u); }
  }

  lemma {:induction false} AppendedUses(infixes: set<nat>, starts: set<nat>, tbl: OpTable, t: Expr, o: nat, r: Expr)
    requires Uses(infixes, starts, tbl, t) && o in infixes && Uses(infixes, starts, tbl, r)
    ensures Uses(infixes, starts, tbl, Appended(tbl, t, o, r))
    decreases r
  {
    if r.Binary? {
      AppendedUses(infixes, starts, tbl, t, o, r.left);
      AppendedUses(infixes, starts, tbl, Appended(tbl, t, o, r.left), r.op, r.right);
    } else {
      ExtendedUses(infixes, starts, tbl, t, o, r);
    }
  }

  /** Reading an expression as precedence says uses each token as it was used. */
  lemma {:induction false} ReadingUses(infixes: set<nat>, starts: set<nat>, tbl: OpTable, t: Expr)
    requires Uses(infixes, starts, tbl, t)
    ensures Uses(infixes, starts, tbl, Reading(tbl, t))
  {
    match t
    case Operand(_) =>
    case Prefix(p, e) =>
      ReadingUses(infixes, starts, tbl, e);
      PrefixedUses(infixes, starts, tbl, p, Reading(tbl, e));
    case Group(e) =>
      ReadingUses(infixes, starts, tbl, e);
    case Binary(o, l, r) =>
      ReadingUses(infixes, starts, tbl, l);
      ReadingUses(infixes, starts, tbl, r);
      AppendedUses(infixes, starts, tbl, Reading(tbl, l), o, Reading(tbl, r));
  }
}
