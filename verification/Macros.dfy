/** Macro expansion with hide sets (src/examples/CPP/preprocessor.ts:238-360; section 6.10.3 of ISO/IEC
    9899:2011): it ends on every input, and leaves nothing it should have replaced. */
module Macros {
  import opened Options

  // `hidden` names the macros already expanded to produce this token.
  datatype Tok = Tok(text: string, ws: bool, line: nat, hidden: set<string>)

  // Without parameters, object-like.
  datatype Macro = Macro(params: Option<seq<string>>, variadic: bool, body: seq<Tok>)

  datatype Names = Names(macros: map<string, Macro>, lineText: nat -> string, fileText: string)

  predicate IsWordChar(ch: char) {
    'a' <= ch <= 'z' || 'A' <= ch <= 'Z' || '0' <= ch <= '9' || ch == '_'
  }

  predicate IsIdent(s: string) {
    s != [] && !('0' <= s[0] <= '9') && forall i | 0 <= i < |s| :: IsWordChar(s[i])
  }

  // What `__LINE__` and `__FILE__` become is not an identifier.
  ghost predicate Plain(c: Names) {
    (forall n: nat :: !IsIdent(c.lineText(n))) && !IsIdent(c.fileText)
  }

  // ----- the arguments of a call -----

  // From token `j` on: the arguments so far, and where the closing parenthesis is, or the end.
  function Collect(rest: seq<Tok>, j: nat, depth: nat, args: seq<seq<Tok>>, variadic: bool, nargs: nat): (r: (seq<seq<Tok>>, nat))
    requires args != [] && j <= |rest|
    ensures j <= r.1 <= |rest|
    decreases |rest| - j
  {
    if j == |rest| || (rest[j].text == ")" && depth == 0) then (args, j)
    else
      var a := rest[j];
      var depth' := if a.text == "(" then depth + 1 else if a.text == ")" then depth - 1 else depth;
      var last := |args| - 1;
      if a.text == "," && depth' == 0 && (!variadic || |args| < nargs)
      then Collect(rest, j + 1, depth', args + [[]], variadic, nargs)
      else Collect(rest, j + 1, depth', args[last := args[last] + [a]], variadic, nargs)
  }

  function Arity(m: Macro): nat {
    (if m.params.Some? then |m.params.value| else 0) + if m.variadic then 1 else 0
  }

  // A call without parameters has no argument, rather than an empty one.
  function Fitted(args: seq<seq<Tok>>, nargs: nat): seq<seq<Tok>> {
    if |args| == 1 && args[0] == [] && nargs == 0 then [] else args
  }

  predicate WrongCount(m: Macro, args: seq<seq<Tok>>)
    requires m.params.Some?
  {
    if m.variadic then |args| < |m.params.value| else |args| != |m.params.value|
  }

  // What a variadic call leaves out is empty.
  function Padded(args: seq<seq<Tok>>, nargs: nat): seq<seq<Tok>>
    decreases nargs - |args|
  {
    if |args| >= nargs then args else Padded(args + [[]], nargs)
  }

  // ----- what happens to the next token -----

  datatype Next = Keep(t: Tok) | Replace(body: seq<Tok>) | Call(m: Macro, args: seq<seq<Tok>>, upto: nat) | Refuse

  // The macros a replacement is hidden from.
  function Hidden(t: Tok): set<string> {
    t.hidden + {t.text}
  }

  function BodyOf(m: Macro, t: Tok): seq<Tok> {
    seq(|m.body|, j requires 0 <= j < |m.body| => Tok(m.body[j].text, if j > 0 then m.body[j].ws else t.ws, t.line, Hidden(t)))
  }

  predicate Expandable(c: Names, t: Tok) {
    IsIdent(t.text) && t.text !in t.hidden && t.text != "__LINE__" && t.text != "__FILE__" && t.text in c.macros
  }

  function NextOf(c: Names, rest: seq<Tok>): Next
    requires rest != []
  {
    var t := rest[0];
    if !IsIdent(t.text) || t.text in t.hidden then Keep(t)
    else if t.text == "__LINE__" then Keep(t.(text := c.lineText(t.line)))
    else if t.text == "__FILE__" then Keep(t.(text := c.fileText))
    else if t.text !in c.macros then Keep(t)
    else
      var m := c.macros[t.text];
      if m.params.None? then Replace(BodyOf(m, t))
      else if |rest| < 2 || rest[1].text != "(" then Keep(t)
      else
        var (args, j) := Collect(rest, 2, 0, [[]], m.variadic, Arity(m));
        if j == |rest| then Keep(t)
        else if WrongCount(m, Fitted(args, Arity(m))) then Refuse
        else Call(m, Padded(Fitted(args, Arity(m)), Arity(m)), j)
  }

  // ----- substitution -----

  datatype Result = Expanded(toks: seq<Tok>) | Wrong | Spent

  function Prefixed(ts: seq<Tok>, r: Result): Result {
    if r.Expanded? then Expanded(ts + r.toks) else r
  }

  function Params(m: Macro): seq<string> {
    (if m.params.Some? then m.params.value else []) + if m.variadic then ["__VA_ARGS__"] else []
  }

  function IndexOf(names: seq<string>, name: string): Option<nat> {
    if names == [] then None
    else if names[0] == name then Some(0)
    else match IndexOf(names[1..], name) case None => None case Some(i) => Some(i + 1)
  }

  function ArgOf(m: Macro, args: seq<seq<Tok>>, name: string): Option<seq<Tok>> {
    match IndexOf(Params(m), name)
    case None => None
    case Some(i) => if i < |args| then Some(args[i]) else None
  }

  function Rehide(ts: seq<Tok>, hidden: set<string>): (r: seq<Tok>) {
    seq(|ts|, i requires 0 <= i < |ts| => ts[i].(hidden := ts[i].hidden + hidden))
  }

  function Spaced(ts: seq<Tok>, ws: bool): seq<Tok> {
    if ts == [] then [] else [ts[0].(ws := ws)] + ts[1..]
  }

  function Escaped(s: string): string {
    if s == [] then [] else (if s[0] == '\\' || s[0] == '"' then ['\\', s[0]] else [s[0]]) + Escaped(s[1..])
  }

  function Pieces(ts: seq<Tok>, first: bool): string {
    if ts == [] then []
    else
      var text := if ts[0].text != [] && (ts[0].text[0] == '"' || ts[0].text[0] == '\'') then Escaped(ts[0].text) else ts[0].text;
      (if !first && ts[0].ws then " " else "") + text + Pieces(ts[1..], false)
  }

  function Stringized(ts: seq<Tok>): string {
    ['"'] + Pieces(ts, true) + ['"']
  }

  // An operand of `##`: an argument as it was written, or the token itself.
  function Operand(m: Macro, args: seq<seq<Tok>>, hidden: set<string>, line: nat, b: Tok): seq<Tok> {
    match ArgOf(m, args, b.text)
    case Some(a) => Rehide(a, hidden)
    case None => [Tok(b.text, b.ws, line, hidden)]
  }

  function Pasted(acc: seq<Tok>, right: seq<Tok>, name: string, hidden: set<string>, line: nat): seq<Tok> {
    if right == [] then
      if name == "__VA_ARGS__" && acc != [] && acc[|acc| - 1].text == "," then acc[..|acc| - 1] else acc
    else if acc == [] then right
    else
      var l := acc[|acc| - 1];
      acc[..|acc| - 1] + [Tok(l.text + right[0].text, l.ws, line, hidden)] + right[1..]
  }

  // The chain of pastes after position `i`, and where it ends.
  function Chain(m: Macro, args: seq<seq<Tok>>, hidden: set<string>, line: nat, i: nat, acc: seq<Tok>): (r: (seq<Tok>, nat))
    ensures i <= r.1
    decreases |m.body| - i
  {
    if i + 2 < |m.body| && m.body[i + 1].text == "##" then
      var b := m.body[i + 2];
      Chain(m, args, hidden, line, i + 2, Pasted(acc, Operand(m, args, hidden, line, b), b.text, hidden, line))
    else (acc, i)
  }

  // The body from position `i` on, arguments expanded where they are neither pasted nor made a string.
  function Subst(c: Names, m: Macro, args: seq<seq<Tok>>, hidden: set<string>, line: nat, i: nat, fuel: nat): Result
    decreases fuel, 1, |m.body| - i
  {
    if i >= |m.body| then Expanded([])
    else
      var b := m.body[i];
      if b.text == "#" && i + 1 < |m.body| && ArgOf(m, args, m.body[i + 1].text).Some? then
        Prefixed([Tok(Stringized(ArgOf(m, args, m.body[i + 1].text).value), b.ws, line, hidden)], Subst(c, m, args, hidden, line, i + 2, fuel))
      else if i + 1 < |m.body| && m.body[i + 1].text == "##" then
        var (acc, k) := Chain(m, args, hidden, line, i, Spaced(Operand(m, args, hidden, line, b), b.ws));
        Prefixed(acc, Subst(c, m, args, hidden, line, k + 1, fuel))
      else
        match ArgOf(m, args, b.text)
        case None => Prefixed([Tok(b.text, b.ws, line, hidden)], Subst(c, m, args, hidden, line, i + 1, fuel))
        case Some(a) =>
          match Expand(c, a, fuel)
          case Expanded(e) => Prefixed(Spaced(Rehide(e, hidden), b.ws), Subst(c, m, args, hidden, line, i + 1, fuel))
          case other => other
  }

  /** Expansion, with a bound on its depth and length. */
  function Expand(c: Names, rest: seq<Tok>, fuel: nat): Result
    decreases fuel, 0, 0
  {
    if rest == [] then Expanded([])
    else if fuel == 0 then Spent
    else
      var t := rest[0];
      match NextOf(c, rest)
      case Keep(t') => Prefixed([t'], Expand(c, rest[1..], fuel - 1))
      case Refuse => Wrong
      case Replace(body) => Expand(c, body + rest[1..], fuel - 1)
      case Call(m, args, j) =>
        match Subst(c, m, args, Hidden(t), t.line, 0, fuel - 1)
        case Expanded(body) => Expand(c, Spaced(body, t.ws) + rest[j + 1..], fuel - 1)
        case other => other
  }

  // ----- ranks -----

  // How many macros a token can still expand to.
  function Rank(c: Names, t: Tok): nat {
    |c.macros.Keys - t.hidden|
  }

  function Count(c: Names, ts: seq<Tok>, k: nat): nat {
    if ts == [] then 0 else (if Rank(c, ts[0]) == k then 1 else 0) + Count(c, ts[1..], k)
  }

  // Fewer tokens of some rank from `b` up, and as many of each higher rank.
  ghost predicate LessAbove(c: Names, b: nat, x: seq<Tok>, y: seq<Tok>) {
    exists k: nat :: b <= k && LessAt(c, k, x, y)
  }

  ghost predicate LessAt(c: Names, k: nat, x: seq<Tok>, y: seq<Tok>) {
    Count(c, x, k) < Count(c, y, k) && forall q: nat | k < q :: Count(c, x, q) == Count(c, y, q)
  }

  lemma {:induction false} CountAppend(c: Names, x: seq<Tok>, y: seq<Tok>, k: nat)
    ensures Count(c, x + y, k) == Count(c, x, k) + Count(c, y, k)
  {
    if x == [] {
      assert x + y == y;
    } else {
      assert (x + y)[1..] == x[1..] + y;
      CountAppend(c, x[1..], y, k);
    }
  }

  lemma {:induction false} CountNone(c: Names, x: seq<Tok>, k: nat)
    requires forall t | t in x :: Rank(c, t) != k
    ensures Count(c, x, k) == 0
  {
    if x != [] {
      assert x[0] in x;
      CountNone(c, x[1..], k);
    }
  }

  lemma {:induction false} Subsets<T>(a: set<T>, b: set<T>)
    requires a <= b
    ensures |a| <= |b| && (a < b ==> |a| < |b|)
  {
    if a != {} {
      var x :| x in a;
      Subsets(a - {x}, b - {x});
    }
  }

  lemma RankBound(c: Names, x: seq<Tok>, k: nat)
    requires k > |c.macros.Keys|
    ensures Count(c, x, k) == 0
  {
    forall t | t in x ensures Rank(c, t) != k { Subsets(c.macros.Keys - t.hidden, c.macros.Keys); }
    CountNone(c, x, k);
  }

  /** What replaces a macro's name is of lower rank. */
  lemma RankFalls(c: Names, t: Tok, x: Tok)
    requires Expandable(c, t) && Hidden(t) <= x.hidden
    ensures Rank(c, x) < Rank(c, t)
  {
    assert t.text in c.macros.Keys - t.hidden && t.text !in c.macros.Keys - x.hidden;
    assert c.macros.Keys - x.hidden < c.macros.Keys - t.hidden;
    Subsets(c.macros.Keys - x.hidden, c.macros.Keys - t.hidden);
  }

  // From rank `r` up nowhere more, and fewer at `r`: less at the highest rank where they differ.
  lemma {:induction false} HighestDifference(c: Names, x: seq<Tok>, y: seq<Tok>, r: nat, top: nat)
    requires r <= top && (forall q: nat | top < q :: Count(c, x, q) == Count(c, y, q))
    requires (forall q: nat | r <= q <= top :: Count(c, x, q) <= Count(c, y, q)) && Count(c, x, r) < Count(c, y, r)
    ensures LessAbove(c, 0, x, y)
    decreases top
  {
    hide Count;
    if Count(c, x, top) < Count(c, y, top) {
      assert LessAt(c, top, x, y);
    } else {
      HighestDifference(c, x, y, r, top - 1);
    }
  }

  lemma FewerFrom(c: Names, x: seq<Tok>, y: seq<Tok>, r: nat)
    requires (forall q: nat | r <= q :: Count(c, x, q) <= Count(c, y, q)) && Count(c, x, r) < Count(c, y, r)
    ensures LessAbove(c, 0, x, y)
  {
    var top := if r <= |c.macros.Keys| then |c.macros.Keys| else r;
    forall q: nat | top < q ensures Count(c, x, q) == Count(c, y, q) {
      RankBound(c, x, q);
      RankBound(c, y, q);
    }
    HighestDifference(c, x, y, r, top);
  }

  // Dropping the first token, and then any replacement of lower rank for what follows it.
  lemma ReplacedFewer(c: Names, t: Tok, dropped: seq<Tok>, after: seq<Tok>, body: seq<Tok>)
    requires forall x | x in body :: Rank(c, x) < Rank(c, t)
    ensures LessAbove(c, 0, body + after, [t] + dropped + after)
  {
    var r := Rank(c, t);
    forall q: nat | r <= q
      ensures Count(c, body + after, q) <= Count(c, [t] + dropped + after, q)
      ensures q == r ==> Count(c, body + after, q) < Count(c, [t] + dropped + after, q)
    {
      CountNone(c, body, q);
      CountAppend(c, body, after, q);
      CountAppend(c, [t] + dropped, after, q);
      CountAppend(c, [t], dropped, q);
      assert [t][1..] == [];
    }
    FewerFrom(c, body + after, [t] + dropped + after, r);
  }

  // ----- arguments are part of the call -----

  function OldArg(args: seq<seq<Tok>>, i: nat): seq<Tok> {
    if i < |args| then args[i] else []
  }

  lemma CountEmpty(c: Names, q: nat)
    ensures Count(c, [], q) == 0
  {
  }

  lemma {:induction false} CollectedPart(c: Names, rest: seq<Tok>, j: nat, depth: nat, args: seq<seq<Tok>>, variadic: bool, nargs: nat, i: nat, q: nat)
    requires args != [] && j <= |rest| && i < |Collect(rest, j, depth, args, variadic, nargs).0|
    ensures Count(c, Collect(rest, j, depth, args, variadic, nargs).0[i], q) <= Count(c, OldArg(args, i), q) + Count(c, rest[j..], q)
    decreases |rest| - j
  {
    hide Count;
    CountEmpty(c, q);
    if !(j == |rest| || (rest[j].text == ")" && depth == 0)) {
      var a := rest[j];
      var depth' := if a.text == "(" then depth + 1 else if a.text == ")" then depth - 1 else depth;
      var last := |args| - 1;
      assert rest[j..] == [a] + rest[j + 1..];
      CountAppend(c, [a], rest[j + 1..], q);
      CountAppend(c, args[last], [a], q);
      if a.text == "," && depth' == 0 && (!variadic || |args| < nargs) {
        CollectedPart(c, rest, j + 1, depth', args + [[]], variadic, nargs, i, q);
      } else {
        CollectedPart(c, rest, j + 1, depth', args[last := args[last] + [a]], variadic, nargs, i, q);
      }
    }
  }

  ghost predicate AllHide(ts: seq<Tok>, hidden: set<string>) {
    forall t | t in ts :: hidden <= t.hidden
  }

  // What is replaced is the name of a macro that the token is not hidden from.
  lemma NextFacts(c: Names, rest: seq<Tok>)
    requires rest != []
    ensures NextOf(c, rest).Replace? ==> Expandable(c, rest[0]) && AllHide(NextOf(c, rest).body, Hidden(rest[0]))
    ensures NextOf(c, rest).Call? ==> Expandable(c, rest[0]) && 2 <= NextOf(c, rest).upto < |rest|
  {
    hide Collect, Fitted, Padded;
  }

  // ----- more fuel changes nothing -----

  lemma {:induction false} ExpandMore(c: Names, rest: seq<Tok>, f: nat, g: nat)
    requires f <= g && !Expand(c, rest, f).Spent?
    ensures Expand(c, rest, g) == Expand(c, rest, f)
    decreases f, 0, 0
  {
    hide NextOf, Spaced, Subst, Hidden, Expandable;
    if rest != [] {
      NextFacts(c, rest);
      match NextOf(c, rest)
      case Keep(_) => ExpandMore(c, rest[1..], f - 1, g - 1);
      case Refuse =>
      case Replace(body) => ExpandMore(c, body + rest[1..], f - 1, g - 1);
      case Call(m, args, j) =>
        var t := rest[0];
        SubstMore(c, m, args, Hidden(t), t.line, 0, f - 1, g - 1);
        var s := Subst(c, m, args, Hidden(t), t.line, 0, f - 1);
        if s.Expanded? { ExpandMore(c, Spaced(s.toks, t.ws) + rest[j + 1..], f - 1, g - 1); }
    }
  }

  lemma {:induction false} SubstMore(c: Names, m: Macro, args: seq<seq<Tok>>, hidden: set<string>, line: nat, i: nat, f: nat, g: nat)
    requires f <= g && !Subst(c, m, args, hidden, line, i, f).Spent?
    ensures Subst(c, m, args, hidden, line, i, g) == Subst(c, m, args, hidden, line, i, f)
    decreases f, 1, |m.body| - i
  {
    hide Chain, Operand, Spaced, Rehide, Expand, ArgOf, Stringized;
    if i < |m.body| {
      var b := m.body[i];
      if b.text == "#" && i + 1 < |m.body| && ArgOf(m, args, m.body[i + 1].text).Some? {
        SubstMore(c, m, args, hidden, line, i + 2, f, g);
      } else if i + 1 < |m.body| && m.body[i + 1].text == "##" {
        var (acc, k) := Chain(m, args, hidden, line, i, Spaced(Operand(m, args, hidden, line, b), b.ws));
        SubstMore(c, m, args, hidden, line, k + 1, f, g);
      } else {
        var a := ArgOf(m, args, b.text);
        if a.Some? { ExpandMore(c, a.value, f, g); }
        if a.None? || Expand(c, a.value, f).Expanded? { SubstMore(c, m, args, hidden, line, i + 1, f, g); }
      }
    }
  }

  // ----- what substitution yields is hidden from the macro -----

  lemma RehideHides(ts: seq<Tok>, hidden: set<string>)
    ensures AllHide(Rehide(ts, hidden), hidden)
  {
  }

  lemma SpacedHides(ts: seq<Tok>, ws: bool, hidden: set<string>)
    requires AllHide(ts, hidden)
    ensures AllHide(Spaced(ts, ws), hidden)
  {
    if ts != [] { assert ts[0] in ts; }
  }

  lemma OperandHides(m: Macro, args: seq<seq<Tok>>, hidden: set<string>, line: nat, b: Tok)
    ensures AllHide(Operand(m, args, hidden, line, b), hidden)
  {
    var a := ArgOf(m, args, b.text);
    if a.Some? { RehideHides(a.value, hidden); }
  }

  lemma {:induction false} ChainHides(m: Macro, args: seq<seq<Tok>>, hidden: set<string>, line: nat, i: nat, acc: seq<Tok>)
    requires AllHide(acc, hidden)
    ensures AllHide(Chain(m, args, hidden, line, i, acc).0, hidden)
    decreases |m.body| - i
  {
    if i + 2 < |m.body| && m.body[i + 1].text == "##" {
      var b := m.body[i + 2];
      OperandHides(m, args, hidden, line, b);
      ChainHides(m, args, hidden, line, i + 2, Pasted(acc, Operand(m, args, hidden, line, b), b.text, hidden, line));
    }
  }

  /** Whatever a call becomes can no longer be expanded by the same macro. */
  lemma {:induction false} SubstHides(c: Names, m: Macro, args: seq<seq<Tok>>, hidden: set<string>, line: nat, i: nat, fuel: nat)
    requires Subst(c, m, args, hidden, line, i, fuel).Expanded?
    ensures AllHide(Subst(c, m, args, hidden, line, i, fuel).toks, hidden)
    decreases |m.body| - i
  {
    hide Chain, Operand, Spaced, Rehide, Expand, ArgOf, Stringized;
    if i < |m.body| {
      var b := m.body[i];
      if b.text == "#" && i + 1 < |m.body| && ArgOf(m, args, m.body[i + 1].text).Some? {
        SubstHides(c, m, args, hidden, line, i + 2, fuel);
      } else if i + 1 < |m.body| && m.body[i + 1].text == "##" {
        OperandHides(m, args, hidden, line, b);
        SpacedHides(Operand(m, args, hidden, line, b), b.ws, hidden);
        ChainHides(m, args, hidden, line, i, Spaced(Operand(m, args, hidden, line, b), b.ws));
        var (acc, k) := Chain(m, args, hidden, line, i, Spaced(Operand(m, args, hidden, line, b), b.ws));
        SubstHides(c, m, args, hidden, line, k + 1, fuel);
      } else {
        SubstHides(c, m, args, hidden, line, i + 1, fuel);
        var a := ArgOf(m, args, b.text);
        if a.Some? {
          var e := Expand(c, a.value, fuel).toks;
          RehideHides(e, hidden);
          SpacedHides(Rehide(e, hidden), b.ws, hidden);
        }
      }
    }
  }

  // ----- expansion ends -----

  ghost predicate Halts(c: Names, ts: seq<Tok>) {
    exists fuel: nat :: !Expand(c, ts, fuel).Spent?
  }

  lemma {:induction false} IndexInside(names: seq<string>, name: string)
    ensures IndexOf(names, name).Some? ==> IndexOf(names, name).value < |names| && names[IndexOf(names, name).value] == name
  {
    if names != [] { IndexInside(names[1..], name); }
  }

  lemma ArgInside(m: Macro, args: seq<seq<Tok>>, name: string)
    ensures ArgOf(m, args, name).Some? ==> ArgOf(m, args, name).value in args
  {
  }

  lemma {:induction false} SubstEnds(c: Names, m: Macro, args: seq<seq<Tok>>, hidden: set<string>, line: nat, i: nat) returns (fuel: nat)
    requires forall a | a in args :: Halts(c, a)
    ensures !Subst(c, m, args, hidden, line, i, fuel).Spent?
    decreases |m.body| - i
  {
    if i >= |m.body| {
      fuel := 0;
    } else {
      var b := m.body[i];
      if b.text == "#" && i + 1 < |m.body| && ArgOf(m, args, m.body[i + 1].text).Some? {
        fuel := SubstEnds(c, m, args, hidden, line, i + 2);
      } else if i + 1 < |m.body| && m.body[i + 1].text == "##" {
        var (acc, k) := Chain(m, args, hidden, line, i, Spaced(Operand(m, args, hidden, line, b), b.ws));
        fuel := SubstEnds(c, m, args, hidden, line, k + 1);
      } else {
        fuel := SubstEnds(c, m, args, hidden, line, i + 1);
        var a := ArgOf(m, args, b.text);
        if a.Some? {
          ArgInside(m, args, b.text);
          var f: nat :| !Expand(c, a.value, f).Spent?;
          var g := if f < fuel then fuel else f;
          ExpandMore(c, a.value, f, g);
          SubstMore(c, m, args, hidden, line, i + 1, fuel, g);
          fuel := g;
        }
      }
    }
  }

  lemma {:induction false} PaddedIn(args: seq<seq<Tok>>, nargs: nat, a: seq<Tok>)
    requires a in Padded(args, nargs)
    ensures a in args || a == []
    decreases nargs - |args|
  {
    if |args| < nargs { PaddedIn(args + [[]], nargs, a); }
  }

  // An argument of a call has fewer tokens than the call.
  lemma ArgumentFewer(c: Names, rest: seq<Tok>, a: seq<Tok>)
    requires rest != [] && NextOf(c, rest).Call? && a in NextOf(c, rest).args
    ensures LessAbove(c, 0, a, rest)
  {
    hide Count, Collect, LessAbove;
    var m := c.macros[rest[0].text];
    var got := Collect(rest, 2, 0, [[]], m.variadic, Arity(m)).0;
    PaddedIn(Fitted(got, Arity(m)), Arity(m), a);
    var r := Rank(c, rest[0]);
    forall q: nat
      ensures Count(c, a, q) <= Count(c, rest, q) && (q == r ==> Count(c, a, q) < Count(c, rest, q))
    {
      CountEmpty(c, q);
      FirstCounts(c, rest, q);
      if a in got {
        var i :| 0 <= i < |got| && got[i] == a;
        CollectedPart(c, rest, 2, 0, [[]], m.variadic, Arity(m), i, q);
        assert OldArg([[]], i) == [];
      }
    }
    FewerFrom(c, a, rest, r);
  }

  lemma FirstCounts(c: Names, rest: seq<Tok>, q: nat)
    requires |rest| >= 2
    ensures Count(c, rest, q) >= Count(c, rest[2..], q) + if q == Rank(c, rest[0]) then 1 else 0
  {
    assert rest[1..][1..] == rest[2..];
  }

  // Keeping a token leaves fewer.
  lemma TailFewer(c: Names, rest: seq<Tok>)
    requires rest != []
    ensures LessAbove(c, 0, rest[1..], rest)
  {
    ReplacedFewer(c, rest[0], [], rest[1..], []);
    assert [] + rest[1..] == rest[1..] && [rest[0]] + [] + rest[1..] == rest;
  }

  // Replacing a name, with what it was called with, by tokens hidden from it leaves fewer.
  lemma BodyFewer(c: Names, rest: seq<Tok>, j: nat, body: seq<Tok>)
    requires rest != [] && 0 < j <= |rest| && Expandable(c, rest[0]) && AllHide(body, Hidden(rest[0]))
    ensures LessAbove(c, 0, body + rest[j..], rest)
  {
    hide Expandable, LessAbove, Hidden;
    var t := rest[0];
    forall x | x in body ensures Rank(c, x) < Rank(c, t) { RankFalls(c, t, x); }
    ReplacedFewer(c, t, rest[1..j], rest[j..], body);
    assert [t] + rest[1..j] + rest[j..] == rest;
  }

  /** One step: if everything with fewer tokens halts, so does `rest`. */
  lemma StepHalts(c: Names, rest: seq<Tok>)
    requires forall x | LessAbove(c, 0, x, rest) :: Halts(c, x)
    ensures Halts(c, rest)
  {
    hide LessAbove, NextOf, Subst, Hidden, Spaced, Expandable, AllHide;
    if rest == [] {
      assert !Expand(c, rest, 0).Spent?;
    } else {
      NextFacts(c, rest);
      match NextOf(c, rest)
      case Keep(_) =>
        TailFewer(c, rest);
        var f: nat :| !Expand(c, rest[1..], f).Spent?;
        assert !Expand(c, rest, f + 1).Spent?;
      case Refuse =>
        assert !Expand(c, rest, 1).Spent?;
      case Replace(body) =>
        BodyFewer(c, rest, 1, body);
        var f: nat :| !Expand(c, body + rest[1..], f).Spent?;
        assert !Expand(c, rest, f + 1).Spent?;
      case Call(m, args, j) =>
        CallHalts(c, rest, m, args, j);
    }
  }

  lemma CallHalts(c: Names, rest: seq<Tok>, m: Macro, args: seq<seq<Tok>>, j: nat)
    requires forall x | LessAbove(c, 0, x, rest) :: Halts(c, x)
    requires rest != [] && NextOf(c, rest) == Call(m, args, j) && Expandable(c, rest[0]) && 2 <= j < |rest|
    ensures Halts(c, rest)
  {
    hide LessAbove, NextOf, Subst, Hidden, Spaced, Expandable, AllHide;
    var t := rest[0];
    forall a | a in args ensures Halts(c, a) { ArgumentFewer(c, rest, a); }
    var f := SubstEnds(c, m, args, Hidden(t), t.line, 0);
    var s := Subst(c, m, args, Hidden(t), t.line, 0, f);
    if s.Expanded? {
      SubstHides(c, m, args, Hidden(t), t.line, 0, f);
      SpacedHides(s.toks, t.ws, Hidden(t));
      BodyFewer(c, rest, j + 1, Spaced(s.toks, t.ws));
      var next := Spaced(s.toks, t.ws) + rest[j + 1..];
      var h: nat :| !Expand(c, next, h).Spent?;
      var g := if h < f then f else h;
      ExpandMore(c, next, h, g);
      SubstMore(c, m, args, Hidden(t), t.line, 0, f, g);
      assert !Expand(c, rest, g + 1).Spent?;
    } else {
      assert !Expand(c, rest, f + 1).Spent?;
    }
  }

  lemma StillLess(c: Names, b: nat, x: seq<Tok>, y: seq<Tok>, z: seq<Tok>)
    requires LessAbove(c, b, x, y) && forall q: nat | b <= q :: Count(c, y, q) == Count(c, z, q)
    ensures LessAbove(c, b, x, z)
  {
    hide Count;
    var k: nat :| b <= k && LessAt(c, k, x, y);
    assert LessAt(c, k, x, z);
  }

  /** Descent in the multiset order: if everything less from rank `b` up halts, so does `rest`. */
  lemma {:induction false} Climb(c: Names, b: nat, rest: seq<Tok>)
    requires forall x | LessAbove(c, b, x, rest) :: Halts(c, x)
    ensures Halts(c, rest)
    decreases b, if b == 0 then 0 else Count(c, rest, b - 1)
  {
    hide Count, Halts;
    if b == 0 {
      StepHalts(c, rest);
    } else {
      forall x | LessAbove(c, b - 1, x, rest) ensures Halts(c, x) {
        var k: nat :| b - 1 <= k && LessAt(c, k, x, rest);
        if k >= b {
          assert LessAbove(c, b, x, rest);
        } else {
          forall y | LessAbove(c, b, y, x) ensures Halts(c, y) { StillLess(c, b, y, x, rest); }
          Climb(c, b, x);
        }
      }
      Climb(c, b - 1, rest);
    }
  }

  /** Macro expansion ends on every input, whatever the macros are. */
  lemma ExpansionEnds(c: Names, toks: seq<Tok>)
    ensures Halts(c, toks)
  {
    hide Count, Halts, LessAbove;
    var b := |c.macros.Keys| + 1;
    forall x ensures !LessAbove(c, b, x, toks) { NothingHigher(c, x, toks); }
    Climb(c, b, toks);
  }

  lemma NothingHigher(c: Names, x: seq<Tok>, y: seq<Tok>)
    ensures !LessAbove(c, |c.macros.Keys| + 1, x, y)
  {
    hide Count;
    forall k: nat | |c.macros.Keys| + 1 <= k ensures !LessAt(c, k, x, y) { RankBound(c, y, k); }
  }

  // ----- what is left -----

  predicate ObjectName(c: Names, t: Tok) {
    Expandable(c, t) && c.macros[t.text].params.None?
  }

  /** No name of an object-like macro is left that the token is not hidden from. */
  lemma {:induction false} Thorough(c: Names, rest: seq<Tok>, fuel: nat)
    requires Plain(c) && Expand(c, rest, fuel).Expanded?
    ensures forall t | t in Expand(c, rest, fuel).toks :: !ObjectName(c, t)
    decreases fuel
  {
    hide Subst, Spaced, Hidden, Collect, IsIdent;
    if rest != [] {
      NextFacts(c, rest);
      match NextOf(c, rest)
      case Keep(t') => Thorough(c, rest[1..], fuel - 1);
      case Replace(body) => Thorough(c, body + rest[1..], fuel - 1);
      case Call(m, args, j) =>
        var s := Subst(c, m, args, Hidden(rest[0]), rest[0].line, 0, fuel - 1);
        Thorough(c, Spaced(s.toks, rest[0].ws) + rest[j + 1..], fuel - 1);
    }
  }

  // A token expansion leaves alone, whatever follows it.
  predicate Inert(c: Names, t: Tok) {
    !IsIdent(t.text) || t.text in t.hidden || (t.text != "__LINE__" && t.text != "__FILE__" && t.text !in c.macros)
  }

  lemma {:induction false} InertStays(c: Names, ts: seq<Tok>, fuel: nat)
    requires (forall t | t in ts :: Inert(c, t)) && |ts| <= fuel
    ensures Expand(c, ts, fuel) == Expanded(ts)
    decreases |ts|
  {
    hide IsIdent;
    if ts != [] {
      assert ts[0] in ts && NextOf(c, ts) == Keep(ts[0]);
      InertStays(c, ts[1..], fuel - 1);
      assert [ts[0]] + ts[1..] == ts;
    }
  }

  ghost predicate AllObjectLike(c: Names) {
    forall name | name in c.macros :: c.macros[name].params.None?
  }

  lemma {:induction false} AllInert(c: Names, rest: seq<Tok>, fuel: nat)
    requires Plain(c) && AllObjectLike(c) && Expand(c, rest, fuel).Expanded?
    ensures forall t | t in Expand(c, rest, fuel).toks :: Inert(c, t)
    decreases fuel
  {
    hide IsIdent, BodyOf;
    if rest != [] {
      match NextOf(c, rest)
      case Keep(t') => AllInert(c, rest[1..], fuel - 1);
      case Replace(body) => AllInert(c, body + rest[1..], fuel - 1);
      case Call(m, args, j) =>
      case Refuse =>
    }
  }

  /** With object-like macros only, expanding once is enough. */
  lemma OnceIsEnough(c: Names, toks: seq<Tok>, fuel: nat, again: nat)
    requires Plain(c) && AllObjectLike(c) && Expand(c, toks, fuel).Expanded? && |Expand(c, toks, fuel).toks| <= again
    ensures Expand(c, Expand(c, toks, fuel).toks, again) == Expand(c, toks, fuel)
  {
    AllInert(c, toks, fuel);
    InertStays(c, Expand(c, toks, fuel).toks, again);
  }

  // ----- the loops -----

  method CollectArguments(toks: seq<Tok>, i: nat, variadic: bool, nargs: nat) returns (args: seq<seq<Tok>>, j: nat)
    requires i + 2 <= |toks|
    ensures i <= j && (args, j - i) == Collect(toks[i..], 2, 0, [[]], variadic, nargs)
  {
    args, j := [[]], i + 2;
    var depth := 0;
    ghost var all := Collect(toks[i..], 2, 0, [[]], variadic, nargs);
    while j < |toks|
      invariant i + 2 <= j <= |toks| && args != [] && depth >= 0
      invariant all == Collect(toks[i..], j - i, depth, args, variadic, nargs)
    {
      var a := toks[j];
      assert toks[i..][j - i] == a;
      if a.text == "(" {
        depth := depth + 1;
      } else if a.text == ")" {
        if depth == 0 { break; }
        depth := depth - 1;
      }
      if a.text == "," && depth == 0 && (!variadic || |args| < nargs) {
        args := args + [[]];
      } else {
        args := args[|args| - 1 := args[|args| - 1] + [a]];
      }
      j := j + 1;
    }
  }

  method PasteChain(m: Macro, args: seq<seq<Tok>>, hidden: set<string>, line: nat, i0: nat) returns (acc: seq<Tok>, i: nat)
    requires i0 < |m.body|
    ensures (acc, i) == Chain(m, args, hidden, line, i0, Spaced(Operand(m, args, hidden, line, m.body[i0]), m.body[i0].ws))
  {
    hide Operand, Pasted;
    acc, i := Spaced(Operand(m, args, hidden, line, m.body[i0]), m.body[i0].ws), i0;
    ghost var all := Chain(m, args, hidden, line, i0, acc);
    while i + 2 < |m.body| && m.body[i + 1].text == "##"
      invariant i0 <= i && all == Chain(m, args, hidden, line, i, acc)
    {
      i := i + 2;
      var b := m.body[i];
      acc := Pasted(acc, Operand(m, args, hidden, line, b), b.text, hidden, line);
    }
  }

  // The expansions of arguments are kept, each under its parameter's name.
  ghost predicate CacheOk(c: Names, m: Macro, args: seq<seq<Tok>>, cache: map<string, seq<Tok>>, fuel: nat) {
    forall name | name in cache :: ArgOf(m, args, name).Some? && Expand(c, ArgOf(m, args, name).value, fuel) == Expanded(cache[name])
  }

  lemma PrefixedTwice(x: seq<Tok>, y: seq<Tok>, r: Result)
    ensures Prefixed(x, Prefixed(y, r)) == Prefixed(x + y, r)
    ensures Prefixed([], r) == r && (Prefixed(x, r).Spent? <==> r.Spent?) && (r.Wrong? ==> Prefixed(x, r) == r)
  {
    if r.Expanded? { assert x + (y + r.toks) == (x + y) + r.toks; }
  }

  // How one token of the body is substituted.
  lemma SubstStep(c: Names, m: Macro, args: seq<seq<Tok>>, hidden: set<string>, line: nat, i: nat, fuel: nat)
    requires i < |m.body|
    ensures var b := m.body[i]; var r := Subst(c, m, args, hidden, line, i, fuel);
      if b.text == "#" && i + 1 < |m.body| && ArgOf(m, args, m.body[i + 1].text).Some? then
        r == Prefixed([Tok(Stringized(ArgOf(m, args, m.body[i + 1].text).value), b.ws, line, hidden)], Subst(c, m, args, hidden, line, i + 2, fuel))
      else if i + 1 < |m.body| && m.body[i + 1].text == "##" then
        var (acc, k) := Chain(m, args, hidden, line, i, Spaced(Operand(m, args, hidden, line, b), b.ws));
        r == Prefixed(acc, Subst(c, m, args, hidden, line, k + 1, fuel))
      else if ArgOf(m, args, b.text).None? then
        r == Prefixed([Tok(b.text, b.ws, line, hidden)], Subst(c, m, args, hidden, line, i + 1, fuel))
      else
        var e := Expand(c, ArgOf(m, args, b.text).value, fuel);
        if e.Expanded? then r == Prefixed(Spaced(Rehide(e.toks, hidden), b.ws), Subst(c, m, args, hidden, line, i + 1, fuel)) else r == e
  {
    hide Chain, Operand, Spaced, Rehide, Expand, ArgOf, Stringized;
  }

  lemma CacheMore(c: Names, m: Macro, args: seq<seq<Tok>>, cache: map<string, seq<Tok>>, fuel: nat, name: string, e: seq<Tok>)
    requires CacheOk(c, m, args, cache, fuel)
    requires ArgOf(m, args, name).Some? && Expand(c, ArgOf(m, args, name).value, fuel) == Expanded(e)
    ensures CacheOk(c, m, args, cache[name := e], fuel)
  {
    hide ArgOf, Expand;
  }

  lemma CacheAt(c: Names, m: Macro, args: seq<seq<Tok>>, cache: map<string, seq<Tok>>, fuel: nat, name: string)
    requires CacheOk(c, m, args, cache, fuel) && name in cache
    ensures ArgOf(m, args, name).Some? && Expand(c, ArgOf(m, args, name).value, fuel) == Expanded(cache[name])
  {
    hide ArgOf, Expand;
  }

  lemma NoCache(c: Names, m: Macro, args: seq<seq<Tok>>, fuel: nat)
    ensures CacheOk(c, m, args, map[], fuel)
  {
  }

  lemma SubstDone(c: Names, m: Macro, args: seq<seq<Tok>>, hidden: set<string>, line: nat, i: nat, fuel: nat, out: seq<Tok>)
    requires i >= |m.body|
    ensures Prefixed(out, Subst(c, m, args, hidden, line, i, fuel)) == Expanded(out)
  {
    assert out + [] == out;
  }

  method Substitute(c: Names, m: Macro, args: seq<seq<Tok>>, hidden: set<string>, line: nat, ghost fuel: nat) returns (r: Result)
    requires !Subst(c, m, args, hidden, line, 0, fuel).Spent?
    ensures r == Subst(c, m, args, hidden, line, 0, fuel)
    decreases fuel, 1
  {
    hide Chain, Operand, Spaced, Rehide, Expand, ArgOf, Stringized, Subst, Prefixed, CacheOk;
    var out: seq<Tok>, i := [], 0;
    var cache: map<string, seq<Tok>> := map[];
    ghost var all := Subst(c, m, args, hidden, line, 0, fuel);
    PrefixedTwice([], [], all);
    NoCache(c, m, args, fuel);
    while i < |m.body|
      invariant all == Prefixed(out, Subst(c, m, args, hidden, line, i, fuel))
      invariant CacheOk(c, m, args, cache, fuel)
      decreases |m.body| - i
    {
      var b := m.body[i];
      SubstStep(c, m, args, hidden, line, i, fuel);
      PrefixedTwice(out, [], Subst(c, m, args, hidden, line, i, fuel));
      if b.text == "#" && i + 1 < |m.body| && ArgOf(m, args, m.body[i + 1].text).Some? {
        PrefixedTwice(out, [Tok(Stringized(ArgOf(m, args, m.body[i + 1].text).value), b.ws, line, hidden)], Subst(c, m, args, hidden, line, i + 2, fuel));
        out := out + [Tok(Stringized(ArgOf(m, args, m.body[i + 1].text).value), b.ws, line, hidden)];
        i := i + 2;
      } else if i + 1 < |m.body| && m.body[i + 1].text == "##" {
        var acc, k := PasteChain(m, args, hidden, line, i);
        PrefixedTwice(out, acc, Subst(c, m, args, hidden, line, k + 1, fuel));
        out := out + acc;
        i := k + 1;
      } else if ArgOf(m, args, b.text).Some? {
        if b.text !in cache {
          var e := ExpandTokens(c, ArgOf(m, args, b.text).value, fuel);
          if e.Wrong? { return Wrong; }
          CacheMore(c, m, args, cache, fuel, b.text, e.toks);
          cache := cache[b.text := e.toks];
        }
        CacheAt(c, m, args, cache, fuel, b.text);
        PrefixedTwice(out, Spaced(Rehide(cache[b.text], hidden), b.ws), Subst(c, m, args, hidden, line, i + 1, fuel));
        out := out + Spaced(Rehide(cache[b.text], hidden), b.ws);
        i := i + 1;
      } else {
        PrefixedTwice(out, [Tok(b.text, b.ws, line, hidden)], Subst(c, m, args, hidden, line, i + 1, fuel));
        out := out + [Tok(b.text, b.ws, line, hidden)];
        i := i + 1;
      }
    }
    SubstDone(c, m, args, hidden, line, i, fuel, out);
    r := Expanded(out);
  }

  // How expansion goes on after its next token.
  lemma ExpandStep(c: Names, rest: seq<Tok>, f: nat, out: seq<Tok>)
    requires rest != [] && !Prefixed(out, Expand(c, rest, f)).Spent?
    ensures f > 0
    ensures match NextOf(c, rest)
      case Keep(t) => Prefixed(out, Expand(c, rest, f)) == Prefixed(out + [t], Expand(c, rest[1..], f - 1))
      case Refuse => Prefixed(out, Expand(c, rest, f)) == Wrong
      case Replace(body) => Expand(c, rest, f) == Expand(c, body + rest[1..], f - 1)
      case Call(m, args, j) =>
        var s := Subst(c, m, args, Hidden(rest[0]), rest[0].line, 0, f - 1);
        !s.Spent? && j < |rest| && (s.Wrong? ==> Prefixed(out, Expand(c, rest, f)) == Wrong)
        && (s.Expanded? ==> Expand(c, rest, f) == Expand(c, Spaced(s.toks, rest[0].ws) + rest[j + 1..], f - 1))
  {
    hide Subst, NextOf, Hidden, Spaced, Expandable, AllHide;
    NextFacts(c, rest);
    if NextOf(c, rest).Keep? { PrefixedTwice(out, [NextOf(c, rest).t], Expand(c, rest[1..], f - 1)); }
  }

  lemma ExpandDone(c: Names, f: nat, out: seq<Tok>)
    ensures Prefixed(out, Expand(c, [], f)) == Expanded(out)
  {
    assert out + [] == out;
  }

  method ExpandTokens(c: Names, input: seq<Tok>, ghost fuel: nat) returns (r: Result)
    requires !Expand(c, input, fuel).Spent?
    ensures r == Expand(c, input, fuel)
    decreases fuel, 0
  {
    hide Subst, Collect, Spaced, Hidden, BodyOf, IsIdent, Expand, Prefixed, Fitted, Padded, WrongCount;
    var toks, out, i := input, [], 0;
    ghost var f: nat := fuel;
    assert toks[0..] == toks;
    PrefixedTwice([], [], Expand(c, input, fuel));
    while i < |toks|
      invariant i <= |toks| && f <= fuel
      invariant Expand(c, input, fuel) == Prefixed(out, Expand(c, toks[i..], f))
      decreases f
    {
      var t := toks[i];
      ghost var rest := toks[i..];
      assert rest[0] == t && rest[1..] == toks[i + 1..];
      ExpandStep(c, rest, f, out);
      f := f - 1;
      if !IsIdent(t.text) || t.text in t.hidden {
        out, i := out + [t], i + 1;
      } else if t.text == "__LINE__" {
        out, i := out + [t.(text := c.lineText(t.line))], i + 1;
      } else if t.text == "__FILE__" {
        out, i := out + [t.(text := c.fileText)], i + 1;
      } else if t.text !in c.macros {
        out, i := out + [t], i + 1;
      } else {
        var m := c.macros[t.text];
        if m.params.None? {
          toks := toks[..i] + BodyOf(m, t) + toks[i + 1..];
          assert toks[i..] == BodyOf(m, t) + rest[1..];
        } else if i + 1 >= |toks| || toks[i + 1].text != "(" {
          out, i := out + [t], i + 1;
        } else {
          assert rest[1] == toks[i + 1];
          var args, j := CollectArguments(toks, i, m.variadic, Arity(m));
          if j >= |toks| {
            out, i := out + [t], i + 1;
          } else if WrongCount(m, Fitted(args, Arity(m))) {
            return Wrong;
          } else {
            args := Padded(Fitted(args, Arity(m)), Arity(m));
            assert NextOf(c, rest) == Call(m, args, j - i);
            assert rest[j - i + 1..] == toks[j + 1..];
            var s := Substitute(c, m, args, Hidden(t), t.line, f);
            if s.Wrong? { return Wrong; }
            var body := Spaced(s.toks, t.ws);
            toks := toks[..i] + body + toks[j + 1..];
            assert toks[i..] == body + rest[j - i + 1..];
          }
        }
      }
    }
    assert toks[i..] == [];
    ExpandDone(c, f, out);
    r := Expanded(out);
  }

  /** Expansion: always a result, and no macro name left in it that should have been replaced. */
  method ExpandAll(c: Names, input: seq<Tok>) returns (r: Result)
    requires Plain(c)
    ensures !r.Spent? && exists fuel: nat :: r == Expand(c, input, fuel)
    ensures forall fuel: nat | !Expand(c, input, fuel).Spent? :: r == Expand(c, input, fuel)
    ensures r.Expanded? ==> forall t | t in r.toks :: !ObjectName(c, t)
  {
    hide Expand, Plain, ObjectName;
    ExpansionEnds(c, input);
    ghost var fuel: nat :| !Expand(c, input, fuel).Spent?;
    r := ExpandTokens(c, input, fuel);
    if r.Expanded? { Thorough(c, input, fuel); }
    forall g: nat | !Expand(c, input, g).Spent? ensures r == Expand(c, input, g) {
      if g < fuel { ExpandMore(c, input, g, fuel); } else { ExpandMore(c, input, fuel, g); }
    }
  }
}
