/** The GLR fork explorer (src/lalr.ts:724-899). */
module Glr {
  import opened Options
  import opened Grammars
  import opened FirstSets
  import opened Automata
  import opened Tables
  import opened Resolution
  import opened Machine
  import opened Restore
  import opened Frames
  import opened Control

  /** The work on one token: the live frames by key, those still to be processed, those already
      shifted past the token, and the next frame id. */
  datatype Position = Position(active: map<Key, Frame>, worklist: seq<Frame>, shifted: seq<Frame>, counter: nat)

  // A new frame in place of two converging ones.
  function MergeInto(e: Frame, f: Frame, id: nat): Frame {
    Frame(id, e.state, Both(e.value, f.value), e.parent)
  }

  // The frame that is live at `f`'s key once `f` has been registered: it, or its merge with what was there.
  function Survivor(p: Position, f: Frame): Frame {
    if KeyOf(f) in p.active then MergeInto(p.active[KeyOf(f)], f, p.counter + 1) else f
  }

  /** Register a frame made at this position (with the next id), merging it with whatever is live at its key. */
  function Register(p: Position, f: Frame): Position {
    var top := Survivor(p, f);
    Position(p.active[KeyOf(f) := top], p.worklist + [top], p.shifted, p.counter + if KeyOf(f) in p.active then 2 else 1)
  }

  // ----- bookkeeping -----

  // `made`: every frame so far. `seen`: those registered on this token. `done`: those processed.
  datatype Log = Log(made: set<Frame>, seen: set<Frame>, done: set<Frame>)

  ghost predicate ActiveOk(p: Position, l: Log) {
    forall k | k in p.active :: p.active[k] in l.seen && KeyOf(p.active[k]) == k
  }

  ghost predicate Pending(p: Position, l: Log) {
    forall k | k in p.active :: p.active[k] in l.done || p.active[k] in p.worklist
  }

  ghost predicate Booked(p: Position, l: Log) {
    && Family(l.made, p.counter) && l.seen <= l.made && l.done <= l.seen
    && (forall f | f in p.shifted :: f in l.made && f.parent.Some?)
    && (forall f | f in p.worklist :: f in l.seen)
    && ActiveOk(p, l)
    && (forall f | f in l.seen :: KeyOf(f) in p.active)
  }

  ghost predicate Has(s: set<Frame>, states: seq<nat>) {
    exists f :: f in s && StatesOf(f) == states
  }

  ghost predicate HasShifted(s: seq<Frame>, states: seq<nat>) {
    exists f :: f in s && StatesOf(f) == states
  }

  // The log after `Register`.
  ghost function Logged(p: Position, l: Log, f: Frame): Log {
    Log(l.made + {f, Survivor(p, f)}, l.seen + {Survivor(p, f)}, l.done)
  }

  // A frame just made on top of one made before.
  ghost predicate NewTop(p: Position, l: Log, f: Frame) {
    f.id == p.counter && f.parent.Some? && f.parent.value in l.made
  }

  // The frame that ends up live at `f`'s key stands on the same stack as `f`.
  lemma SurvivorSame(p: Position, l: Log, f: Frame)
    requires Booked(p, l) && NewTop(p, l, f)
    ensures StatesOf(Survivor(p, f)) == StatesOf(f) && Survivor(p, f).parent == f.parent
    ensures Survivor(p, f).state == f.state
    ensures Family(l.made + {f, Survivor(p, f)}, Register(p, f).counter)
  {
    var top := Survivor(p, f);
    FamilyGrows(l.made, p.counter, f);
    if KeyOf(f) in p.active {
      SameKey(l.made + {f}, p.counter + 1, p.active[KeyOf(f)], f);
      FamilyGrows(l.made + {f}, p.counter + 1, top);
      assert l.made + {f, top} == l.made + {f} + {top};
    } else {
      assert l.made + {f, top} == l.made + {f};
    }
  }

  lemma RegisterBooked(p: Position, l: Log, f: Frame)
    requires Booked(p, l) && NewTop(p, l, f)
    ensures Booked(Register(p, f), Logged(p, l, f)) && Has(Logged(p, l, f).seen, StatesOf(f))
  {
    SurvivorSame(p, l, f);
    assert Survivor(p, f) in Logged(p, l, f).seen;
  }

  lemma RegisterPending(p: Position, l: Log, f: Frame)
    requires Pending(p, l)
    ensures Pending(Register(p, f), Logged(p, l, f))
  {
    var p' := Register(p, f);
    forall k | k in p'.active ensures p'.active[k] in l.done || p'.active[k] in p'.worklist {
      if k == KeyOf(f) {
        assert p'.worklist[|p'.worklist| - 1] == p'.active[k];
      } else {
        assert p'.active[k] == p.active[k];
      }
    }
  }

  // ----- what holds while a token is being processed -----

  ghost predicate Reached(g: Grammar, pt: ParseTables, t: Terminal, start: set<Frame>, states: seq<nat>) {
    exists b :: b in start && Reducible(g, pt, t, StatesOf(b), states)
  }

  ghost predicate ConsumedFrom(g: Grammar, pt: ParseTables, t: Terminal, start: set<Frame>, states: seq<nat>) {
    exists b :: b in start && Consumes(g, pt, t, StatesOf(b), states)
  }

  // Nothing live or shifted without a run that leads there.
  ghost predicate ReachInv(g: Grammar, pt: ParseTables, t: Terminal, start: set<Frame>, p: Position, l: Log) {
    && (forall f | f in l.seen :: Reached(g, pt, t, start, StatesOf(f)))
    && (forall f | f in p.shifted :: ConsumedFrom(g, pt, t, start, StatesOf(f)))
  }

  ghost predicate ValuesInv(g: Grammar, bs: Basis, input: seq<Token>, pos: nat, p: Position, l: Log) {
    && (forall f | f in l.seen :: FrameOk(g, bs, input, f, pos))
    && (forall f | f in p.shifted :: FrameOk(g, bs, input, f, pos + 1))
  }

  // The outcome of choice `x` on a stack is already represented.
  ghost predicate Covered(g: Grammar, pt: ParseTables, p: Position, l: Log, states: seq<nat>, x: Action) {
    match x
    case ShiftTo(q) => HasShifted(p.shifted, states + [q])
    case ReduceBy(r) => PopGoto(g, pt, states, r).Some? ==> Has(l.seen, PopGoto(g, pt, states, r).value)
    case AcceptAll => false
    case _ => true
  }

  ghost predicate FrameCovered(g: Grammar, pt: ParseTables, t: Terminal, p: Position, l: Log, f: Frame) {
    forall x | x in Choices(pt, f.state, t) :: Covered(g, pt, p, l, StatesOf(f), x)
  }

  ghost predicate CoverInv(g: Grammar, pt: ParseTables, t: Terminal, p: Position, l: Log, hole: set<Frame>) {
    forall f | f in l.done && f !in hole :: FrameCovered(g, pt, t, p, l, f)
  }

  ghost predicate Larger(p: Position, l: Log, p': Position, l': Log) {
    p.shifted <= p'.shifted && l.seen <= l'.seen && l.made <= l'.made && l.done == l'.done
  }

  lemma CoveredStays(g: Grammar, pt: ParseTables, p: Position, l: Log, p': Position, l': Log, states: seq<nat>, x: Action)
    requires Covered(g, pt, p, l, states, x) && Larger(p, l, p', l')
    ensures Covered(g, pt, p', l', states, x)
  {
    match x
    case ShiftTo(q) =>
      var f :| f in p.shifted && StatesOf(f) == states + [q];
      assert f in p'.shifted;
    case ReduceBy(r) =>
      if PopGoto(g, pt, states, r).Some? {
        var f :| f in l.seen && StatesOf(f) == PopGoto(g, pt, states, r).value;
        assert f in l'.seen;
      }
    case _ =>
  }

  lemma CoverStays(g: Grammar, pt: ParseTables, t: Terminal, p: Position, l: Log, p': Position, l': Log, hole: set<Frame>)
    requires CoverInv(g, pt, t, p, l, hole) && Larger(p, l, p', l')
    ensures CoverInv(g, pt, t, p', l', hole)
  {
    forall f | f in l'.done && f !in hole ensures FrameCovered(g, pt, t, p', l', f) {
      assert FrameCovered(g, pt, t, p, l, f);
      forall x | x in Choices(pt, f.state, t) ensures Covered(g, pt, p', l', StatesOf(f), x) {
        CoveredStays(g, pt, p, l, p', l', StatesOf(f), x);
      }
    }
  }

  // ----- shifting -----

  function Shifted(p: Position, path: Frame, q: nat, tok: Token): Position {
    p.(shifted := p.shifted + [Frame(p.counter, q, Leaf(tok), Some(path))], counter := p.counter + 1)
  }

  ghost function ShiftLogged(p: Position, l: Log, path: Frame, q: nat, tok: Token): Log {
    l.(made := l.made + {Frame(p.counter, q, Leaf(tok), Some(path))})
  }

  lemma ShiftBooked(p: Position, l: Log, path: Frame, q: nat, tok: Token)
    requires Booked(p, l) && Pending(p, l) && path in l.seen
    ensures var p', l' := Shifted(p, path, q, tok), ShiftLogged(p, l, path, q, tok);
            Booked(p', l') && Pending(p', l') && Larger(p, l, p', l')
  {
    FamilyGrows(l.made, p.counter, Frame(p.counter, q, Leaf(tok), Some(path)));
  }

  lemma ShiftReach(g: Grammar, pt: ParseTables, t: Terminal, start: set<Frame>, p: Position, l: Log, path: Frame, q: nat, tok: Token)
    requires ReachInv(g, pt, t, start, p, l) && path in l.seen && ShiftTo(q) in Choices(pt, path.state, t)
    ensures ReachInv(g, pt, t, start, Shifted(p, path, q, tok), ShiftLogged(p, l, path, q, tok))
    ensures HasShifted(Shifted(p, path, q, tok).shifted, StatesOf(path) + [q])
  {
    var f := Frame(p.counter, q, Leaf(tok), Some(path));
    var p' := Shifted(p, path, q, tok);
    assert Reached(g, pt, t, start, StatesOf(path));
    var b :| b in start && Reducible(g, pt, t, StatesOf(b), StatesOf(path));
    ShiftConsumes(g, pt, t, StatesOf(b), StatesOf(path), q);
    assert ConsumedFrom(g, pt, t, start, StatesOf(f));
    assert p'.shifted[|p.shifted|] == f;
  }

  lemma ShiftFrameOk(g: Grammar, bs: Basis, pt: ParseTables, input: seq<Token>, pos: nat, path: Frame, q: nat, id: nat)
    requires Backed(g, bs, pt) && Kinds(input) && FrameOk(g, bs, input, path, pos)
    requires ShiftTo(q) in Choices(pt, path.state, TokenAt(input, pos).kind)
    ensures FrameOk(g, bs, input, Frame(id, q, Leaf(TokenAt(input, pos)), Some(path)), pos + 1)
  {
    hide Backed, Kinds, Fine, Choices;
    StackShaped(path);
    FineShift(g, bs, pt, input, StackOf(path), pos, q);
    StackPushed(Frame(id, q, Leaf(TokenAt(input, pos)), Some(path)), path);
  }

  lemma ShiftValues(g: Grammar, bs: Basis, input: seq<Token>, pos: nat, p: Position, l: Log, path: Frame, q: nat, tok: Token)
    requires ValuesInv(g, bs, input, pos, p, l)
    requires FrameOk(g, bs, input, Frame(p.counter, q, Leaf(tok), Some(path)), pos + 1)
    ensures ValuesInv(g, bs, input, pos, Shifted(p, path, q, tok), ShiftLogged(p, l, path, q, tok))
  {
  }

  // ----- reducing -----

  /** Pop `n` values, deepest first. */
  method PopValues(f: Frame, n: nat) returns (top: Frame, vals: seq<Tree>)
    requires n <= |ValuesOf(f)|
    ensures Ancestor(f, n) == Some(top) && vals == ValuesOf(f)[|ValuesOf(f)| - n..]
  {
    top, vals := f, [];
    var i := 0;
    while i < n
      invariant 0 <= i <= n && Ancestor(f, i) == Some(top)
      invariant vals == ValuesOf(f)[|ValuesOf(f)| - i..]
    {
      AncestorStack(f, i + 1);
      AncestorNext(f, i);
      PoppedValue(f, i, top);
      vals := [top.value] + vals;
      top := top.parent.value;
      i := i + 1;
    }
  }

  lemma {:induction false} AncestorNext(f: Frame, i: nat)
    requires Ancestor(f, i).Some? && Ancestor(f, i + 1).Some?
    ensures Ancestor(f, i).value.parent == Ancestor(f, i + 1)
  {
    if i > 0 { AncestorNext(f.parent.value, i - 1); }
  }

  lemma PoppedValue(f: Frame, i: nat, top: Frame)
    requires i < |ValuesOf(f)| && Ancestor(f, i) == Some(top)
    ensures ValuesOf(f)[|ValuesOf(f)| - (i + 1)..] == [top.value] + ValuesOf(f)[|ValuesOf(f)| - i..]
  {
    AncestorStack(f, i);
    var all, n := ValuesOf(f), |ValuesOf(f)| - i;
    assert ValuesOf(top) == all[..n];
    assert all[..n][n - 1] == top.value;
  }

  function ReducedFrame(g: Grammar, pt: ParseTables, id: nat, top: Frame, r: nat, peeked: seq<Tree>, kids: seq<Tree>): Option<Frame>
    requires r < |g|
  {
    match GotoAt(pt, top.state, g[r].lhs)
    case None => None
    case Some(q) => Some(Frame(id, q, Node(r, peeked, kids), Some(top)))
  }

  /** The frame a reduction makes stands on the stack the machine's reduction leaves. */
  lemma ReducedFrameStack(g: Grammar, pt: ParseTables, f: Frame, r: nat, top: Frame, id: nat, base: nat)
    requires r < |g| && base + |g[r].rhs| == |ValuesOf(f)| && g[r].peek <= base && Ancestor(f, |g[r].rhs|) == Some(top)
    ensures var made := ReducedFrame(g, pt, id, top, r, ValuesOf(f)[base - g[r].peek..base], ValuesOf(f)[base..]);
            && Shaped(StackOf(f))
            && (made.Some? ==> Reduced(g, pt, StackOf(f), r) == Some(StackOf(made.value)))
            && PopGoto(g, pt, StatesOf(f), r) == if made.Some? then Some(StatesOf(made.value)) else None
  {
    AncestorStack(f, |g[r].rhs|);
    StackShaped(f);
    StackShaped(top);
    assert StatesOf(f)[base] == StatesOf(f)[..base + 1][base];
    assert top.state == StatesOf(f)[base];
  }

  // ----- one token -----

  ghost predicate Working(g: Grammar, bs: Basis, pt: ParseTables, input: seq<Token>, pos: nat, t: Terminal, start: set<Frame>,
                          p: Position, l: Log, hole: set<Frame>) {
    && Booked(p, l) && Pending(p, l)
    && ReachInv(g, pt, t, start, p, l) && ValuesInv(g, bs, input, pos, p, l) && CoverInv(g, pt, t, p, l, hole)
  }

  lemma RegisterReach(g: Grammar, pt: ParseTables, t: Terminal, start: set<Frame>, p: Position, l: Log, f: Frame)
    requires Booked(p, l) && NewTop(p, l, f) && ReachInv(g, pt, t, start, p, l) && Reached(g, pt, t, start, StatesOf(f))
    ensures ReachInv(g, pt, t, start, Register(p, f), Logged(p, l, f))
  {
    SurvivorSame(p, l, f);
  }

  lemma RegisterValues(g: Grammar, bs: Basis, input: seq<Token>, pos: nat, p: Position, l: Log, f: Frame)
    requires AutomatonOk(g, bs.auto) && Booked(p, l) && NewTop(p, l, f) && ValuesInv(g, bs, input, pos, p, l)
    requires FrameOk(g, bs, input, f, pos)
    ensures ValuesInv(g, bs, input, pos, Register(p, f), Logged(p, l, f))
  {
    hide AutomatonOk, FrameOk;
    if KeyOf(f) in p.active {
      var e := p.active[KeyOf(f)];
      FamilyGrows(l.made, p.counter, f);
      SameKey(l.made + {f}, p.counter + 1, e, f);
      MergeOk(g, bs, input, e, f, f.parent.value, pos, p.counter + 1);
    }
  }

  lemma RegisterCovers(g: Grammar, pt: ParseTables, t: Terminal, p: Position, l: Log, hole: set<Frame>, f: Frame)
    requires CoverInv(g, pt, t, p, l, hole)
    ensures CoverInv(g, pt, t, Register(p, f), Logged(p, l, f), hole) && Larger(p, l, Register(p, f), Logged(p, l, f))
  {
    hide CoverInv;
    CoverStays(g, pt, t, p, l, Register(p, f), Logged(p, l, f), hole);
  }

  /** Registering a frame that some run reaches keeps everything in order. */
  lemma RegisterWorks(g: Grammar, bs: Basis, pt: ParseTables, input: seq<Token>, pos: nat, t: Terminal, start: set<Frame>,
                      p: Position, l: Log, hole: set<Frame>, f: Frame)
    requires AutomatonOk(g, bs.auto) && Working(g, bs, pt, input, pos, t, start, p, l, hole) && NewTop(p, l, f)
    requires Reached(g, pt, t, start, StatesOf(f)) && FrameOk(g, bs, input, f, pos)
    ensures Working(g, bs, pt, input, pos, t, start, Register(p, f), Logged(p, l, f), hole)
  {
    hide AutomatonOk, FrameOk, Booked, Pending, ReachInv, ValuesInv, CoverInv, NewTop, Register, Logged, Reached;
    RegisterBooked(p, l, f);
    RegisterPending(p, l, f);
    RegisterReach(g, pt, t, start, p, l, f);
    RegisterValues(g, bs, input, pos, p, l, f);
    RegisterCovers(g, pt, t, p, l, hole, f);
  }

  lemma ReduceReach(g: Grammar, pt: ParseTables, t: Terminal, start: set<Frame>, states: seq<nat>, r: nat)
    requires Reached(g, pt, t, start, states) && states != [] && ReduceBy(r) in Choices(pt, Last(states), t)
    requires PopGoto(g, pt, states, r).Some?
    ensures Reached(g, pt, t, start, PopGoto(g, pt, states, r).value)
  {
    var b :| b in start && Reducible(g, pt, t, StatesOf(b), states);
    ReducibleMore(g, pt, t, StatesOf(b), states, r);
  }

  // A frame whose row offers a reduction is deep enough for it.
  lemma PathFits(g: Grammar, bs: Basis, pt: ParseTables, input: seq<Token>, pos: nat, t: Terminal, f: Frame, r: nat)
      returns (base: nat)
    requires Backed(g, bs, pt)
    requires FrameOk(g, bs, input, f, pos) && ReduceBy(r) in Choices(pt, f.state, t)
    ensures r < |g| && base + |g[r].rhs| == |ValuesOf(f)| && g[r].peek <= base && Shaped(StackOf(f))
    ensures Reduced(g, pt, StackOf(f), r).Some?
    ensures forall f' | StackOf(f') == Reduced(g, pt, StackOf(f), r).value :: FrameOk(g, bs, input, f', pos)
  {
    hide Backed, Fine, Choices, Reduced;
    StackShaped(f);
    FineReduce(g, bs, pt, input, StackOf(f), pos, t, r);
    base := |ValuesOf(f)| - |g[r].rhs|;
  }

  lemma EndOfFront<T>(s: seq<T>, base: nat, p: nat)
    requires p <= base <= |s|
    ensures s[..base][base - p..] == s[base - p..base]
  {
  }

  lemma ReducePlaced(g: Grammar, pt: ParseTables, t: Terminal, start: set<Frame>, p: Position, l: Log, path: Frame, r: nat, top: Frame)
    requires Booked(p, l) && ReachInv(g, pt, t, start, p, l) && path in l.seen
    requires r < |g| && ReduceBy(r) in Choices(pt, path.state, t) && Ancestor(path, |g[r].rhs|) == Some(top)
    requires PopGoto(g, pt, StatesOf(path), r).Some?
    ensures top in l.made && Reached(g, pt, t, start, PopGoto(g, pt, StatesOf(path), r).value)
  {
    AncestorMade(l.made, p.counter, path, |g[r].rhs|);
    ReduceReach(g, pt, t, start, StatesOf(path), r);
  }

  /** Build the frame a reduction leads to: the values of its right-hand side, and below them those its
      action peeks at. */
  method Reduce(g: Grammar, ghost bs: Basis, pt: ParseTables, ghost input: seq<Token>, ghost pos: nat, ghost t: Terminal,
                id: nat, path: Frame, r: nat) returns (top: Frame, made: Option<Frame>)
    requires Backed(g, bs, pt)
    requires FrameOk(g, bs, input, path, pos) && ReduceBy(r) in Choices(pt, path.state, t) && r < |g|
    ensures Ancestor(path, |g[r].rhs|) == Some(top) && made.Some?
    ensures made.value.id == id && made.value.parent == Some(top) && FrameOk(g, bs, input, made.value, pos)
    ensures Reduced(g, pt, StackOf(path), r) == Some(StackOf(made.value))
    ensures PopGoto(g, pt, StatesOf(path), r) == Some(StatesOf(made.value))
  {
    hide Backed, FrameOk, Choices;
    ghost var base := PathFits(g, bs, pt, input, pos, t, path, r);
    ghost var vals := ValuesOf(path);
    AncestorStack(path, |g[r].rhs|);
    var kids;
    top, kids := PopValues(path, |g[r].rhs|);
    assert ValuesOf(top) == vals[..base];
    var _, peeked := PopValues(top, g[r].peek);
    EndOfFront(vals, base, g[r].peek);
    made := ReducedFrame(g, pt, id, top, r, peeked, kids);
    ReducedFrameStack(g, pt, path, r, top, id, base);
  }

  // ----- one frame -----

  /** Apply one action to a frame. Anything but a shift or a reduce counts as accepting. */
  method ApplyAction(g: Grammar, ghost bs: Basis, pt: ParseTables, input: seq<Token>, pos: nat, ghost start: set<Frame>,
                     p: Position, ghost l: Log, path: Frame, x: Action)
      returns (p': Position, ghost l': Log, accepted: Option<Tree>)
    requires Backed(g, bs, pt) && Kinds(input)
    requires Working(g, bs, pt, input, pos, TokenAt(input, pos).kind, start, p, l, {path}) && path in l.seen
    requires x in Choices(pt, path.state, TokenAt(input, pos).kind)
    ensures Working(g, bs, pt, input, pos, TokenAt(input, pos).kind, start, p', l', {path}) && Larger(p, l, p', l')
    ensures if x.ShiftTo? || x.ReduceBy? then accepted.None? && Covered(g, pt, p', l', StatesOf(path), x)
            else accepted == Some(path.value)
  {
    hide Backed, Kinds, FrameOk, Choices, ReachInv, Pending, Booked, CoverInv;
    p', l', accepted := p, l, None;
    SeenFrame(g, bs, pt, input, pos, TokenAt(input, pos).kind, start, p, l, {path}, path);
    match x {
      case ShiftTo(q) =>
        ShiftWorks(g, bs, pt, input, pos, start, p, l, path, q);
        p' := Shifted(p, path, q, TokenAt(input, pos));
        l' := ShiftLogged(p, l, path, q, TokenAt(input, pos));
      case ReduceBy(r) =>
        RuleOf(g, bs, pt, input, pos, path, r);
        var top, made := Reduce(g, bs, pt, input, pos, TokenAt(input, pos).kind, p.counter, path, r);
        ReduceWorks(g, bs, pt, input, pos, start, p, l, path, r, top, made.value);
        p', l' := Register(p, made.value), Logged(p, l, made.value);
      case _ => accepted := Some(path.value);
    }
  }

  lemma SeenFrame(g: Grammar, bs: Basis, pt: ParseTables, input: seq<Token>, pos: nat, t: Terminal, start: set<Frame>,
                  p: Position, l: Log, hole: set<Frame>, f: Frame)
    requires Working(g, bs, pt, input, pos, t, start, p, l, hole) && f in l.seen
    ensures FrameOk(g, bs, input, f, pos) && Reached(g, pt, t, start, StatesOf(f)) && f in l.made && Larger(p, l, p, l)
  {
  }

  lemma RuleOf(g: Grammar, bs: Basis, pt: ParseTables, input: seq<Token>, pos: nat, f: Frame, r: nat)
    requires Backed(g, bs, pt) && FrameOk(g, bs, input, f, pos) && ReduceBy(r) in Choices(pt, f.state, TokenAt(input, pos).kind)
    ensures r < |g|
  {
    var _ := PathFits(g, bs, pt, input, pos, TokenAt(input, pos).kind, f, r);
  }

  lemma ShiftGrows(p: Position, l: Log, path: Frame, q: nat, tok: Token)
    ensures Larger(p, l, Shifted(p, path, q, tok), ShiftLogged(p, l, path, q, tok))
  {
  }

  lemma ShiftWorks(g: Grammar, bs: Basis, pt: ParseTables, input: seq<Token>, pos: nat, start: set<Frame>,
                   p: Position, l: Log, path: Frame, q: nat)
    requires Backed(g, bs, pt) && Kinds(input)
    requires Working(g, bs, pt, input, pos, TokenAt(input, pos).kind, start, p, l, {path}) && path in l.seen
    requires ShiftTo(q) in Choices(pt, path.state, TokenAt(input, pos).kind)
    ensures var p', l' := Shifted(p, path, q, TokenAt(input, pos)), ShiftLogged(p, l, path, q, TokenAt(input, pos));
            && Working(g, bs, pt, input, pos, TokenAt(input, pos).kind, start, p', l', {path})
            && Larger(p, l, p', l') && Covered(g, pt, p', l', StatesOf(path), ShiftTo(q))
  {
    hide Backed, Kinds, FrameOk, Choices, ReachInv, Pending, Booked, CoverInv, ValuesInv,
      Shifted, ShiftLogged;
    var tok := TokenAt(input, pos);
    SeenFrame(g, bs, pt, input, pos, tok.kind, start, p, l, {path}, path);
    ShiftBooked(p, l, path, q, tok);
    ShiftReach(g, pt, tok.kind, start, p, l, path, q, tok);
    ShiftFrameOk(g, bs, pt, input, pos, path, q, p.counter);
    ShiftValues(g, bs, input, pos, p, l, path, q, tok);
    ShiftGrows(p, l, path, q, tok);
    CoverStays(g, pt, tok.kind, p, l, Shifted(p, path, q, tok), ShiftLogged(p, l, path, q, tok), {path});
  }

  lemma ReduceWorks(g: Grammar, bs: Basis, pt: ParseTables, input: seq<Token>, pos: nat, start: set<Frame>,
                    p: Position, l: Log, path: Frame, r: nat, top: Frame, made: Frame)
    requires Backed(g, bs, pt)
    requires Working(g, bs, pt, input, pos, TokenAt(input, pos).kind, start, p, l, {path}) && path in l.seen
    requires r < |g| && ReduceBy(r) in Choices(pt, path.state, TokenAt(input, pos).kind)
    requires Ancestor(path, |g[r].rhs|) == Some(top)
    requires made.id == p.counter && made.parent == Some(top) && FrameOk(g, bs, input, made, pos)
    requires PopGoto(g, pt, StatesOf(path), r) == Some(StatesOf(made))
    ensures Working(g, bs, pt, input, pos, TokenAt(input, pos).kind, start, Register(p, made), Logged(p, l, made), {path})
    ensures Larger(p, l, Register(p, made), Logged(p, l, made))
    ensures Covered(g, pt, Register(p, made), Logged(p, l, made), StatesOf(path), ReduceBy(r))
  {
    hide FrameOk, Choices, ReachInv, Pending, Booked, CoverInv, ValuesInv, WellFormed, AutomatonOk, ActionsJustified, GotosLead,
      Register, Logged, Larger, Reached, Has;
    ReducePlaced(g, pt, TokenAt(input, pos).kind, start, p, l, path, r, top);
    RegisterWorks(g, bs, pt, input, pos, TokenAt(input, pos).kind, start, p, l, {path}, made);
    RegisterBooked(p, l, made);
    RegisterCovers(g, pt, TokenAt(input, pos).kind, p, l, {path}, made);
  }

  lemma LargerTransitive(p: Position, l: Log, p': Position, l': Log, p'': Position, l'': Log)
    requires Larger(p, l, p', l') && Larger(p', l', p'', l'')
    ensures Larger(p, l, p'', l'')
  {
  }

  // The first `n` choices have been taken care of; accepting ones are known.
  ghost predicate Taken(g: Grammar, pt: ParseTables, p: Position, l: Log, path: Frame, choices: seq<Action>, n: nat, accepted: Option<Tree>)
    requires n <= |choices|
  {
    && (forall i | 0 <= i < n && (choices[i].ShiftTo? || choices[i].ReduceBy?) :: Covered(g, pt, p, l, StatesOf(path), choices[i]))
    && (forall i | 0 <= i < n && !(choices[i].ShiftTo? || choices[i].ReduceBy?) :: accepted.Some?)
    && (accepted.Some? ==> accepted.value == path.value && exists i :: 0 <= i < n && !(choices[i].ShiftTo? || choices[i].ReduceBy?))
  }

  lemma TakenMore(g: Grammar, pt: ParseTables, p: Position, l: Log, p': Position, l': Log, path: Frame, choices: seq<Action>, n: nat,
                  accepted: Option<Tree>, now: Option<Tree>)
    requires n < |choices| && Taken(g, pt, p, l, path, choices, n, accepted) && Larger(p, l, p', l')
    requires if choices[n].ShiftTo? || choices[n].ReduceBy? then now.None? && Covered(g, pt, p', l', StatesOf(path), choices[n])
             else now == Some(path.value)
    ensures Taken(g, pt, p', l', path, choices, n + 1, if now.Some? then now else accepted)
  {
    hide Covered, Larger;
    forall i | 0 <= i < n && (choices[i].ShiftTo? || choices[i].ReduceBy?) ensures Covered(g, pt, p', l', StatesOf(path), choices[i]) {
      CoveredStays(g, pt, p, l, p', l', StatesOf(path), choices[i]);
    }
    if now.Some? { assert !(choices[n].ShiftTo? || choices[n].ReduceBy?); }
  }

  // No row would have the lexer drop a token of this kind: such a token never reaches the parser.
  ghost predicate NotIgnored(pt: ParseTables, t: Terminal) {
    forall s :: t in RowAt(pt, s) ==> !RowAt(pt, s)[t].IgnoreToken?
  }

  /** Process one live frame: apply its entry, every alternative of it if the entry is a conflict. */
  method Process(g: Grammar, ghost bs: Basis, pt: ParseTables, input: seq<Token>, pos: nat, ghost start: set<Frame>,
                 p: Position, ghost l: Log, path: Frame) returns (p': Position, ghost l': Log, accepted: Option<Tree>)
    requires Backed(g, bs, pt) && Kinds(input) && NotIgnored(pt, TokenAt(input, pos).kind)
    requires Working(g, bs, pt, input, pos, TokenAt(input, pos).kind, start, p, l, {path}) && path in l.seen
    ensures Working(g, bs, pt, input, pos, TokenAt(input, pos).kind, start, p', l', {path}) && Larger(p, l, p', l')
    ensures var choices := Choices(pt, path.state, TokenAt(input, pos).kind);
            Taken(g, pt, p', l', path, choices, |choices|, accepted)
  {
    hide Backed, Kinds, Working, Larger, Taken;
    p', l', accepted := p, l, None;
    LargerSelf(p, l);
    var t := TokenAt(input, pos).kind;
    TakenNone(g, pt, p, l, path, Choices(pt, path.state, t));
    var row := RowAt(pt, path.state);
    if t in row && !row[t].ErrorToken? {
      var entry := row[t];
      assert entry == RowAt(pt, path.state)[t];
      var inner := if entry.Conflict? then entry.entries else [entry];
      for i := 0 to |inner|
        invariant inner == Choices(pt, path.state, t)
        invariant Working(g, bs, pt, input, pos, t, start, p', l', {path}) && Larger(p, l, p', l') && path in l'.seen
        invariant Taken(g, pt, p', l', path, inner, i, accepted)
      {
        ghost var p0, l0 := p', l';
        var now;
        p', l', now := ApplyAction(g, bs, pt, input, pos, start, p', l', path, inner[i]);
        TakenMore(g, pt, p0, l0, p', l', path, inner, i, accepted, now);
        LargerTransitive(p, l, p0, l0, p', l');
        LargerSeen(p0, l0, p', l', path);
        accepted := if now.Some? then now else accepted;
      }
    }
  }

  lemma LargerSelf(p: Position, l: Log)
    ensures Larger(p, l, p, l)
  {
  }

  lemma LargerSeen(p: Position, l: Log, p': Position, l': Log, f: Frame)
    requires Larger(p, l, p', l') && f in l.seen
    ensures f in l'.seen
  {
  }

  lemma TakenNone(g: Grammar, pt: ParseTables, p: Position, l: Log, path: Frame, choices: seq<Action>)
    ensures Taken(g, pt, p, l, path, choices, 0, None)
  {
  }

  // ----- one token -----

  const MAX_TOTAL_WORK := 50_000

  function LiveFrames(active: map<Key, Frame>): set<Frame> {
    set k | k in active :: active[k]
  }

  // Frames that can be live before a token is processed.
  ghost predicate Opening(g: Grammar, bs: Basis, input: seq<Token>, pos: nat, active: map<Key, Frame>, made: set<Frame>, counter: nat) {
    && Family(made, counter)
    && (forall k | k in active :: active[k] in made && KeyOf(active[k]) == k && FrameOk(g, bs, input, active[k], pos))
  }

  // Everything live is in `fs`, whatever the order.
  ghost predicate Lists(fs: seq<Frame>, active: map<Key, Frame>) {
    && (forall f | f in fs :: f in LiveFrames(active))
    && (forall k | k in active :: active[k] in fs)
  }

  method ListFrames(active: map<Key, Frame>) returns (fs: seq<Frame>)
    ensures Lists(fs, active)
  {
    fs := [];
    var keys := active.Keys;
    while keys != {}
      invariant keys <= active.Keys
      invariant forall f | f in fs :: f in LiveFrames(active)
      invariant forall k | k in active && k !in keys :: active[k] in fs
      decreases keys
    {
      var k :| k in keys;
      keys := keys - {k};
      fs := fs + [active[k]];
    }
  }

  lemma OpeningBooked(g: Grammar, bs: Basis, input: seq<Token>, pos: nat, active: map<Key, Frame>, fs: seq<Frame>, made: set<Frame>, counter: nat)
    requires Opening(g, bs, input, pos, active, made, counter) && Lists(fs, active)
    ensures Booked(Position(active, fs, [], counter), Log(made, LiveFrames(active), {}))
    ensures Pending(Position(active, fs, [], counter), Log(made, LiveFrames(active), {}))
  {
    hide FrameOk, Family, KeyOf;
  }

  lemma OpeningWorks(g: Grammar, bs: Basis, pt: ParseTables, input: seq<Token>, pos: nat, t: Terminal, active: map<Key, Frame>,
                     fs: seq<Frame>, made: set<Frame>, counter: nat)
    requires Opening(g, bs, input, pos, active, made, counter) && Lists(fs, active)
    ensures Working(g, bs, pt, input, pos, t, LiveFrames(active), Position(active, fs, [], counter), Log(made, LiveFrames(active), {}), {})
  {
    hide FrameOk, Reducible, StatesOf, KeyOf, Booked, Pending, Lists, Family, Covered;
    OpeningBooked(g, bs, input, pos, active, fs, made, counter);
    var start := LiveFrames(active);
    forall f | f in start ensures Reached(g, pt, t, start, StatesOf(f)) {
      ReducibleSelf(g, pt, t, StatesOf(f));
    }
  }

  // Taking the first frame off the worklist, to process it if it is still live.
  function Popped(p: Position): Position
    requires p.worklist != []
  {
    p.(worklist := p.worklist[1..])
  }

  predicate IsLive(p: Position, f: Frame) {
    KeyOf(f) in p.active && p.active[KeyOf(f)] == f
  }

  ghost function Begun(l: Log, f: Frame): Log {
    l.(done := l.done + {f})
  }

  lemma FirstOrRest<T>(s: seq<T>, x: T)
    requires s != [] && x in s
    ensures x == s[0] || x in s[1..]
  {
  }

  lemma PopPending(p: Position, l: Log)
    requires p.worklist != [] && Pending(p, l) && Booked(p, l)
    ensures if IsLive(p, p.worklist[0]) then Pending(Popped(p), Begun(l, p.worklist[0])) else Pending(Popped(p), l)
  {
    var f := p.worklist[0];
    forall k | k in p.active && p.active[k] !in l.done ensures p.active[k] == f || p.active[k] in p.worklist[1..] {
      FirstOrRest(p.worklist, p.active[k]);
    }
  }

  lemma PopBooked(p: Position, l: Log)
    requires p.worklist != [] && Booked(p, l)
    ensures Booked(Popped(p), l) && Booked(Popped(p), Begun(l, p.worklist[0])) && p.worklist[0] in l.seen
  {
    assert forall f | f in p.worklist[1..] :: f in p.worklist;
  }

  lemma CoverSame(g: Grammar, pt: ParseTables, t: Terminal, p: Position, l: Log, hole: set<Frame>, f: Frame)
    requires CoverInv(g, pt, t, p, l, hole) && p.worklist != []
    ensures CoverInv(g, pt, t, Popped(p), l, hole) && CoverInv(g, pt, t, Popped(p), Begun(l, f), hole + {f})
  {
    hide Covered;
    var p', l' := Popped(p), Begun(l, f);
    forall h | h in l.done && h !in hole ensures FrameCovered(g, pt, t, p', l, h) && FrameCovered(g, pt, t, p', l', h) {
      assert FrameCovered(g, pt, t, p, l, h);
      forall x | x in Choices(pt, h.state, t) ensures Covered(g, pt, p', l, StatesOf(h), x) && Covered(g, pt, p', l', StatesOf(h), x) {
        CoveredSame(g, pt, p, l, p', l', StatesOf(h), x);
      }
    }
  }

  lemma CoveredSame(g: Grammar, pt: ParseTables, p: Position, l: Log, p': Position, l': Log, states: seq<nat>, x: Action)
    requires Covered(g, pt, p, l, states, x) && p'.shifted == p.shifted && l'.seen == l.seen
    ensures Covered(g, pt, p', l, states, x) && Covered(g, pt, p', l', states, x)
  {
  }

  lemma PopWorks(g: Grammar, bs: Basis, pt: ParseTables, input: seq<Token>, pos: nat, t: Terminal, start: set<Frame>, p: Position, l: Log)
    requires Working(g, bs, pt, input, pos, t, start, p, l, {}) && p.worklist != []
    ensures var f := p.worklist[0];
            f in l.seen &&
            if IsLive(p, f) then Working(g, bs, pt, input, pos, t, start, Popped(p), Begun(l, f), {f})
            else Working(g, bs, pt, input, pos, t, start, Popped(p), l, {})
  {
    hide Pending, Booked, CoverInv, Reached, ConsumedFrom, FrameOk;
    PopBooked(p, l);
    PopPending(p, l);
    CoverSame(g, pt, t, p, l, {}, p.worklist[0]);
    assert {} + {p.worklist[0]} == {p.worklist[0]};
  }

  // Once every choice of the frame is covered, there is no hole left.
  lemma HoleFilled(g: Grammar, bs: Basis, pt: ParseTables, input: seq<Token>, pos: nat, t: Terminal, start: set<Frame>, p: Position, l: Log, path: Frame)
    requires Working(g, bs, pt, input, pos, t, start, p, l, {path}) && Backed(g, bs, pt) && path in l.seen
    requires Taken(g, pt, p, l, path, Choices(pt, path.state, t), |Choices(pt, path.state, t)|, None)
    ensures Working(g, bs, pt, input, pos, t, start, p, l, {})
  {
    hide Pending, Booked, ReachInv, ValuesInv, Covered, Backed;
    forall x | x in Choices(pt, path.state, t) ensures Covered(g, pt, p, l, StatesOf(path), x) {
      var i :| 0 <= i < |Choices(pt, path.state, t)| && Choices(pt, path.state, t)[i] == x;
      assert x.ShiftTo? || x.ReduceBy?;
    }
    assert FrameCovered(g, pt, t, p, l, path);
  }

  // Whatever was registered, some processed frame stands on the same stack.
  lemma Represented(g: Grammar, bs: Basis, pt: ParseTables, input: seq<Token>, pos: nat, t: Terminal, start: set<Frame>,
                    p: Position, l: Log, f: Frame) returns (d: Frame)
    requires Working(g, bs, pt, input, pos, t, start, p, l, {}) && p.worklist == [] && f in l.seen
    ensures d in l.done && StatesOf(d) == StatesOf(f) && d.state == f.state && FrameCovered(g, pt, t, p, l, d)
  {
    hide FrameCovered, ReachInv, ValuesInv;
    d := p.active[KeyOf(f)];
    SameKey(l.made, p.counter, d, f);
  }

  // Covered choices of a stack that was registered.
  lemma SeenCovered(g: Grammar, bs: Basis, pt: ParseTables, input: seq<Token>, pos: nat, t: Terminal, start: set<Frame>,
                    p: Position, l: Log, states: seq<nat>, x: Action)
    requires Working(g, bs, pt, input, pos, t, start, p, l, {}) && p.worklist == [] && Has(l.seen, states)
    requires states != [] && x in Choices(pt, Last(states), t)
    ensures Covered(g, pt, p, l, states, x)
  {
    hide Working, Covered, Choices;
    var f :| f in l.seen && StatesOf(f) == states;
    var d := Represented(g, bs, pt, input, pos, t, start, p, l, f);
    assert x in Choices(pt, d.state, t);
  }

  // Whatever reductions lead to from a registered stack is registered.
  lemma {:induction false} ReductionsSeen(g: Grammar, bs: Basis, pt: ParseTables, input: seq<Token>, pos: nat, t: Terminal, start: set<Frame>,
                                          p: Position, l: Log, states: seq<nat>, rules: seq<nat>)
    requires Working(g, bs, pt, input, pos, t, start, p, l, {}) && p.worklist == [] && Has(l.seen, states)
    requires Reductions(g, pt, t, states, rules).Some?
    ensures Has(l.seen, Reductions(g, pt, t, states, rules).value)
    decreases |rules|
  {
    hide Working, Choices;
    if rules != [] {
      var init, r := rules[..|rules| - 1], rules[|rules| - 1];
      ReductionsSeen(g, bs, pt, input, pos, t, start, p, l, states, init);
      var mid := Reductions(g, pt, t, states, init).value;
      SeenCovered(g, bs, pt, input, pos, t, start, p, l, mid, ReduceBy(r));
    }
  }

  lemma ConsumedIsShifted(g: Grammar, bs: Basis, pt: ParseTables, input: seq<Token>, pos: nat, t: Terminal, start: set<Frame>,
                          p: Position, l: Log, states: seq<nat>)
    requires Working(g, bs, pt, input, pos, t, start, p, l, {}) && p.worklist == [] && start <= l.seen
    requires ConsumedFrom(g, pt, t, start, states)
    ensures HasShifted(p.shifted, states)
  {
    hide Working, Choices, Reductions, StatesOf;
    var b :| b in start && Consumes(g, pt, t, StatesOf(b), states);
    var mid := states[..|states| - 1];
    var rules :| Reductions(g, pt, t, StatesOf(b), rules) == Some(mid);
    ReductionsSeen(g, bs, pt, input, pos, t, start, p, l, StatesOf(b), rules);
    SeenCovered(g, bs, pt, input, pos, t, start, p, l, mid, ShiftTo(Last(states)));
    assert mid + [Last(states)] == states;
  }

  lemma NoneAccepts(g: Grammar, bs: Basis, pt: ParseTables, input: seq<Token>, pos: nat, t: Terminal, start: set<Frame>,
                    p: Position, l: Log, b: Frame)
    requires Working(g, bs, pt, input, pos, t, start, p, l, {}) && p.worklist == [] && start <= l.seen && b in start
    ensures !AcceptsNow(g, pt, t, StatesOf(b))
  {
    hide Working, Choices, Reductions, StatesOf;
    if AcceptsNow(g, pt, t, StatesOf(b)) {
      var mid :| mid != [] && Reducible(g, pt, t, StatesOf(b), mid) && AcceptAll in Choices(pt, Last(mid), t);
      var rules :| Reductions(g, pt, t, StatesOf(b), rules) == Some(mid);
      ReductionsSeen(g, bs, pt, input, pos, t, start, p, l, StatesOf(b), rules);
      SeenCovered(g, bs, pt, input, pos, t, start, p, l, mid, AcceptAll);
    }
  }

  lemma ShiftedFromRun(g: Grammar, bs: Basis, pt: ParseTables, input: seq<Token>, pos: nat, t: Terminal, start: set<Frame>, p: Position, l: Log,
                       states: seq<nat>)
    requires Working(g, bs, pt, input, pos, t, start, p, l, {}) && HasShifted(p.shifted, states)
    ensures ConsumedFrom(g, pt, t, start, states)
  {
    hide Booked, Pending, ValuesInv, CoverInv, Consumes;
  }

  /** Where a frame's row accepts, its value stands for a derivation tree of the start symbol for all that was consumed. */
  lemma AcceptedValue(g: Grammar, bs: Basis, pt: ParseTables, input: seq<Token>, pos: nat, f: Frame, t: Terminal)
    requires Backed(g, bs, pt) && FrameOk(g, bs, input, f, pos) && AcceptAll in Choices(pt, f.state, t)
    ensures pos <= |input| && StandsFor(g, bs.exact, f.value, input[..pos]) && t == End
  {
    hide Backed, Fine, StandsFor, Choices;
    StackShaped(f);
    FineAccept(g, bs, pt, input, StackOf(f), pos, t);
    OnlyValue(f);
  }

  lemma OnlyValue(f: Frame)
    requires |ValuesOf(f)| == 1
    ensures ValuesOf(f)[0] == f.value
  {
  }

  datatype Exploration = Accepted(value: Tree) | Exhausted(shifted: seq<Frame>, counter: nat) | OverBudget

  ghost predicate ShiftedOk(g: Grammar, bs: Basis, input: seq<Token>, pos: nat, shifted: seq<Frame>, made: set<Frame>, counter: nat) {
    Family(made, counter) && forall f | f in shifted :: f in made && f.parent.Some? && FrameOk(g, bs, input, f, pos)
  }

  // The frames past the token stand for exactly the stacks that runs from the live frames lead to.
  ghost predicate ExactlyShifted(g: Grammar, pt: ParseTables, t: Terminal, start: set<Frame>, shifted: seq<Frame>) {
    forall states :: HasShifted(shifted, states) <==> ConsumedFrom(g, pt, t, start, states)
  }

  ghost predicate NowAccepts(g: Grammar, pt: ParseTables, t: Terminal, start: set<Frame>) {
    exists b :: b in start && AcceptsNow(g, pt, t, StatesOf(b))
  }

  lemma AllExact(g: Grammar, bs: Basis, pt: ParseTables, input: seq<Token>, pos: nat, t: Terminal, start: set<Frame>, p: Position, l: Log)
    requires Working(g, bs, pt, input, pos, t, start, p, l, {}) && p.worklist == [] && start <= l.seen
    ensures ExactlyShifted(g, pt, t, start, p.shifted)
  {
    hide Working, HasShifted, ConsumedFrom;
    forall states ensures HasShifted(p.shifted, states) <==> ConsumedFrom(g, pt, t, start, states) {
      if HasShifted(p.shifted, states) { ShiftedFromRun(g, bs, pt, input, pos, t, start, p, l, states); }
      if ConsumedFrom(g, pt, t, start, states) { ConsumedIsShifted(g, bs, pt, input, pos, t, start, p, l, states); }
    }
  }

  /** When nothing is left to process, the shifted frames are exact and no run accepts on this token. */
  lemma AllExplored(g: Grammar, bs: Basis, pt: ParseTables, input: seq<Token>, pos: nat, t: Terminal, start: set<Frame>, p: Position, l: Log)
    requires Working(g, bs, pt, input, pos, t, start, p, l, {}) && p.worklist == [] && start <= l.seen
    ensures ExactlyShifted(g, pt, t, start, p.shifted) && !NowAccepts(g, pt, t, start)
    ensures ShiftedOk(g, bs, input, pos + 1, p.shifted, l.made, p.counter)
  {
    hide Working, ExactlyShifted, AcceptsNow, ShiftedOk;
    AllExact(g, bs, pt, input, pos, t, start, p, l);
    forall b | b in start ensures !AcceptsNow(g, pt, t, StatesOf(b)) {
      NoneAccepts(g, bs, pt, input, pos, t, start, p, l, b);
    }
    AllFine(g, bs, pt, input, pos, t, start, p, l);
  }

  lemma AllFine(g: Grammar, bs: Basis, pt: ParseTables, input: seq<Token>, pos: nat, t: Terminal, start: set<Frame>, p: Position, l: Log)
    requires Working(g, bs, pt, input, pos, t, start, p, l, {})
    ensures ShiftedOk(g, bs, input, pos + 1, p.shifted, l.made, p.counter)
  {
    hide ReachInv, CoverInv, Pending, FrameOk, Family;
  }

  lemma SomeAccepts(g: Grammar, bs: Basis, pt: ParseTables, input: seq<Token>, pos: nat, t: Terminal, start: set<Frame>, p: Position, l: Log, f: Frame)
    requires Reached(g, pt, t, start, StatesOf(f)) && AcceptAll in Choices(pt, f.state, t)
    ensures NowAccepts(g, pt, t, start)
  {
    hide Choices, Reducible;
    var b :| b in start && Reducible(g, pt, t, StatesOf(b), StatesOf(f));
    assert AcceptsNow(g, pt, t, StatesOf(b));
  }

  /** Explore one token from the live frames: every alternative of every entry, merging what converges,
      until nothing is left to process, a frame accepts, or the budget of work is spent. */
  method Explore(g: Grammar, ghost bs: Basis, pt: ParseTables, input: seq<Token>, pos: nat, active: map<Key, Frame>,
                 ghost made: set<Frame>, counter: nat, work: nat)
      returns (out: Exploration, work': nat, ghost made': set<Frame>)
    requires Backed(g, bs, pt) && Kinds(input) && NotIgnored(pt, TokenAt(input, pos).kind)
    requires Opening(g, bs, input, pos, active, made, counter) && work <= MAX_TOTAL_WORK
    ensures out.Accepted? ==>
              && pos <= |input| && StandsFor(g, bs.exact, out.value, input[..pos])
              && TokenAt(input, pos).kind == End && NowAccepts(g, pt, End, LiveFrames(active))
    ensures out.Exhausted? ==>
              && ExactlyShifted(g, pt, TokenAt(input, pos).kind, LiveFrames(active), out.shifted)
              && !NowAccepts(g, pt, TokenAt(input, pos).kind, LiveFrames(active))
              && ShiftedOk(g, bs, input, pos + 1, out.shifted, made', out.counter)
              && work' <= MAX_TOTAL_WORK
    ensures out.OverBudget? <==> work' > MAX_TOTAL_WORK
  {
    hide Backed, Kinds, NotIgnored, Opening, Working, Taken, Larger, StandsFor, FrameOk,
      ExactlyShifted, NowAccepts, ShiftedOk, Reached, Choices, Lists;
    var t := TokenAt(input, pos).kind;
    ghost var start := LiveFrames(active);
    var worklist := ListFrames(active);
    OpeningWorks(g, bs, pt, input, pos, t, active, worklist, made, counter);
    var p := Position(active, worklist, [], counter);
    ghost var l := Log(made, start, {});
    work', made' := work, made;
    while p.worklist != []
      invariant Working(g, bs, pt, input, pos, t, start, p, l, {}) && start <= l.seen
      invariant work' <= MAX_TOTAL_WORK
      decreases MAX_TOTAL_WORK - work'
    {
      work' := work' + 1;
      if work' > MAX_TOTAL_WORK {
        return OverBudget, work', made';
      }
      PopWorks(g, bs, pt, input, pos, t, start, p, l);
      var path := p.worklist[0];
      var live := IsLive(p, path);
      p := Popped(p);
      if live {
        l := Begun(l, path);
        ghost var l0 := l;
        var accepted;
        ghost var p0 := p;
        p, l, accepted := Process(g, bs, pt, input, pos, start, p, l, path);
        LargerStart(p0, l0, p, l, start, path);
        if accepted.Some? {
          TakenAccepts(g, bs, pt, input, pos, start, p, l, path, accepted);
          return Accepted(accepted.value), work', made';
        }
        HoleFilled(g, bs, pt, input, pos, t, start, p, l, path);
      }
    }
    AllExplored(g, bs, pt, input, pos, t, start, p, l);
    out, made' := Exhausted(p.shifted, p.counter), l.made;
  }

  lemma LargerStart(p: Position, l: Log, p': Position, l': Log, start: set<Frame>, path: Frame)
    requires Larger(p, l, p', l') && start <= l.seen && path in l.seen
    ensures start <= l'.seen && path in l'.seen
  {
  }

  lemma TakenAccepts(g: Grammar, bs: Basis, pt: ParseTables, input: seq<Token>, pos: nat, start: set<Frame>, p: Position, l: Log,
                     path: Frame, accepted: Option<Tree>)
    requires Backed(g, bs, pt) && Working(g, bs, pt, input, pos, TokenAt(input, pos).kind, start, p, l, {path}) && path in l.seen
    requires var choices := Choices(pt, path.state, TokenAt(input, pos).kind); Taken(g, pt, p, l, path, choices, |choices|, accepted)
    requires accepted.Some?
    ensures pos <= |input| && StandsFor(g, bs.exact, accepted.value, input[..pos])
    ensures TokenAt(input, pos).kind == End && NowAccepts(g, pt, End, start)
  {
    hide Backed, Working, Covered, StandsFor, NowAccepts, FrameOk, Reached;
    var t := TokenAt(input, pos).kind;
    SeenFrame(g, bs, pt, input, pos, t, start, p, l, {path}, path);
    var i :| 0 <= i < |Choices(pt, path.state, t)| && !(Choices(pt, path.state, t)[i].ShiftTo? || Choices(pt, path.state, t)[i].ReduceBy?);
    ChosenJustified(g, bs, pt, input, pos, path, t, Choices(pt, path.state, t)[i]);
    AcceptedValue(g, bs, pt, input, pos, path, t);
    SomeAccepts(g, bs, pt, input, pos, t, start, p, l, path);
  }

  lemma ChosenJustified(g: Grammar, bs: Basis, pt: ParseTables, input: seq<Token>, pos: nat, f: Frame, t: Terminal, x: Action)
    requires Backed(g, bs, pt) && FrameOk(g, bs, input, f, pos) && x in Choices(pt, f.state, t)
    ensures x.ShiftTo? || x.ReduceBy? || x == AcceptAll
  {
    hide Backed, Fine, Choices;
    StackShaped(f);
    FineChoice(g, bs, pt, input, StackOf(f), pos, t, x);
  }
}
