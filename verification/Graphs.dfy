/** Strongly connected components by an explicit work stack (src/peg.ts:86-135). */
module Graphs {
  import opened Options

  type Edges = map<nat, seq<nat>>

  function Succ(edges: Edges, n: nat): seq<nat> {
    if n in edges then edges[n] else []
  }

  // ----- reachability -----

  ghost predicate Path(edges: Edges, p: seq<nat>) {
    forall i | 0 <= i < |p| - 1 :: p[i + 1] in Succ(edges, p[i])
  }

  ghost predicate PathBetween(edges: Edges, p: seq<nat>, u: nat, v: nat) {
    p != [] && p[0] == u && p[|p| - 1] == v && Path(edges, p)
  }

  ghost predicate Reaches(edges: Edges, u: nat, v: nat) {
    exists p :: PathBetween(edges, p, u, v)
  }

  lemma ReachesSelf(edges: Edges, u: nat)
    ensures Reaches(edges, u, u)
  {
    assert PathBetween(edges, [u], u, u);
  }

  lemma ReachesEdge(edges: Edges, u: nat, v: nat)
    requires v in Succ(edges, u)
    ensures Reaches(edges, u, v)
  {
    assert PathBetween(edges, [u, v], u, v);
  }

  lemma ReachesThen(edges: Edges, u: nat, v: nat, w: nat)
    requires Reaches(edges, u, v) && Reaches(edges, v, w)
    ensures Reaches(edges, u, w)
  {
    hide Succ;
    var p :| PathBetween(edges, p, u, v);
    var q :| PathBetween(edges, q, v, w);
    var r := p + q[1..];
    assert PathBetween(edges, r, u, w) by {
      forall i | 0 <= i < |r| - 1 ensures r[i + 1] in Succ(edges, r[i]) {
        if i < |p| - 1 {
          assert p[i + 1] in Succ(edges, p[i]);
        } else {
          assert q[i - |p| + 2] in Succ(edges, q[i - |p| + 1]);
        }
      }
    }
  }

  // A set that edges do not leave is not left by paths.
  lemma {:induction false} PathStays(edges: Edges, s: set<nat>, p: seq<nat>)
    requires p != [] && Path(edges, p) && p[0] in s
    requires forall u, v | u in s && v in Succ(edges, u) :: v in s
    ensures p[|p| - 1] in s
    decreases |p|
  {
    if |p| > 1 {
      assert p[1] in Succ(edges, p[0]);
      assert Path(edges, p[1..]) by {
        forall i | 0 <= i < |p[1..]| - 1 ensures p[1..][i + 1] in Succ(edges, p[1..][i]) {
          assert p[i + 1 + 1] in Succ(edges, p[i + 1]);
        }
      }
      PathStays(edges, s, p[1..]);
    }
  }

  // ----- the components -----

  ghost function Members(comps: seq<seq<nat>>): set<nat> {
    set i, u | 0 <= i < |comps| && u in comps[i] :: u
  }

  ghost predicate Together(comps: seq<seq<nat>>, u: nat, v: nat) {
    exists i :: 0 <= i < |comps| && u in comps[i] && v in comps[i]
  }

  // No node is listed twice.
  ghost predicate Listed(comp: seq<nat>) {
    comp != [] && forall i, j | 0 <= i < j < |comp| :: comp[i] != comp[j]
  }

  /** The components are disjoint, each holds together, and edges lead to the same or an earlier one. */
  ghost predicate Components(edges: Edges, comps: seq<seq<nat>>) {
    && (forall i | 0 <= i < |comps| :: Listed(comps[i]))
    && (forall i, j, u | 0 <= i < |comps| && 0 <= j < |comps| && u in comps[i] && u in comps[j] :: i == j)
    && (forall i, u, v | 0 <= i < |comps| && u in comps[i] && v in comps[i] :: Reaches(edges, u, v))
    && (forall i, u, v | 0 <= i < |comps| && u in comps[i] && v in Succ(edges, u) :: v in Members(comps[..i + 1]))
  }

  lemma MembersMore(comps: seq<seq<nat>>, c: seq<nat>)
    ensures Members(comps + [c]) == Members(comps) + (set u | u in c)
  {
    var all := comps + [c];
    forall u | u in Members(all) ensures u in Members(comps) || u in c {
      var i :| 0 <= i < |all| && u in all[i];
      if i < |comps| { assert u in comps[i]; }
    }
    forall u | u in Members(comps) ensures u in Members(all) {
      var i :| 0 <= i < |comps| && u in comps[i];
      assert u in all[i];
    }
    forall u | u in c ensures u in Members(all) { assert u in all[|comps|]; }
  }

  // Members of the first components are closed under edges.
  lemma {:induction false} EarlierClosed(edges: Edges, comps: seq<seq<nat>>, n: nat)
    requires Components(edges, comps) && n <= |comps|
    ensures forall u, v | u in Members(comps[..n]) && v in Succ(edges, u) :: v in Members(comps[..n])
  {
    forall u, v | u in Members(comps[..n]) && v in Succ(edges, u) ensures v in Members(comps[..n]) {
      var i :| 0 <= i < n && u in comps[..n][i];
      assert comps[..n][i] == comps[i];
      assert v in Members(comps[..i + 1]);
      var j :| 0 <= j < i + 1 && v in comps[..i + 1][j];
      assert v in comps[..n][j];
    }
  }

  /** Two nodes share a component if and only if each reaches the other. */
  lemma ComponentsExact(edges: Edges, comps: seq<seq<nat>>, u: nat, v: nat)
    requires Components(edges, comps) && u in Members(comps) && v in Members(comps)
    ensures Together(comps, u, v) <==> Reaches(edges, u, v) && Reaches(edges, v, u)
  {
    var i :| 0 <= i < |comps| && u in comps[i];
    var j :| 0 <= j < |comps| && v in comps[j];
    if Reaches(edges, u, v) && Reaches(edges, v, u) {
      NotLater(edges, comps, i, u, j, v);
      NotLater(edges, comps, j, v, i, u);
    }
  }

  lemma NotLater(edges: Edges, comps: seq<seq<nat>>, i: nat, u: nat, j: nat, v: nat)
    requires Components(edges, comps) && i < |comps| && j < |comps| && u in comps[i] && v in comps[j] && Reaches(edges, u, v)
    ensures j <= i
  {
    hide Path;
    var p :| PathBetween(edges, p, u, v);
    assert comps[..i + 1][i] == comps[i];
    EarlierClosed(edges, comps, i + 1);
    PathStays(edges, Members(comps[..i + 1]), p);
    var k :| 0 <= k < i + 1 && v in comps[..i + 1][k];
    assert v in comps[k];
  }

  // ----- the state of the search -----

  // A node being explored, its successors, and how many of them have been looked at.
  datatype Frame = Frame(node: nat, succ: seq<nat>, i: nat)

  datatype State = State(index: map<nat, nat>, low: map<nat, nat>, stack: seq<nat>, work: seq<Frame>)

  ghost predicate Gray(st: State, n: nat) {
    exists k :: 0 <= k < |st.work| && st.work[k].node == n
  }

  function IndexOf(st: State, n: nat): nat {
    if n in st.index then st.index[n] else 0
  }

  function LowOf(st: State, n: nat): nat {
    if n in st.low then st.low[n] else 0
  }

  // A node seen is on the stack or emitted already.
  ghost predicate Marked(st: State, done: set<nat>) {
    && (forall n | n in st.stack :: n in st.index && n in st.low && n !in done)
    && (forall n | n in done :: n in st.index)
    && (forall n | n in st.index :: n in done || n in st.stack)
    && (forall n | n in st.index :: st.index[n] < |st.index|)
  }

  ghost predicate StackSorted(st: State) {
    forall i, j | 0 <= i < j < |st.stack| :: IndexOf(st, st.stack[i]) < IndexOf(st, st.stack[j])
  }

  ghost predicate FramesFine(edges: Edges, st: State) {
    forall k | 0 <= k < |st.work| ::
      st.work[k].node in st.stack && st.work[k].succ == Succ(edges, st.work[k].node) && st.work[k].i <= |st.work[k].succ|
  }

  ghost predicate FramesSorted(st: State) {
    forall i, j | 0 <= i < j < |st.work| :: IndexOf(st, st.work[i].node) < IndexOf(st, st.work[j].node)
  }

  ghost predicate Basic(edges: Edges, st: State, done: set<nat>) {
    Marked(st, done) && StackSorted(st) && FramesFine(edges, st) && FramesSorted(st)
  }

  predicate LookedIn(f: Frame, v: nat) {
    f.i <= |f.succ| && v in f.succ[..f.i]
  }

  // `v` is a successor of `u` that has been looked at: all of them, once `u` is off the work stack.
  ghost predicate Looked(edges: Edges, st: State, u: nat, v: nat) {
    if Gray(st, u) then exists k :: 0 <= k < |st.work| && st.work[k].node == u && LookedIn(st.work[k], v)
    else v in Succ(edges, u)
  }

  ghost predicate Visited(edges: Edges, st: State, done: set<nat>) {
    && (forall u, v | u in done && v in Succ(edges, u) :: v in done)
    && (forall u, v {:trigger Looked(edges, st, u, v)} | u in st.stack && Looked(edges, st, u, v) :: v in st.index)
  }

  // As `Visited`, while `next` is about to be entered.
  ghost predicate VisitedBut(edges: Edges, st: State, done: set<nat>, next: nat) {
    && (forall u, v | u in done && v in Succ(edges, u) :: v in done)
    && (forall u, v {:trigger Looked(edges, st, u, v)} | u in st.stack && Looked(edges, st, u, v) :: v in st.index || v == next)
  }

  // Along the stack, each node reaches those above it.
  ghost predicate Upward(edges: Edges, st: State) {
    forall i, j {:trigger Reaches(edges, st.stack[i], st.stack[j])} | 0 <= i <= j < |st.stack| :: Reaches(edges, st.stack[i], st.stack[j])
  }

  ghost predicate BackTo(edges: Edges, st: State, y: nat, k: nat) {
    k < |st.work| && IndexOf(st, st.work[k].node) <= IndexOf(st, y) && Reaches(edges, y, st.work[k].node)
  }

  // Every node of the stack reaches a node under exploration that is not above it.
  ghost predicate Downward(edges: Edges, st: State) {
    forall y | y in st.stack :: exists k: nat :: BackTo(edges, st, y, k)
  }

  ghost predicate LowReached(edges: Edges, st: State, n: nat) {
    && LowOf(st, n) <= IndexOf(st, n)
    && exists x :: x in st.stack && IndexOf(st, x) == LowOf(st, n) && Reaches(edges, n, x)
  }

  // `y` was found while exploring `work[k]`, and not below a later one.
  predicate Segment(st: State, k: nat, y: nat) {
    && k < |st.work| && IndexOf(st, st.work[k].node) <= IndexOf(st, y)
    && (k + 1 < |st.work| ==> IndexOf(st, y) < IndexOf(st, st.work[k + 1].node))
  }

  // No edge looked at from a node's segment leads below its low link.
  ghost predicate LowBounds(edges: Edges, st: State) {
    forall k: nat, y, x {:trigger Segment(st, k, y), Looked(edges, st, y, x)} |
      Segment(st, k, y) && y in st.stack && x in st.stack && Looked(edges, st, y, x) :: LowOf(st, st.work[k].node) <= IndexOf(st, x)
  }

  /** What every step of the search keeps. */
  ghost predicate Searching(edges: Edges, st: State, done: set<nat>) {
    && Basic(edges, st, done) && Visited(edges, st, done) && Upward(edges, st) && Downward(edges, st) && LowBounds(edges, st)
    && (forall k | 0 <= k < |st.work| :: LowReached(edges, st, st.work[k].node))
  }

  // The same, while `next` is about to be entered.
  ghost predicate Entering(edges: Edges, st: State, done: set<nat>, next: nat) {
    && Basic(edges, st, done) && VisitedBut(edges, st, done, next) && Upward(edges, st) && Downward(edges, st) && LowBounds(edges, st)
    && (forall k | 0 <= k < |st.work| :: LowReached(edges, st, st.work[k].node))
    && next !in st.index
    && (if st.work == [] then st.stack == [] else next in Succ(edges, st.work[|st.work| - 1].node))
  }

  // ----- looking at the next successor -----

  function Advanced(st: State): State
    requires st.work != []
  {
    var n := |st.work| - 1;
    st.(work := st.work[n := st.work[n].(i := st.work[n].i + 1)])
  }

  // It was already emitted: nothing more happens.
  // It is on the stack: its index bounds the low link.
  function Linked(st: State, next: nat): State
    requires st.work != []
  {
    var v := st.work[|st.work| - 1].node;
    var a := Advanced(st);
    a.(low := a.low[v := if IndexOf(st, next) < LowOf(st, v) then IndexOf(st, next) else LowOf(st, v)])
  }

  // It is new: it goes on both stacks.
  function Pushed(edges: Edges, st: State, next: nat): State {
    var n := |st.index|;
    State(st.index[next := n], st.low[next := n], st.stack + [next], st.work + [Frame(next, Succ(edges, next), 0)])
  }

  ghost predicate Next(edges: Edges, st: State, next: nat) {
    st.work != [] && st.work[|st.work| - 1].i < |st.work[|st.work| - 1].succ| && next == st.work[|st.work| - 1].succ[st.work[|st.work| - 1].i]
  }

  lemma GrayKept(st: State, n: nat)
    requires st.work != []
    ensures Gray(Advanced(st), n) <==> Gray(st, n)
  {
    var a := Advanced(st);
    if Gray(st, n) {
      var k :| 0 <= k < |st.work| && st.work[k].node == n;
      assert a.work[k].node == n;
    }
    if Gray(a, n) {
      var k :| 0 <= k < |a.work| && a.work[k].node == n;
      assert st.work[k].node == n;
    }
  }

  // What has been looked at now: as before, and `next` from the node on top.
  lemma LookedAdvanced(edges: Edges, st: State, done: set<nat>, next: nat, u: nat, x: nat)
    requires Basic(edges, st, done) && Next(edges, st, next) && Looked(edges, Advanced(st), u, x)
    ensures Looked(edges, st, u, x) || (u == st.work[|st.work| - 1].node && x == next)
  {
    var a, n := Advanced(st), |st.work| - 1;
    GrayKept(st, u);
    if Gray(st, u) {
      var k :| 0 <= k < |a.work| && a.work[k].node == u && LookedIn(a.work[k], x);
      var f := st.work[k];
      assert f.node == u;
      if k == n {
        assert f.succ[..f.i + 1] == f.succ[..f.i] + [next];
      }
      if LookedIn(f, x) { assert Looked(edges, st, u, x); }
    }
  }

  lemma AdvancedBasic(edges: Edges, st: State, done: set<nat>, next: nat)
    requires Basic(edges, st, done) && Next(edges, st, next)
    ensures Basic(edges, Advanced(st), done)
  {
    hide Succ;
  }

  lemma AdvancedReach(edges: Edges, st: State, next: nat)
    requires st.work != [] && Upward(edges, st) && Downward(edges, st)
    ensures Upward(edges, Advanced(st)) && Downward(edges, Advanced(st))
  {
    var a := Advanced(st);
    forall i, j | 0 <= i <= j < |a.stack| ensures Reaches(edges, a.stack[i], a.stack[j]) {
      assert Reaches(edges, st.stack[i], st.stack[j]);
    }
    forall y | y in a.stack ensures exists k: nat :: BackTo(edges, a, y, k) {
      var k: nat :| BackTo(edges, st, y, k);
      assert BackTo(edges, a, y, k);
    }
  }

  lemma AdvancedVisited(edges: Edges, st: State, done: set<nat>, next: nat)
    requires Basic(edges, st, done) && Visited(edges, st, done) && Next(edges, st, next) && next in st.index
    ensures Visited(edges, Advanced(st), done)
  {
    hide Looked, Basic;
    var a := Advanced(st);
    forall u, x | u in a.stack && Looked(edges, a, u, x) ensures x in a.index {
      LookedAdvanced(edges, st, done, next, u, x);
    }
  }

  lemma SegmentAdvanced(st: State, k: nat, y: nat)
    requires st.work != []
    ensures Segment(Advanced(st), k, y) <==> Segment(st, k, y)
  {
  }

  lemma FramesOrdered(edges: Edges, st: State, done: set<nat>, i: nat, j: nat)
    requires Basic(edges, st, done) && i <= j < |st.work|
    ensures IndexOf(st, st.work[i].node) <= IndexOf(st, st.work[j].node)
  {
  }

  // The top node's segment is the last.
  lemma TopSegment(edges: Edges, st: State, done: set<nat>, k: nat)
    requires Basic(edges, st, done) && st.work != [] && Segment(st, k, st.work[|st.work| - 1].node)
    ensures k == |st.work| - 1
  {
    hide Basic;
    if k + 1 < |st.work| { FramesOrdered(edges, st, done, k + 1, |st.work| - 1); }
  }

  lemma BoundsAt(edges: Edges, st: State, k: nat, y: nat, x: nat)
    requires LowBounds(edges, st) && Segment(st, k, y) && y in st.stack && x in st.stack && Looked(edges, st, y, x)
    ensures LowOf(st, st.work[k].node) <= IndexOf(st, x)
  {
    hide Looked, Segment;
  }

  lemma CrossBounds(edges: Edges, st: State, done: set<nat>, next: nat)
    requires Basic(edges, st, done) && LowBounds(edges, st) && Next(edges, st, next) && next !in st.stack
    ensures LowBounds(edges, Advanced(st))
  {
    hide Looked, Segment, LowBounds;
    var a := Advanced(st);
    forall k: nat, y, x | Segment(a, k, y) && y in a.stack && x in a.stack && Looked(edges, a, y, x)
      ensures k < |a.work| && LowOf(a, a.work[k].node) <= IndexOf(a, x)
    {
      LookedAdvanced(edges, st, done, next, y, x);
      SegmentAdvanced(st, k, y);
      SegmentSize(st, k, y);
      BoundsAt(edges, st, k, y, x);
    }
    BoundsIntro(edges, a);
  }

  lemma SegmentSize(st: State, k: nat, y: nat)
    requires Segment(st, k, y)
    ensures k < |st.work|
  {
  }

  lemma BoundsIntro(edges: Edges, st: State)
    requires forall k: nat, y, x {:trigger Segment(st, k, y), Looked(edges, st, y, x)} |
      Segment(st, k, y) && y in st.stack && x in st.stack && Looked(edges, st, y, x) :: k < |st.work| && LowOf(st, st.work[k].node) <= IndexOf(st, x)
    ensures LowBounds(edges, st)
  {
    hide Looked;
  }

  lemma LowAdvanced(edges: Edges, st: State)
    requires st.work != [] && forall k | 0 <= k < |st.work| :: LowReached(edges, st, st.work[k].node)
    ensures forall k | 0 <= k < |Advanced(st).work| :: LowReached(edges, Advanced(st), Advanced(st).work[k].node)
  {
    hide Reaches;
    var a := Advanced(st);
    forall k | 0 <= k < |a.work| ensures LowReached(edges, a, a.work[k].node) {
      assert LowReached(edges, st, st.work[k].node);
    }
  }

  /** Looking at a successor that was emitted keeps everything. */
  lemma CrossKeeps(edges: Edges, st: State, done: set<nat>, next: nat)
    requires Searching(edges, st, done) && Next(edges, st, next) && next in done
    ensures Searching(edges, Advanced(st), done)
  {
    hide Visited, Upward, Downward, LowBounds, LowReached;
    AdvancedBasic(edges, st, done, next);
    AdvancedVisited(edges, st, done, next);
    AdvancedReach(edges, st, next);
    CrossBounds(edges, st, done, next);
    LowAdvanced(edges, st);
  }

  // ----- a successor on the stack -----

  // Low links matter to nothing but what is said of them.
  lemma LowBasic(edges: Edges, a: State, b: State, done: set<nat>)
    requires b == a.(low := b.low) && (forall n | n in a.low :: n in b.low)
    requires Basic(edges, a, done)
    ensures Basic(edges, b, done)
  {
    hide Succ;
  }

  lemma LowVisited(edges: Edges, a: State, b: State, done: set<nat>)
    requires b == a.(low := b.low) && Visited(edges, a, done)
    ensures Visited(edges, b, done)
  {
    hide Succ, Looked;
    forall u, v | u in b.stack && Looked(edges, b, u, v) ensures v in b.index { LookedLow(edges, a, b, u, v); }
  }

  lemma LowReach(edges: Edges, a: State, b: State)
    requires b == a.(low := b.low) && Upward(edges, a) && Downward(edges, a)
    ensures Upward(edges, b) && Downward(edges, b)
  {
    hide Reaches;
    forall i, j | 0 <= i <= j < |b.stack| ensures Reaches(edges, b.stack[i], b.stack[j]) {
      assert Reaches(edges, a.stack[i], a.stack[j]);
    }
    forall y | y in b.stack ensures exists k: nat :: BackTo(edges, b, y, k) {
      var k: nat :| BackTo(edges, a, y, k);
      assert BackTo(edges, b, y, k);
    }
  }

  lemma LookedLow(edges: Edges, a: State, b: State, u: nat, x: nat)
    requires b == a.(low := b.low)
    ensures Looked(edges, b, u, x) <==> Looked(edges, a, u, x)
  {
    hide LookedIn;
    assert Gray(b, u) <==> Gray(a, u);
  }

  lemma SegmentLow(a: State, b: State, k: nat, y: nat)
    requires b == a.(low := b.low)
    ensures Segment(b, k, y) <==> Segment(a, k, y)
  {
  }

  lemma NodesDiffer(edges: Edges, st: State, done: set<nat>, k: nat)
    requires Basic(edges, st, done) && k < |st.work| - 1
    ensures st.work[k].node != st.work[|st.work| - 1].node
  {
    assert IndexOf(st, st.work[k].node) < IndexOf(st, st.work[|st.work| - 1].node);
  }

  lemma LinkedBounds(edges: Edges, st: State, done: set<nat>, next: nat)
    requires Basic(edges, st, done) && LowBounds(edges, st) && Next(edges, st, next) && next in st.stack
    ensures LowBounds(edges, Linked(st, next))
  {
    hide Looked, Segment, LowBounds, Basic;
    var a, b := Advanced(st), Linked(st, next);
    forall k: nat, y, x | Segment(b, k, y) && y in b.stack && x in b.stack && Looked(edges, b, y, x)
      ensures k < |b.work| && LowOf(b, b.work[k].node) <= IndexOf(b, x)
    {
      LookedLow(edges, a, b, y, x);
      SegmentLow(a, b, k, y);
      LookedAdvanced(edges, st, done, next, y, x);
      SegmentAdvanced(st, k, y);
      SegmentSize(st, k, y);
      if Looked(edges, st, y, x) {
        BoundsAt(edges, st, k, y, x);
      } else {
        TopSegment(edges, st, done, k);
      }
    }
    BoundsIntro(edges, b);
  }

  lemma LinkedLow(edges: Edges, st: State, done: set<nat>, next: nat)
    requires Basic(edges, st, done) && Next(edges, st, next) && next in st.stack
    requires forall k | 0 <= k < |st.work| :: LowReached(edges, st, st.work[k].node)
    ensures forall k | 0 <= k < |Linked(st, next).work| :: LowReached(edges, Linked(st, next), Linked(st, next).work[k].node)
  {
    hide Reaches;
    var b, n := Linked(st, next), |st.work| - 1;
    var v := st.work[n].node;
    assert v in st.stack && v in st.low;
    forall k | 0 <= k < |b.work| ensures LowReached(edges, b, b.work[k].node) {
      assert LowReached(edges, st, st.work[k].node);
      if k < n {
        NodesDiffer(edges, st, done, k);
      } else if IndexOf(st, next) < LowOf(st, v) {
        ReachesEdge(edges, v, next);
        assert next in b.stack && IndexOf(b, next) == LowOf(b, v);
      }
    }
  }

  /** Looking at a successor on the stack keeps everything. */
  lemma LinkedKeeps(edges: Edges, st: State, done: set<nat>, next: nat)
    requires Searching(edges, st, done) && Next(edges, st, next) && next in st.stack
    ensures Searching(edges, Linked(st, next), done)
  {
    hide Visited, Upward, Downward, LowBounds, LowReached;
    AdvancedBasic(edges, st, done, next);
    AdvancedVisited(edges, st, done, next);
    AdvancedReach(edges, st, next);
    LowBasic(edges, Advanced(st), Linked(st, next), done);
    LowVisited(edges, Advanced(st), Linked(st, next), done);
    LowReach(edges, Advanced(st), Linked(st, next));
    LinkedBounds(edges, st, done, next);
    LinkedLow(edges, st, done, next);
  }

  // ----- a new node -----

  lemma PushedMarked(edges: Edges, st: State, done: set<nat>, next: nat)
    requires Marked(st, done) && next !in st.index
    ensures Marked(Pushed(edges, st, next), done)
  {
    hide Succ;
    assert |Pushed(edges, st, next).index| == |st.index| + 1;
  }

  // A node seen keeps its index, below the new one's.
  lemma PushedIndex(edges: Edges, st: State, done: set<nat>, next: nat, n: nat)
    requires Marked(st, done) && next !in st.index && n in st.stack
    ensures n != next && IndexOf(Pushed(edges, st, next), n) == IndexOf(st, n) < |st.index|
    ensures IndexOf(Pushed(edges, st, next), next) == |st.index|
  {
    hide Succ;
  }

  lemma PushedSorted(edges: Edges, st: State, done: set<nat>, next: nat)
    requires Basic(edges, st, done) && next !in st.index
    ensures StackSorted(Pushed(edges, st, next)) && FramesSorted(Pushed(edges, st, next))
  {
    hide IndexOf, Marked, Succ;
    var b := Pushed(edges, st, next);
    forall i, j | 0 <= i < j < |b.stack| ensures IndexOf(b, b.stack[i]) < IndexOf(b, b.stack[j]) {
      PushedIndex(edges, st, done, next, st.stack[i]);
      if j < |st.stack| { PushedIndex(edges, st, done, next, st.stack[j]); }
    }
    forall i, j | 0 <= i < j < |b.work| ensures IndexOf(b, b.work[i].node) < IndexOf(b, b.work[j].node) {
      PushedIndex(edges, st, done, next, st.work[i].node);
      if j < |st.work| { PushedIndex(edges, st, done, next, st.work[j].node); }
    }
  }

  lemma PushedBasic(edges: Edges, st: State, done: set<nat>, next: nat)
    requires Basic(edges, st, done) && next !in st.index
    ensures Basic(edges, Pushed(edges, st, next), done)
  {
    hide Succ, Marked, StackSorted, FramesSorted;
    PushedMarked(edges, st, done, next);
    PushedSorted(edges, st, done, next);
  }

  lemma GrayPushed(edges: Edges, st: State, next: nat, u: nat)
    ensures Gray(Pushed(edges, st, next), u) <==> Gray(st, u) || u == next
  {
    var b := Pushed(edges, st, next);
    if Gray(st, u) {
      var k :| 0 <= k < |st.work| && st.work[k].node == u;
      assert b.work[k].node == u;
    }
    if u == next { assert b.work[|st.work|].node == u; }
  }

  // Nothing has been looked at from the new node.
  lemma LookedPushed(edges: Edges, st: State, done: set<nat>, next: nat, u: nat, x: nat)
    requires Basic(edges, st, done) && next !in st.index && u in st.stack + [next]
    ensures Looked(edges, Pushed(edges, st, next), u, x) <==> u != next && Looked(edges, st, u, x)
  {
    hide Basic, Succ;
    var b := Pushed(edges, st, next);
    GrayPushed(edges, st, next, u);
    NewIsNew(edges, st, done, next);
    if u != next && Gray(st, u) {
      if Looked(edges, st, u, x) {
        var k :| 0 <= k < |st.work| && st.work[k].node == u && LookedIn(st.work[k], x);
        assert b.work[k].node == u && LookedIn(b.work[k], x);
      }
      if Looked(edges, b, u, x) {
        var k :| 0 <= k < |b.work| && b.work[k].node == u && LookedIn(b.work[k], x);
        assert st.work[k].node == u && LookedIn(st.work[k], x);
      }
    }
  }

  lemma NewIsNew(edges: Edges, st: State, done: set<nat>, next: nat)
    requires Basic(edges, st, done) && next !in st.index
    ensures next !in st.stack && next !in done && !Gray(st, next)
  {
    forall k | 0 <= k < |st.work| ensures st.work[k].node != next { assert st.work[k].node in st.stack; }
  }

  lemma PushedVisited(edges: Edges, st: State, done: set<nat>, next: nat)
    requires Basic(edges, st, done) && VisitedBut(edges, st, done, next) && next !in st.index
    ensures Visited(edges, Pushed(edges, st, next), done)
  {
    hide Looked, Basic, Succ;
    var b := Pushed(edges, st, next);
    forall u, x | u in b.stack && Looked(edges, b, u, x) ensures x in b.index {
      LookedPushed(edges, st, done, next, u, x);
    }
  }

  lemma DownAt(edges: Edges, st: State, y: nat) returns (k: nat)
    requires Downward(edges, st) && y in st.stack
    ensures k < |st.work| && IndexOf(st, st.work[k].node) <= IndexOf(st, y) && Reaches(edges, y, st.work[k].node)
  {
    hide Reaches;
    k :| BackTo(edges, st, y, k);
  }

  lemma FrameOnStack(edges: Edges, st: State, done: set<nat>, k: nat)
    requires Basic(edges, st, done) && k < |st.work|
    ensures st.work[k].node in st.stack
  {
  }

  // Every node of the stack reaches the node on top of the work stack.
  lemma AllReachTop(edges: Edges, st: State, done: set<nat>, y: nat)
    requires Basic(edges, st, done) && Upward(edges, st) && Downward(edges, st) && st.work != [] && y in st.stack
    ensures Reaches(edges, y, st.work[|st.work| - 1].node)
  {
    hide Reaches, Upward, Basic, Downward, IndexOf;
    var k := DownAt(edges, st, y);
    var g, v := st.work[k].node, st.work[|st.work| - 1].node;
    FrameOnStack(edges, st, done, k);
    FrameOnStack(edges, st, done, |st.work| - 1);
    FramesOrdered(edges, st, done, k, |st.work| - 1);
    LowerReaches(edges, st, done, g, v);
    ReachesThen(edges, y, g, v);
  }

  // Positions on the stack go with indices.
  lemma PositionOrder(edges: Edges, st: State, done: set<nat>, i: nat, j: nat)
    requires Basic(edges, st, done) && i < |st.stack| && j < |st.stack|
    ensures IndexOf(st, st.stack[i]) <= IndexOf(st, st.stack[j]) <==> i <= j
  {
  }

  // A node reaches those above it.
  lemma LowerReaches(edges: Edges, st: State, done: set<nat>, u: nat, v: nat)
    requires Basic(edges, st, done) && Upward(edges, st) && u in st.stack && v in st.stack && IndexOf(st, u) <= IndexOf(st, v)
    ensures Reaches(edges, u, v)
  {
    hide Reaches, Basic, IndexOf;
    var i :| 0 <= i < |st.stack| && st.stack[i] == u;
    var j :| 0 <= j < |st.stack| && st.stack[j] == v;
    PositionOrder(edges, st, done, i, j);
    assert Reaches(edges, st.stack[i], st.stack[j]);
  }

  lemma PushedUpward(edges: Edges, st: State, done: set<nat>, next: nat)
    requires Basic(edges, st, done) && Upward(edges, st) && Downward(edges, st)
    requires st.work == [] ==> st.stack == []
    requires st.work != [] ==> next in Succ(edges, st.work[|st.work| - 1].node)
    ensures Upward(edges, Pushed(edges, st, next))
  {
    hide Reaches, Succ, Basic, Downward;
    var b, n := Pushed(edges, st, next), |st.stack|;
    ReachesSelf(edges, next);
    forall i, j | 0 <= i <= j < |b.stack| ensures Reaches(edges, b.stack[i], b.stack[j]) {
      if j < n {
        assert Reaches(edges, st.stack[i], st.stack[j]);
      } else if i < n {
        var v := st.work[|st.work| - 1].node;
        AllReachTop(edges, st, done, st.stack[i]);
        ReachesEdge(edges, v, next);
        ReachesThen(edges, st.stack[i], v, next);
      }
    }
  }

  lemma PushedDownward(edges: Edges, st: State, done: set<nat>, next: nat)
    requires Basic(edges, st, done) && Downward(edges, st) && next !in st.index
    ensures Downward(edges, Pushed(edges, st, next))
  {
    hide Reaches, Succ, Basic, BackTo;
    var b := Pushed(edges, st, next);
    forall y | y in b.stack ensures exists k: nat :: BackTo(edges, b, y, k) {
      if y == next {
        NewBack(edges, st, next);
      } else {
        var k: nat :| BackTo(edges, st, y, k);
        StillBack(edges, st, done, next, y, k);
      }
    }
  }

  lemma NewBack(edges: Edges, st: State, next: nat)
    ensures BackTo(edges, Pushed(edges, st, next), next, |st.work|)
  {
    hide Reaches, Succ;
    ReachesSelf(edges, next);
  }

  lemma StillBack(edges: Edges, st: State, done: set<nat>, next: nat, y: nat, k: nat)
    requires Basic(edges, st, done) && next !in st.index && y in st.stack && BackTo(edges, st, y, k)
    ensures BackTo(edges, Pushed(edges, st, next), y, k)
  {
    hide Reaches, Succ, Marked, IndexOf, StackSorted, FramesSorted;
    PushedIndex(edges, st, done, next, st.work[k].node);
    PushedIndex(edges, st, done, next, y);
  }

  lemma PushedBounds(edges: Edges, st: State, done: set<nat>, next: nat)
    requires Basic(edges, st, done) && VisitedBut(edges, st, done, next) && LowBounds(edges, st) && next !in st.index
    requires forall k | 0 <= k < |st.work| :: LowReached(edges, st, st.work[k].node)
    ensures LowBounds(edges, Pushed(edges, st, next))
  {
    hide Looked, LowBounds, LowReached, Basic, Segment, LowOf, IndexOf, Pushed;
    var b := Pushed(edges, st, next);
    forall k: nat, y, x | Segment(b, k, y) && y in b.stack && x in b.stack && Looked(edges, b, y, x)
      ensures k < |b.work| && LowOf(b, b.work[k].node) <= IndexOf(b, x)
    {
      PushedStack(edges, st, next);
      LookedPushed(edges, st, done, next, y, x);
      NewIsNew(edges, st, done, next);
      SegmentPushed(edges, st, done, next, k, y);
      FrameOnStack(edges, st, done, k);
      PushedFrame(edges, st, done, next, k);
      if x != next {
        BoundsAt(edges, st, k, y, x);
        BasicMarked(edges, st, done);
        PushedIndex(edges, st, done, next, x);
      } else {
        assert LowReached(edges, st, st.work[k].node);
        LowNotAbove(edges, st, st.work[k].node);
      }
    }
    BoundsIntro(edges, b);
  }

  lemma BasicMarked(edges: Edges, st: State, done: set<nat>)
    requires Basic(edges, st, done)
    ensures Marked(st, done)
  {
  }

  lemma PushedStack(edges: Edges, st: State, next: nat)
    ensures Pushed(edges, st, next).stack == st.stack + [next] && |Pushed(edges, st, next).work| == |st.work| + 1
  {
  }

  lemma LowNotAbove(edges: Edges, st: State, n: nat)
    requires LowReached(edges, st, n)
    ensures LowOf(st, n) <= IndexOf(st, n)
  {
  }

  lemma PushedFrame(edges: Edges, st: State, done: set<nat>, next: nat, k: nat)
    requires Basic(edges, st, done) && next !in st.index && k < |st.work|
    ensures |Pushed(edges, st, next).work| == |st.work| + 1 && Pushed(edges, st, next).work[k] == st.work[k]
    ensures LowOf(Pushed(edges, st, next), st.work[k].node) == LowOf(st, st.work[k].node)
    ensures IndexOf(st, st.work[k].node) < IndexOf(Pushed(edges, st, next), next)
  {
    hide StackSorted, FramesSorted, Succ;
    FrameOnStack(edges, st, done, k);
  }

  lemma SegmentPushed(edges: Edges, st: State, done: set<nat>, next: nat, k: nat, y: nat)
    requires Basic(edges, st, done) && next !in st.index && y in st.stack && Segment(Pushed(edges, st, next), k, y)
    ensures k < |st.work| && Segment(st, k, y)
  {
    hide Succ;
    var b := Pushed(edges, st, next);
    assert y in st.index && st.index[y] < |st.index|;
    if k < |st.work| {
      assert st.work[k].node in st.stack;
      if k + 1 < |st.work| { assert st.work[k + 1].node in st.stack; }
    }
  }

  lemma PushedLow(edges: Edges, st: State, done: set<nat>, next: nat)
    requires Basic(edges, st, done) && next !in st.index
    requires forall k | 0 <= k < |st.work| :: LowReached(edges, st, st.work[k].node)
    ensures forall k | 0 <= k < |Pushed(edges, st, next).work| :: LowReached(edges, Pushed(edges, st, next), Pushed(edges, st, next).work[k].node)
  {
    hide Reaches, Succ;
    var b := Pushed(edges, st, next);
    ReachesSelf(edges, next);
    NewIsNew(edges, st, done, next);
    forall k | 0 <= k < |b.work| ensures LowReached(edges, b, b.work[k].node) {
      if k < |st.work| {
        var g := st.work[k].node;
        assert LowReached(edges, st, g) && g in st.stack;
        var x :| x in st.stack && IndexOf(st, x) == LowOf(st, g) && Reaches(edges, g, x);
        assert x in b.stack && IndexOf(b, x) == LowOf(b, g);
      } else {
        assert next in b.stack && IndexOf(b, next) == LowOf(b, next);
      }
    }
  }

  // A root, when nothing is being explored.
  lemma EnterRoot(edges: Edges, st: State, done: set<nat>, root: nat)
    requires Searching(edges, st, done) && st.work == [] && st.stack == [] && root !in st.index
    ensures Entering(edges, st, done, root)
  {
    hide Basic, Upward, Downward, LowBounds, LowReached, Looked, Succ;
  }

  lemma AdvancedVisitedBut(edges: Edges, st: State, done: set<nat>, next: nat)
    requires Basic(edges, st, done) && Visited(edges, st, done) && Next(edges, st, next)
    ensures VisitedBut(edges, Advanced(st), done, next)
  {
    hide Looked, Basic, Succ;
    var a := Advanced(st);
    forall u, x | u in a.stack && Looked(edges, a, u, x) ensures x in a.index || x == next {
      LookedAdvanced(edges, st, done, next, u, x);
    }
  }

  // A successor seen for the first time.
  lemma EnterNext(edges: Edges, st: State, done: set<nat>, next: nat)
    requires Searching(edges, st, done) && Next(edges, st, next) && next !in st.index
    ensures Entering(edges, Advanced(st), done, next)
  {
    hide Visited, VisitedBut, Upward, Downward, LowBounds, LowReached, Basic, Succ;
    AdvancedBasic(edges, st, done, next);
    AdvancedVisitedBut(edges, st, done, next);
    AdvancedReach(edges, st, next);
    NewIsNew(edges, st, done, next);
    CrossBounds(edges, st, done, next);
    LowAdvanced(edges, st);
    NextIsSuccessor(edges, st, done, next);
  }

  lemma NextIsSuccessor(edges: Edges, st: State, done: set<nat>, next: nat)
    requires Basic(edges, st, done) && Next(edges, st, next)
    ensures next in Succ(edges, st.work[|st.work| - 1].node)
  {
    hide Succ;
  }

  /** Entering a node seen for the first time, from the node on top or as a root, keeps everything. */
  lemma PushedKeeps(edges: Edges, st: State, done: set<nat>, next: nat)
    requires Entering(edges, st, done, next)
    ensures Searching(edges, Pushed(edges, st, next), done)
  {
    hide Visited, VisitedBut, Upward, Downward, LowBounds, LowReached, Basic, Succ;
    PushedBasic(edges, st, done, next);
    PushedVisited(edges, st, done, next);
    PushedUpward(edges, st, done, next);
    PushedDownward(edges, st, done, next);
    PushedBounds(edges, st, done, next);
    PushedLow(edges, st, done, next);
  }

  // ----- all successors seen -----

  // The top frame goes, and its low link counts for the one below.
  function Popped(st: State): State
    requires st.work != []
  {
    var n := |st.work| - 1;
    var v := st.work[n].node;
    var work := st.work[..n];
    if work == [] then st.(work := work)
    else
      var u := work[n - 1].node;
      st.(work := work, low := st.low[u := if LowOf(st, v) < LowOf(st, u) then LowOf(st, v) else LowOf(st, u)])
  }

  // A node that reaches nothing below itself takes its part of the stack with it.
  function Cut(st: State, p: nat): State
    requires p <= |st.stack|
  {
    st.(stack := st.stack[..p])
  }

  ghost predicate Exhausted(edges: Edges, st: State) {
    st.work != [] && st.work[|st.work| - 1].i == |st.work[|st.work| - 1].succ|
  }

  function Top(st: State): nat
    requires st.work != []
  {
    st.work[|st.work| - 1].node
  }

  lemma PoppedGray(edges: Edges, st: State, done: set<nat>, u: nat)
    requires Basic(edges, st, done) && st.work != []
    ensures Gray(Popped(st), u) <==> Gray(st, u) && u != Top(st)
  {
    hide Marked, StackSorted, FramesFine, Succ;
    var b := Popped(st);
    if Gray(st, u) && u != Top(st) {
      var k :| 0 <= k < |st.work| && st.work[k].node == u;
      assert b.work[k].node == u;
    }
    if Gray(b, u) {
      var k :| 0 <= k < |b.work| && b.work[k].node == u;
      assert st.work[k].node == u;
      NodesDiffer(edges, st, done, k);
    }
  }

  lemma TopSucc(edges: Edges, st: State, done: set<nat>)
    requires Basic(edges, st, done) && st.work != []
    ensures st.work[|st.work| - 1].succ == Succ(edges, Top(st))
  {
    hide Marked, StackSorted, FramesSorted, Succ;
  }

  // Nothing changes in what has been looked at: neither for the node that is left, whose list was exhausted,
  lemma TopLooked(edges: Edges, st: State, done: set<nat>, x: nat)
    requires Basic(edges, st, done) && Exhausted(edges, st)
    ensures Looked(edges, st, Top(st), x) <==> x in Succ(edges, Top(st))
  {
    hide Basic, Succ, Gray;
    var n := |st.work| - 1;
    TopGray(st);
    TopSucc(edges, st, done);
    var f := st.work[n];
    assert f.succ[..f.i] == f.succ;
    forall k | 0 <= k < |st.work| && st.work[k].node == Top(st) ensures k == n { OnlyTop(edges, st, done, k); }
  }

  // nor for a node further down,
  lemma BelowLooked(edges: Edges, st: State, u: nat, x: nat)
    requires st.work != [] && u != Top(st) && Gray(st, u) && Gray(Popped(st), u)
    ensures Looked(edges, Popped(st), u, x) <==> Looked(edges, st, u, x)
  {
    hide Succ, Gray;
    var b := Popped(st);
    if Looked(edges, st, u, x) {
      var k :| 0 <= k < |st.work| && st.work[k].node == u && LookedIn(st.work[k], x);
      assert b.work[k].node == u && LookedIn(b.work[k], x);
    }
    if Looked(edges, b, u, x) {
      var k :| 0 <= k < |b.work| && b.work[k].node == u && LookedIn(b.work[k], x);
      assert st.work[k].node == u && LookedIn(st.work[k], x);
    }
  }

  // nor for any other.
  lemma LookedPopped(edges: Edges, st: State, done: set<nat>, u: nat, x: nat)
    requires Basic(edges, st, done) && Exhausted(edges, st)
    ensures Looked(edges, Popped(st), u, x) <==> Looked(edges, st, u, x)
  {
    hide Marked, StackSorted, FramesSorted, Succ, Gray, Popped;
    PoppedGray(edges, st, done, u);
    TopGray(st);
    if u == Top(st) {
      TopLooked(edges, st, done, x);
    } else if Gray(st, u) {
      BelowLooked(edges, st, u, x);
    }
  }

  lemma TopGray(st: State)
    requires st.work != []
    ensures Gray(st, Top(st))
  {
    assert st.work[|st.work| - 1].node == Top(st);
  }

  lemma OnlyTop(edges: Edges, st: State, done: set<nat>, k: nat)
    requires Basic(edges, st, done) && k < |st.work| && st.work[k].node == Top(st)
    ensures k == |st.work| - 1
  {
    hide Basic;
    if k < |st.work| - 1 { NodesDiffer(edges, st, done, k); }
  }

  lemma PoppedBasic(edges: Edges, st: State, done: set<nat>)
    requires Basic(edges, st, done) && st.work != []
    ensures Basic(edges, Popped(st), done)
  {
    hide Succ;
  }

  lemma PoppedVisited(edges: Edges, st: State, done: set<nat>)
    requires Basic(edges, st, done) && Visited(edges, st, done) && Exhausted(edges, st)
    ensures Visited(edges, Popped(st), done)
  {
    hide Looked, Basic, Succ;
    var b := Popped(st);
    forall u, x | u in b.stack && Looked(edges, b, u, x) ensures x in b.index {
      LookedPopped(edges, st, done, u, x);
    }
  }

  lemma PoppedUpward(edges: Edges, st: State)
    requires st.work != [] && Upward(edges, st)
    ensures Upward(edges, Popped(st))
  {
    hide Reaches;
    var b := Popped(st);
    forall i, j | 0 <= i <= j < |b.stack| ensures Reaches(edges, b.stack[i], b.stack[j]) {
      assert Reaches(edges, st.stack[i], st.stack[j]);
    }
  }

  // Which segments there are now: the last two are one.
  lemma SegmentPopped(edges: Edges, st: State, done: set<nat>, k: nat, y: nat)
    requires Basic(edges, st, done) && st.work != [] && Segment(Popped(st), k, y)
    ensures k + 1 < |st.work| && (Segment(st, k, y) || (k + 2 == |st.work| && Segment(st, k + 1, y)))
  {
    hide Marked, StackSorted, FramesFine, Succ;
  }

  lemma PoppedLowOf(edges: Edges, st: State, done: set<nat>, k: nat)
    requires Basic(edges, st, done) && k + 1 < |st.work|
    ensures LowOf(Popped(st), st.work[k].node) <= LowOf(st, st.work[k].node)
    ensures k + 2 == |st.work| ==> LowOf(Popped(st), st.work[k].node) <= LowOf(st, Top(st))
    ensures LowOf(Popped(st), st.work[k].node) == LowOf(st, st.work[k].node) ||
      (k + 2 == |st.work| && LowOf(Popped(st), st.work[k].node) == LowOf(st, Top(st)))
  {
    hide Succ, StackSorted, Marked;
  }

  lemma PoppedBounds(edges: Edges, st: State, done: set<nat>)
    requires Basic(edges, st, done) && LowBounds(edges, st) && Exhausted(edges, st)
    ensures LowBounds(edges, Popped(st))
  {
    hide Looked, Segment, LowBounds, Basic, LowOf;
    var b, n := Popped(st), |st.work| - 1;
    forall k: nat, y, x | Segment(b, k, y) && y in b.stack && x in b.stack && Looked(edges, b, y, x)
      ensures k < |b.work| && LowOf(b, b.work[k].node) <= IndexOf(b, x)
    {
      LookedPopped(edges, st, done, y, x);
      SegmentPopped(edges, st, done, k, y);
      PoppedLowOf(edges, st, done, k);
      if Segment(st, k, y) {
        BoundsAt(edges, st, k, y, x);
      } else {
        BoundsAt(edges, st, k + 1, y, x);
      }
    }
    BoundsIntro(edges, b);
  }

  lemma LowAt(edges: Edges, st: State, n: nat) returns (x: nat)
    requires LowReached(edges, st, n)
    ensures LowOf(st, n) <= IndexOf(st, n)
    ensures x in st.stack && IndexOf(st, x) == LowOf(st, n) && Reaches(edges, n, x)
  {
    hide Reaches;
    x :| x in st.stack && IndexOf(st, x) == LowOf(st, n) && Reaches(edges, n, x);
  }

  lemma LowIntro(edges: Edges, st: State, n: nat, x: nat)
    requires LowOf(st, n) <= IndexOf(st, n) && x in st.stack && IndexOf(st, x) == LowOf(st, n) && Reaches(edges, n, x)
    ensures LowReached(edges, st, n)
  {
    hide Reaches;
  }

  // ----- when the top node reaches below itself -----

  lemma LowerBack(edges: Edges, st: State, done: set<nat>, y: nat)
    requires Basic(edges, st, done) && Downward(edges, st) && st.work != [] && y in st.stack
    requires LowReached(edges, st, Top(st)) && LowOf(st, Top(st)) < IndexOf(st, Top(st))
    ensures exists k: nat :: BackTo(edges, Popped(st), y, k)
  {
    hide Reaches, Basic, Downward, LowReached, LowOf;
    var b, n := Popped(st), |st.work| - 1;
    var k := DownAt(edges, st, y);
    if k == n {
      var x := LowAt(edges, st, Top(st));
      var j := DownAt(edges, st, x);
      ReachesThen(edges, y, Top(st), x);
      ReachesThen(edges, y, x, st.work[j].node);
      assert j < n;
      assert BackTo(edges, b, y, j);
    } else {
      assert BackTo(edges, b, y, k);
    }
  }

  lemma LowerLow(edges: Edges, st: State, done: set<nat>, k: nat)
    requires Basic(edges, st, done) && Upward(edges, st) && k + 1 < |st.work|
    requires LowReached(edges, st, Top(st)) && LowReached(edges, st, st.work[k].node)
    ensures LowReached(edges, Popped(st), st.work[k].node)
  {
    hide Reaches, Basic, Upward, LowReached, LowOf;
    var b, n, g := Popped(st), |st.work| - 1, st.work[k].node;
    PoppedLowOf(edges, st, done, k);
    var x := LowAt(edges, st, g);
    if LowOf(b, g) == LowOf(st, g) {
      LowIntro(edges, b, g, x);
    } else {
      var z := LowAt(edges, st, Top(st));
      FrameOnStack(edges, st, done, k);
      FrameOnStack(edges, st, done, n);
      FramesOrdered(edges, st, done, k, n);
      LowerReaches(edges, st, done, g, Top(st));
      ReachesThen(edges, g, Top(st), z);
      LowIntro(edges, b, g, z);
    }
  }

  /** Leaving a node that reaches below itself keeps everything. */
  lemma PoppedKeeps(edges: Edges, st: State, done: set<nat>)
    requires Searching(edges, st, done) && Exhausted(edges, st) && LowOf(st, Top(st)) < IndexOf(st, Top(st))
    ensures Searching(edges, Popped(st), done)
  {
    hide Visited, Upward, LowBounds, LowReached, Basic, BackTo, LowOf;
    var b := Popped(st);
    assert LowReached(edges, st, st.work[|st.work| - 1].node);
    PoppedBasic(edges, st, done);
    PoppedVisited(edges, st, done);
    PoppedUpward(edges, st);
    PoppedBounds(edges, st, done);
    forall y | y in b.stack ensures exists k: nat :: BackTo(edges, b, y, k) { LowerBack(edges, st, done, y); }
    forall k | 0 <= k < |b.work| ensures LowReached(edges, b, b.work[k].node) {
      assert LowReached(edges, st, st.work[k].node);
      LowerLow(edges, st, done, k);
    }
  }

  // ----- when it does not: its component is complete -----

  ghost predicate Root(st: State, p: nat) {
    st.work != [] && p < |st.stack| && st.stack[p] == Top(st) && LowOf(st, Top(st)) == IndexOf(st, Top(st))
  }

  lemma BelowRoot(edges: Edges, st: State, done: set<nat>, p: nat, y: nat)
    requires Basic(edges, st, done) && Root(st, p) && y in st.stack
    ensures y in st.stack[..p] <==> IndexOf(st, y) < IndexOf(st, Top(st))
    ensures y in st.stack[..p] || y in st.stack[p..]
  {
    hide IndexOf, Basic;
    var i :| 0 <= i < |st.stack| && st.stack[i] == y;
    PositionOrder(edges, st, done, p, i);
    if i < p { assert st.stack[..p][i] == y; } else { assert st.stack[p..][i - p] == y; }
    if y in st.stack[..p] {
      var j :| 0 <= j < p && st.stack[..p][j] == y;
      PositionOrder(edges, st, done, p, j);
    }
  }

  lemma AboveRoot(edges: Edges, st: State, done: set<nat>, p: nat, y: nat)
    requires Basic(edges, st, done) && Root(st, p) && y in st.stack[p..]
    ensures y in st.stack && IndexOf(st, Top(st)) <= IndexOf(st, y)
  {
    hide IndexOf, Basic;
    var i :| 0 <= i < |st.stack| - p && st.stack[p..][i] == y;
    PositionOrder(edges, st, done, p, p + i);
  }

  // Of the nodes that leave, only the top one is still being explored.
  lemma AboveNotGray(edges: Edges, st: State, done: set<nat>, p: nat, y: nat, x: nat)
    requires Basic(edges, st, done) && Root(st, p) && Exhausted(edges, st) && y in st.stack[p..] && x in Succ(edges, y)
    ensures Looked(edges, st, y, x)
  {
    hide Basic, Succ, Gray, Popped, IndexOf, LowOf;
    LookedPopped(edges, st, done, y, x);
    PoppedGray(edges, st, done, y);
    if Gray(Popped(st), y) { GrayBelow(edges, st, done, y); AboveRoot(edges, st, done, p, y); }
  }

  lemma GrayBelow(edges: Edges, st: State, done: set<nat>, y: nat)
    requires Basic(edges, st, done) && st.work != [] && Gray(Popped(st), y)
    ensures IndexOf(st, y) < IndexOf(st, Top(st))
  {
    hide Marked, StackSorted, FramesFine, Succ;
    var b := Popped(st);
    var k :| 0 <= k < |b.work| && b.work[k].node == y;
    assert st.work[k].node == y;
  }

  // Edges from the component lead into it or to one emitted before.
  lemma ComponentClosed(edges: Edges, st: State, done: set<nat>, p: nat, y: nat, x: nat)
    requires Basic(edges, st, done) && Visited(edges, st, done) && LowBounds(edges, st) && Root(st, p) && Exhausted(edges, st)
    requires y in st.stack[p..] && x in Succ(edges, y)
    ensures x in done || x in st.stack[p..]
  {
    hide Succ, Looked, Segment, LowBounds, StackSorted, FramesFine, FramesSorted;
    AboveNotGray(edges, st, done, p, y, x);
    AboveRoot(edges, st, done, p, y);
    assert x in st.index;
    if x !in done {
      TopAbove(st, y);
      BoundsAt(edges, st, |st.work| - 1, y, x);
      BelowRoot(edges, st, done, p, x);
    }
  }

  lemma TopAbove(st: State, y: nat)
    requires st.work != [] && IndexOf(st, Top(st)) <= IndexOf(st, y)
    ensures Segment(st, |st.work| - 1, y)
  {
  }

  // The nodes of the component reach each other.
  lemma ComponentTogether(edges: Edges, st: State, done: set<nat>, p: nat, y: nat, x: nat)
    requires Basic(edges, st, done) && Upward(edges, st) && Downward(edges, st) && Root(st, p)
    requires y in st.stack[p..] && x in st.stack[p..]
    ensures Reaches(edges, y, x)
  {
    hide Reaches, Basic, Upward, Downward, Succ;
    AboveRoot(edges, st, done, p, y);
    AboveRoot(edges, st, done, p, x);
    FrameOnStack(edges, st, done, |st.work| - 1);
    AllReachTop(edges, st, done, y);
    LowerReaches(edges, st, done, Top(st), x);
    ReachesThen(edges, y, Top(st), x);
  }

  ghost function Elements(s: seq<nat>): set<nat> {
    set n | n in s
  }

  lemma CutMarked(st: State, done: set<nat>, p: nat)
    requires Marked(st, done) && p <= |st.stack|
    requires forall n | n in st.stack[..p] :: n !in st.stack[p..]
    ensures Marked(Cut(st, p), done + Elements(st.stack[p..]))
  {
    assert st.stack == st.stack[..p] + st.stack[p..];
  }

  lemma CutApart(edges: Edges, st: State, done: set<nat>, p: nat, y: nat)
    requires Basic(edges, st, done) && Root(st, p) && y in st.stack[..p]
    ensures y in st.stack && y !in st.stack[p..]
  {
    hide Basic, IndexOf;
    assert st.stack == st.stack[..p] + st.stack[p..];
    BelowRoot(edges, st, done, p, y);
    if y in st.stack[p..] { AboveRoot(edges, st, done, p, y); }
  }

  lemma CutFrames(edges: Edges, st: State, done: set<nat>, p: nat)
    requires Basic(edges, st, done) && Root(st, p)
    ensures StackSorted(Cut(Popped(st), p)) && FramesFine(edges, Cut(Popped(st), p)) && FramesSorted(Cut(Popped(st), p))
  {
    hide Marked, Succ, IndexOf, LowOf;
    var b := Cut(Popped(st), p);
    forall i, j | 0 <= i < j < |b.stack| ensures IndexOf(b, b.stack[i]) < IndexOf(b, b.stack[j]) {
      SameIndex(st, b, st.stack[i]);
      SameIndex(st, b, st.stack[j]);
    }
    forall i, j | 0 <= i < j < |b.work| ensures IndexOf(b, b.work[i].node) < IndexOf(b, b.work[j].node) {
      SameIndex(st, b, st.work[i].node);
      SameIndex(st, b, st.work[j].node);
    }
    forall k | 0 <= k < |b.work|
      ensures b.work[k].node in b.stack && b.work[k].succ == Succ(edges, b.work[k].node) && b.work[k].i <= |b.work[k].succ|
    {
      assert st.work[k] == b.work[k];
      BelowRoot(edges, st, done, p, st.work[k].node);
    }
  }

  lemma SameIndex(a: State, b: State, n: nat)
    requires a.index == b.index
    ensures IndexOf(a, n) == IndexOf(b, n)
  {
  }

  lemma CutBasic(edges: Edges, st: State, done: set<nat>, p: nat)
    requires Basic(edges, st, done) && Root(st, p)
    ensures Basic(edges, Cut(Popped(st), p), done + Elements(st.stack[p..]))
  {
    hide StackSorted, FramesFine, FramesSorted, Succ, Marked;
    PoppedBasic(edges, st, done);
    CutFrames(edges, st, done, p);
    forall n | n in st.stack[..p] ensures n !in st.stack[p..] { CutApart(edges, st, done, p, n); }
    CutMarked(Popped(st), done, p);
  }

  lemma LookedCut(edges: Edges, st: State, p: nat, u: nat, x: nat)
    requires p <= |st.stack|
    ensures Looked(edges, Cut(st, p), u, x) <==> Looked(edges, st, u, x)
  {
    hide Succ, LookedIn;
    assert Gray(Cut(st, p), u) <==> Gray(st, u);
  }

  lemma CutVisited(edges: Edges, st: State, done: set<nat>, p: nat)
    requires Basic(edges, st, done) && Visited(edges, st, done) && LowBounds(edges, st) && Root(st, p) && Exhausted(edges, st)
    ensures Visited(edges, Cut(Popped(st), p), done + Elements(st.stack[p..]))
  {
    hide Looked, Basic, Succ, LowBounds, IndexOf, LowOf;
    var b, more := Cut(Popped(st), p), done + Elements(st.stack[p..]);
    forall u, x | u in b.stack && Looked(edges, b, u, x) ensures x in b.index {
      LookedCut(edges, Popped(st), p, u, x);
      LookedPopped(edges, st, done, u, x);
      assert st.stack == st.stack[..p] + st.stack[p..];
    }
    forall u, x | u in more && x in Succ(edges, u) ensures x in more {
      if u !in done { ComponentClosed(edges, st, done, p, u, x); }
    }
  }

  lemma CutReach(edges: Edges, st: State, done: set<nat>, p: nat)
    requires Basic(edges, st, done) && Upward(edges, st) && Downward(edges, st) && Root(st, p)
    ensures Upward(edges, Cut(Popped(st), p)) && Downward(edges, Cut(Popped(st), p))
  {
    hide Reaches, Basic, IndexOf, LowOf, Succ, Downward;
    var b := Cut(Popped(st), p);
    forall i, j | 0 <= i <= j < |b.stack| ensures Reaches(edges, b.stack[i], b.stack[j]) {
      assert Reaches(edges, st.stack[i], st.stack[j]);
    }
    forall y | y in b.stack ensures exists k: nat :: BackTo(edges, b, y, k) {
      CutApart(edges, st, done, p, y);
      BelowRoot(edges, st, done, p, y);
      var k := DownAt(edges, st, y);
      SameIndex(st, b, y);
      SameIndex(st, b, st.work[k].node);
      assert BackTo(edges, b, y, k);
    }
    DownwardIntro(edges, b);
  }

  lemma DownwardIntro(edges: Edges, st: State)
    requires forall y | y in st.stack :: exists k: nat :: BackTo(edges, st, y, k)
    ensures Downward(edges, st)
  {
    hide BackTo;
  }

  lemma CutBounds(edges: Edges, st: State, p: nat)
    requires p <= |st.stack| && LowBounds(edges, st)
    ensures LowBounds(edges, Cut(st, p))
  {
    hide Looked, Segment, LowBounds;
    var b := Cut(st, p);
    forall k: nat, y, x | Segment(b, k, y) && y in b.stack && x in b.stack && Looked(edges, b, y, x)
      ensures k < |b.work| && LowOf(b, b.work[k].node) <= IndexOf(b, x)
    {
      LookedCut(edges, st, p, y, x);
      SegmentCut(st, p, k, y);
      SegmentSize(st, k, y);
      BoundsAt(edges, st, k, y, x);
    }
    BoundsIntro(edges, b);
  }

  lemma SegmentCut(st: State, p: nat, k: nat, y: nat)
    requires p <= |st.stack|
    ensures Segment(Cut(st, p), k, y) <==> Segment(st, k, y)
  {
  }

  lemma CutLow(edges: Edges, st: State, done: set<nat>, p: nat, k: nat)
    requires Basic(edges, st, done) && Root(st, p) && k + 1 < |st.work| && LowReached(edges, st, st.work[k].node)
    ensures LowReached(edges, Cut(Popped(st), p), st.work[k].node)
  {
    hide Reaches, Basic, LowReached, LowOf, IndexOf;
    var b, n, g := Cut(Popped(st), p), |st.work| - 1, st.work[k].node;
    PoppedLowOf(edges, st, done, k);
    var x := LowAt(edges, st, g);
    NodesOrdered(edges, st, done, k);
    assert LowOf(st, g) < LowOf(st, Top(st));
    BelowRoot(edges, st, done, p, x);
    SameIndex(st, b, x);
    SameIndex(st, b, g);
    SameLow(Popped(st), p, g);
    LowIntro(edges, b, g, x);
  }

  lemma SameLow(st: State, p: nat, g: nat)
    requires p <= |st.stack|
    ensures LowOf(Cut(st, p), g) == LowOf(st, g)
  {
  }

  lemma NodesOrdered(edges: Edges, st: State, done: set<nat>, k: nat)
    requires Basic(edges, st, done) && k + 1 < |st.work|
    ensures IndexOf(st, st.work[k].node) < IndexOf(st, Top(st))
  {
    hide IndexOf;
  }

  /** Emitting the component of a node that reaches nothing below itself keeps everything. */
  lemma CutKeeps(edges: Edges, st: State, done: set<nat>, p: nat)
    requires Searching(edges, st, done) && Exhausted(edges, st) && Root(st, p)
    ensures Searching(edges, Cut(Popped(st), p), done + Elements(st.stack[p..]))
  {
    hide Visited, Upward, Downward, LowBounds, LowReached, Basic, LowOf;
    var b := Cut(Popped(st), p);
    CutBasic(edges, st, done, p);
    CutVisited(edges, st, done, p);
    CutReach(edges, st, done, p);
    PoppedBounds(edges, st, done);
    CutBounds(edges, Popped(st), p);
    forall k | 0 <= k < |b.work| ensures LowReached(edges, b, b.work[k].node) {
      assert LowReached(edges, st, st.work[k].node);
      CutLow(edges, st, done, p, k);
    }
  }

  /** The part of the stack that leaves is one more component. */
  lemma CutComponents(edges: Edges, st: State, comps: seq<seq<nat>>, p: nat, comp: seq<nat>)
    requires Searching(edges, st, Members(comps)) && Exhausted(edges, st) && Root(st, p) && Components(edges, comps)
    requires ReverseOf(comp, st.stack[p..])
    ensures Components(edges, comps + [comp]) && Members(comps + [comp]) == Members(comps) + Elements(st.stack[p..])
  {
    hide Visited, Upward, Downward, LowBounds, LowReached, Basic, Reaches, Exhausted, Succ, IndexOf, LowOf;
    MembersMore(comps, comp);
    ReverseElements(comp, st.stack[p..]);
    CutListed(edges, st, Members(comps), p, comp);
    forall u | u in comp ensures u in st.stack[p..] && u !in Members(comps) {
      assert u in Elements(comp);
      AboveRoot(edges, st, Members(comps), p, u);
      FreshOnStack(edges, st, Members(comps), u);
    }
    forall u, v | u in comp && v in comp ensures Reaches(edges, u, v) {
      ComponentTogether(edges, st, Members(comps), p, u, v);
    }
    forall u, x | u in comp && x in Succ(edges, u) ensures x in Members(comps) || x in comp {
      ComponentClosed(edges, st, Members(comps), p, u, x);
      assert x in st.stack[p..] ==> x in Elements(comp);
    }
    OneMore(edges, comps, comp);
  }

  predicate ReverseOf(comp: seq<nat>, s: seq<nat>) {
    |comp| == |s| && forall k | 0 <= k < |s| :: comp[k] == s[|s| - 1 - k]
  }

  lemma ReverseElements(comp: seq<nat>, s: seq<nat>)
    requires ReverseOf(comp, s)
    ensures Elements(comp) == Elements(s)
  {
    forall n | n in s ensures n in comp {
      var k :| 0 <= k < |s| && s[k] == n;
      assert comp[|s| - 1 - k] == n;
    }
  }

  lemma CutListed(edges: Edges, st: State, done: set<nat>, p: nat, comp: seq<nat>)
    requires Basic(edges, st, done) && Root(st, p) && ReverseOf(comp, st.stack[p..])
    ensures Listed(comp)
  {
    hide Marked, FramesFine, FramesSorted, IndexOf, LowOf;
    var s := st.stack[p..];
    forall i, j | 0 <= i < j < |comp| ensures comp[i] != comp[j] {
      assert comp[i] == s[|s| - 1 - i] == st.stack[|st.stack| - 1 - i];
      assert comp[j] == s[|s| - 1 - j] == st.stack[|st.stack| - 1 - j];
    }
  }

  lemma FreshOnStack(edges: Edges, st: State, done: set<nat>, u: nat)
    requires Basic(edges, st, done) && u in st.stack
    ensures u !in done
  {
  }

  lemma IsMember(comps: seq<seq<nat>>, i: nat, u: nat)
    requires i < |comps| && u in comps[i]
    ensures u in Members(comps)
  {
  }

  lemma OneMore(edges: Edges, comps: seq<seq<nat>>, comp: seq<nat>)
    requires Components(edges, comps) && Listed(comp)
    requires forall u | u in comp :: u !in Members(comps)
    requires forall u, v | u in comp && v in comp :: Reaches(edges, u, v)
    requires forall u, x | u in comp && x in Succ(edges, u) :: x in Members(comps) || x in comp
    ensures Components(edges, comps + [comp])
  {
    hide Reaches, Succ, Listed;
    var all, n := comps + [comp], |comps|;
    forall i, j, u | 0 <= i < |all| && 0 <= j < |all| && u in all[i] && u in all[j] ensures i == j {
      if i < n { IsMember(comps, i, u); }
      if j < n { IsMember(comps, j, u); }
    }
    forall i, u, v | 0 <= i < |all| && u in all[i] && v in Succ(edges, u) ensures v in Members(all[..i + 1]) {
      if i < n {
        assert all[..i + 1] == comps[..i + 1];
      } else {
        assert all[..i + 1] == all;
        MembersMore(comps, comp);
      }
    }
    forall i, u, v | 0 <= i < |all| && u in all[i] && v in all[i] ensures Reaches(edges, u, v) {
      if i < n { assert u in comps[i] && v in comps[i]; }
    }
  }

  // ----- the whole search -----

  // Nothing is left on the stack when no node is being explored.
  lemma StackEmpty(edges: Edges, st: State, done: set<nat>)
    requires Searching(edges, st, done) && st.work == []
    ensures st.stack == [] && forall n | n in st.index :: n in done
  {
    hide Visited, Upward, LowBounds, LowReached, Reaches;
    if st.stack != [] {
      var k := DownAt(edges, st, st.stack[0]);
    }
  }

  lemma StartSearching(edges: Edges)
    ensures Searching(edges, State(map[], map[], [], []), {})
  {
  }

  // The nodes a search can come to.
  ghost function Universe(nodes: seq<nat>, edges: Edges): (all: set<nat>)
    ensures forall n | n in nodes :: n in all
    ensures forall u, v | v in Succ(edges, u) :: v in all
  {
    (set n | n in nodes) + (set k, v | k in edges && v in edges[k] :: v)
  }

  lemma FewerLeft(all: set<nat>, index: map<nat, nat>, next: nat, i: nat)
    requires next in all && next !in index
    ensures |all - index[next := i].Keys| < |all - index.Keys|
  {
    assert all - index[next := i].Keys == (all - index.Keys) - {next};
  }

  // What the search needs to know of the frame on top.
  lemma TopFacts(edges: Edges, st: State, done: set<nat>)
    requires Searching(edges, st, done) && st.work != []
    ensures Top(st) in st.stack && Top(st) in st.index && Top(st) in st.low
    ensures st.work[|st.work| - 1].i <= |st.work[|st.work| - 1].succ| && st.work[|st.work| - 1].succ == Succ(edges, Top(st))
    ensures forall k | 0 <= k < |st.work| :: st.work[k].node in st.low
    ensures LowOf(st, Top(st)) <= IndexOf(st, Top(st))
    ensures forall n | n in st.index :: n in done || n in st.stack
    ensures forall n | n in st.stack :: n in st.index && n !in done
  {
    hide Visited, Upward, LowBounds, Downward, Succ;
    assert LowReached(edges, st, st.work[|st.work| - 1].node);
    assert st.work[|st.work| - 1].node in st.stack;
  }

  lemma StackDistinct(edges: Edges, st: State, done: set<nat>)
    requires Searching(edges, st, done)
    ensures forall i, j | 0 <= i < j < |st.stack| :: st.stack[i] != st.stack[j]
  {
    hide Visited, Upward, LowBounds, Downward, Succ, LowReached, IndexOf;
  }

  // Pops the nodes down to `node`.
  method PopComponent(stack0: seq<nat>, onStack0: set<nat>, node: nat, ghost p: nat) returns (stack: seq<nat>, onStack: set<nat>, comp: seq<nat>)
    requires p < |stack0| && stack0[p] == node && onStack0 == Elements(stack0)
    requires forall i, j | 0 <= i < j < |stack0| :: stack0[i] != stack0[j]
    ensures stack == stack0[..p] && onStack == Elements(stack) && ReverseOf(comp, stack0[p..])
  {
    stack, onStack, comp := stack0, onStack0, [];
    var n := stack[|stack| - 1];
    stack := stack[..|stack| - 1];
    while true
      invariant p <= |stack| < |stack0| && stack == stack0[..|stack|] && n == stack0[|stack|]
      invariant onStack == Elements(stack0[..|stack| + 1])
      invariant |comp| == |stack0| - 1 - |stack| && forall k | 0 <= k < |comp| :: comp[k] == stack0[|stack0| - 1 - k]
      decreases |stack|
    {
      assert stack0[..|stack| + 1] == stack + [n];
      onStack := onStack - {n};
      comp := comp + [n];
      if n == node { break; }
      n := stack[|stack| - 1];
      stack := stack[..|stack| - 1];
    }
  }

  lemma NoComponents(edges: Edges)
    ensures Components(edges, []) && Members([]) == {} && Elements([]) == {}
  {
  }

  lemma MoreElements(stack: seq<nat>, n: nat)
    ensures Elements(stack + [n]) == Elements(stack) + {n}
  {
  }

  // Leaving a node does not touch its own low link.
  lemma PoppedTop(edges: Edges, st: State, done: set<nat>)
    requires Searching(edges, st, done) && st.work != []
    ensures Top(st) in Popped(st).low && Popped(st).low[Top(st)] == LowOf(st, Top(st))
  {
    hide Visited, Upward, LowBounds, Downward, Succ, LowReached;
    assert st.work[|st.work| - 1].node in st.stack;
    if |st.work| > 1 { NodesDiffer(edges, st, done, |st.work| - 2); }
  }

  lemma StackTop(edges: Edges, st: State, done: set<nat>) returns (p: nat)
    requires Searching(edges, st, done) && st.work != []
    ensures p < |st.stack| && st.stack[p] == Top(st)
  {
    hide Visited, Upward, LowBounds, Downward, Succ, LowReached, IndexOf;
    var k := |st.work| - 1;
    assert st.work[k].node in st.stack;
    p :| p < |st.stack| && st.stack[p] == Top(st);
  }

  lemma ElementsAre(s: seq<nat>)
    ensures forall n :: n in Elements(s) <==> n in s
  {
  }

  // What comes next is known, on the stack, or new.
  lemma NextCases(edges: Edges, st: State, done: set<nat>, next: nat)
    requires Searching(edges, st, done) && Next(edges, st, next)
    ensures next in st.index ==> next in done || next in st.stack
    ensures next in Succ(edges, Top(st))
  {
    hide Visited, Upward, LowBounds, Downward, Succ, LowReached, StackSorted, FramesSorted;
  }

  lemma AdvancedIs(st: State, f: Frame)
    requires st.work != [] && f == st.work[|st.work| - 1]
    ensures Advanced(st) == State(st.index, st.low, st.stack, st.work[|st.work| - 1 := f.(i := f.i + 1)])
  {
  }

  lemma PushedIs(edges: Edges, st: State, next: nat)
    ensures Pushed(edges, st, next) ==
      State(st.index[next := |st.index|], st.low[next := |st.index|], st.stack + [next], st.work + [Frame(next, Succ(edges, next), 0)])
  {
  }

  lemma LinkedIs(st: State, f: Frame, next: nat)
    requires st.work != [] && f == st.work[|st.work| - 1] && next in st.index && f.node in st.low
    ensures Linked(st, next) == State(st.index,
      st.low[f.node := if st.index[next] < st.low[f.node] then st.index[next] else st.low[f.node]],
      st.stack, st.work[|st.work| - 1 := f.(i := f.i + 1)])
  {
  }

  lemma PoppedIs(st: State, f: Frame)
    requires st.work != [] && f == st.work[|st.work| - 1] && f.node in st.low && (forall k | 0 <= k < |st.work| :: st.work[k].node in st.low)
    ensures |st.work| == 1 ==> Popped(st) == State(st.index, st.low, st.stack, [])
    ensures |st.work| > 1 ==>
      var below := st.work[|st.work| - 2].node;
      Popped(st) == State(st.index, st.low[below := if st.low[f.node] < st.low[below] then st.low[f.node] else st.low[below]],
        st.stack, st.work[..|st.work| - 1])
  {
  }

  // Looks at the next successor of the node on top.
  method Visit(edges: Edges, st0: State, onStack0: set<nat>, counter0: nat, ghost done: set<nat>, ghost all: set<nat>)
    returns (st: State, onStack: set<nat>, counter: nat)
    requires Searching(edges, st0, done) && st0.work != [] && st0.work[|st0.work| - 1].i < |st0.work[|st0.work| - 1].succ|
    requires onStack0 == Elements(st0.stack) && counter0 == |st0.index| && st0.index.Keys <= all
    requires forall u, v | v in Succ(edges, u) :: v in all
    ensures Searching(edges, st, done) && onStack == Elements(st.stack) && counter == |st.index|
    ensures st0.index.Keys <= st.index.Keys <= all
    ensures |all - st.index.Keys| < |all - st0.index.Keys| || (st.index == st0.index && |st.work| == |st0.work| && Left(st) < Left(st0))
  {
    hide Searching, Succ, Elements, Entering, Advanced, Pushed, Linked;
    var top := |st0.work| - 1;
    var frame := st0.work[top];
    TopFacts(edges, st0, done);
    var next := frame.succ[frame.i];
    NextCases(edges, st0, done, next);
    AdvancedIs(st0, frame);
    ElementsAre(st0.stack);
    st, onStack, counter := st0.(work := st0.work[top := frame.(i := frame.i + 1)]), onStack0, counter0;
    if next !in st.index {
      EnterNext(edges, st0, done, next);
      PushedKeeps(edges, st, done, next);
      PushedIs(edges, st, next);
      FewerLeft(all, st.index, next, counter);
      MoreElements(st.stack, next);
      st := State(st.index[next := counter], st.low[next := counter], st.stack + [next], st.work + [Frame(next, Succ(edges, next), 0)]);
      onStack, counter := onStack + {next}, counter + 1;
    } else if next in onStack {
      LinkedKeeps(edges, st0, done, next);
      LinkedIs(st0, frame, next);
      var low := if st.index[next] < st.low[frame.node] then st.index[next] else st.low[frame.node];
      st := st.(low := st.low[frame.node := low]);
    } else {
      CrossKeeps(edges, st0, done, next);
    }
  }

  // What is left to look at from the node on top.
  function Left(st: State): int {
    if st.work == [] then 0 else |st.work[|st.work| - 1].succ| - st.work[|st.work| - 1].i
  }

  // Leaves the node on top, and emits its component if it reaches nothing below itself.
  method Leave(edges: Edges, st0: State, onStack0: set<nat>, components0: seq<seq<nat>>)
    returns (st: State, onStack: set<nat>, components: seq<seq<nat>>)
    requires Searching(edges, st0, Members(components0)) && Components(edges, components0) && Exhausted(edges, st0)
    requires onStack0 == Elements(st0.stack)
    ensures Searching(edges, st, Members(components)) && Components(edges, components) && onStack == Elements(st.stack)
    ensures st.index == st0.index && |st.work| < |st0.work|
  {
    hide Searching, Components, Members, Succ, Elements, Popped;
    ghost var done := Members(components0);
    var top := |st0.work| - 1;
    var frame := st0.work[top];
    TopFacts(edges, st0, done);
    PoppedTop(edges, st0, done);
    PoppedIs(st0, frame);
    st, onStack, components := st0.(work := st0.work[..top]), onStack0, components0;
    if st.work != [] {
      var below := st.work[|st.work| - 1].node;
      var low := if st.low[frame.node] < st.low[below] then st.low[frame.node] else st.low[below];
      st := st.(low := st.low[below := low]);
    }
    if st.low[frame.node] == st.index[frame.node] {
      ghost var p := StackTop(edges, st0, done);
      StackDistinct(edges, st0, done);
      var stack, onStack', comp := PopComponent(st.stack, onStack, frame.node, p);
      CutKeeps(edges, st0, done, p);
      CutComponents(edges, st0, components0, p, comp);
      st, onStack, components := st.(stack := stack), onStack', components + [comp];
    } else {
      PoppedKeeps(edges, st0, done);
    }
  }

  // Searches everything that a new root leads to.
  method SearchFrom(edges: Edges, st0: State, counter0: nat, components0: seq<seq<nat>>, root: nat, ghost all: set<nat>)
    returns (st: State, counter: nat, components: seq<seq<nat>>)
    requires Searching(edges, st0, Members(components0)) && Components(edges, components0)
    requires st0.work == [] && st0.stack == [] && counter0 == |st0.index| && st0.index.Keys <= all
    requires root in all && root !in st0.index && forall u, v | v in Succ(edges, u) :: v in all
    ensures Searching(edges, st, Members(components)) && Components(edges, components)
    ensures st.work == [] && counter == |st.index| && st0.index.Keys + {root} <= st.index.Keys <= all
  {
    hide Searching, Components, Members, Succ, Elements, Entering, Pushed;
    EnterRoot(edges, st0, Members(components0), root);
    PushedKeeps(edges, st0, Members(components0), root);
    PushedIs(edges, st0, root);
    MoreElements(st0.stack, root);
    NoComponents(edges);
    st := State(st0.index[root := counter0], st0.low[root := counter0], st0.stack + [root], st0.work + [Frame(root, Succ(edges, root), 0)]);
    var onStack := {root};
    counter, components := counter0 + 1, components0;
    while st.work != []
      invariant Searching(edges, st, Members(components)) && Components(edges, components)
      invariant onStack == Elements(st.stack) && counter == |st.index| && st0.index.Keys + {root} <= st.index.Keys <= all
      decreases |all - st.index.Keys|, |st.work|, Left(st)
    {
      TopFacts(edges, st, Members(components));
      if st.work[|st.work| - 1].i < |st.work[|st.work| - 1].succ| {
        st, onStack, counter := Visit(edges, st, onStack, counter, Members(components), all);
      } else {
        st, onStack, components := Leave(edges, st, onStack, components);
      }
    }
  }

  /** Tarjan's algorithm finds exactly the strongly connected components, those an edge leads to first. */
  method StronglyConnected(nodes: seq<nat>, edges: Edges) returns (components: seq<seq<nat>>)
    ensures Components(edges, components)
    ensures forall n | n in nodes :: n in Members(components)
  {
    hide Searching, Components, Members, Succ, Elements;
    var st, counter := State(map[], map[], [], []), 0;
    components := [];
    ghost var all := Universe(nodes, edges);
    StartSearching(edges);
    NoComponents(edges);
    for r := 0 to |nodes|
      invariant Searching(edges, st, Members(components)) && Components(edges, components)
      invariant st.work == [] && st.stack == [] && counter == |st.index| && st.index.Keys <= all
      invariant forall k | 0 <= k < r :: nodes[k] in st.index.Keys
    {
      if nodes[r] in st.index { continue; }
      st, counter, components := SearchFrom(edges, st, counter, components, nodes[r], all);
      StackEmpty(edges, st, Members(components));
    }
    StackEmpty(edges, st, Members(components));
  }
}
