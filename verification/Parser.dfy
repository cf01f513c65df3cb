/** Driving the tables over an input, with a fork wherever an entry is a conflict (src/lalr.ts:635-722). */
module Parsing {
  import opened Options
  import opened Grammars
  import opened FirstSets
  import opened Automata
  import opened Tables
  import opened Resolution
  import opened Machine
  import opened Restore
  import opened Completeness
  import opened Control
  import opened Glr
  import opened Fork

  /** `shifted`: how many tokens went into the value. `boundary`: behind which token the parser says it stopped.
      `Stuck` stands for the two internal errors, a missing goto and an entry of an unexpected kind. */
  datatype Outcome = Parsed(value: Tree, shifted: nat, boundary: nat) | SyntaxError(at: nat) | TooMuchWork | OutOfFuel | Stuck

  // ----- one choice only -----

  ghost predicate NoConflicts(pt: ParseTables) {
    forall s, t :: t in RowAt(pt, s) ==> !RowAt(pt, s)[t].Conflict?
  }

  // Taking the only choice loses no accepting run.
  lemma OnlyChoice(g: Grammar, pt: ParseTables, input: seq<Token>, states: seq<nat>, pos: nat, x: Action, states': seq<nat>, pos': nat)
    requires states != [] && Choices(pt, Last(states), TokenAt(input, pos).kind) == [x]
    requires match x
             case ShiftTo(q) => states' == states + [q] && pos' == pos + 1
             case ReduceBy(r) => PopGoto(g, pt, states, r) == Some(states') && pos' == pos
             case _ => false
    ensures CanAccept(g, pt, input, states, pos) <==> CanAccept(g, pt, input, states', pos')
  {
    hide Choices, PopGoto;
    if CanAccept(g, pt, input, states, pos) {
      var acts :| AcceptsBy(g, pt, input, states, pos, acts);
      assert x in [x] && acts != [] && acts[0] == x;
      assert AcceptsBy(g, pt, input, states', pos', acts[1..]);
    }
    if CanAccept(g, pt, input, states', pos') {
      assert x in [x];
      StepAccepts(g, pt, input, states, pos, x, states', pos');
    }
  }

  lemma NoChoice(g: Grammar, pt: ParseTables, input: seq<Token>, states: seq<nat>, pos: nat)
    requires states != [] && Choices(pt, Last(states), TokenAt(input, pos).kind) == []
    ensures !CanAccept(g, pt, input, states, pos)
  {
    hide Choices;
  }

  lemma ReducedStates(g: Grammar, pt: ParseTables, st: Stack, r: nat)
    requires Shaped(st) && r < |g| && Reduced(g, pt, st, r).Some?
    ensures PopGoto(g, pt, st.states, r) == Some(Reduced(g, pt, st, r).value.states)
  {
  }

  // ----- the run so far -----

  // `k` steps lead here from the start.
  ghost predicate CameHere(g: Grammar, pt: ParseTables, input: seq<Token>, st: Stack, pos: nat, k: nat) {
    exists acts :: |acts| == k && Runs(g, pt, input, INITIAL, acts, Config(st, pos))
  }

  /** Unless the tables hold conflicts, it took `k` steps to get here, and every accepting run passes through here
      after as many. */
  ghost predicate OnTrack(g: Grammar, pt: ParseTables, input: seq<Token>, st: Stack, pos: nat, k: nat) {
    && (NoConflicts(pt) ==> CameHere(g, pt, input, st, pos, k))
    && (NoConflicts(pt) ==>
          forall acts, c {:trigger Accepts(g, pt, input, INITIAL, acts, c)} | Accepts(g, pt, input, INITIAL, acts, c) ::
            k <= |acts| && Accepts(g, pt, input, Config(st, pos), acts[k..], c))
  }

  lemma TrackStart(g: Grammar, pt: ParseTables, input: seq<Token>)
    ensures OnTrack(g, pt, input, EMPTY, 0, 0)
  {
    hide Accepts;
    assert Runs(g, pt, input, INITIAL, [], Config(EMPTY, 0));
    forall acts, c | Accepts(g, pt, input, INITIAL, acts, c) ensures Accepts(g, pt, input, Config(EMPTY, 0), acts[0..], c) {
      assert acts[0..] == acts;
    }
  }

  lemma TrackStep(g: Grammar, pt: ParseTables, input: seq<Token>, st: Stack, pos: nat, k: nat, x: Action, c1: Config)
    requires OnTrack(g, pt, input, st, pos, k) && Shaped(st)
    requires Choices(pt, Top(st), TokenAt(input, pos).kind) == [x] && Act(g, pt, input, Config(st, pos), x) == Some(c1)
    ensures OnTrack(g, pt, input, c1.st, c1.pos, k + 1)
  {
    hide Choices, NoConflicts, Accepts, Act, Runs;
    if NoConflicts(pt) {
      var came :| |came| == k && Runs(g, pt, input, INITIAL, came, Config(st, pos));
      RunsOne(g, pt, input, Config(st, pos), x, c1);
      RunsTransitive(g, pt, input, INITIAL, came, Config(st, pos), [x], c1);
      assert |came + [x]| == k + 1;
      forall acts, c | Accepts(g, pt, input, INITIAL, acts, c)
        ensures k + 1 <= |acts| && Accepts(g, pt, input, c1, acts[k + 1..], c)
      {
        AcceptsStep(g, pt, input, Config(st, pos), x, c1, acts[k..], c);
        assert acts[k..][1..] == acts[k + 1..];
      }
    }
  }

  lemma AcceptsStep(g: Grammar, pt: ParseTables, input: seq<Token>, c0: Config, x: Action, c1: Config, acts: seq<Action>, c: Config)
    requires Shaped(c0.st) && Choices(pt, Top(c0.st), TokenAt(input, c0.pos).kind) == [x] && Act(g, pt, input, c0, x) == Some(c1)
    requires Accepts(g, pt, input, c0, acts, c)
    ensures acts != [] && Accepts(g, pt, input, c1, acts[1..], c)
  {
    hide Choices, Reduced;
    assert x in [x];
  }

  lemma TrackDead(g: Grammar, pt: ParseTables, input: seq<Token>, st: Stack, pos: nat, k: nat)
    requires OnTrack(g, pt, input, st, pos, k) && NoConflicts(pt) && Shaped(st)
    requires Choices(pt, Top(st), TokenAt(input, pos).kind) == []
    ensures forall acts, c :: !Accepts(g, pt, input, INITIAL, acts, c)
  {
    hide Choices, NoConflicts, Reduced, CameHere;
    forall acts, c ensures !Accepts(g, pt, input, INITIAL, acts, c) {
      if Accepts(g, pt, input, INITIAL, acts, c) {
        assert Accepts(g, pt, input, Config(st, pos), acts[k..], c);
        AcceptsSome(g, pt, input, Config(st, pos), acts[k..], c);
      }
    }
  }

  lemma AcceptsSome(g: Grammar, pt: ParseTables, input: seq<Token>, c0: Config, acts: seq<Action>, c: Config)
    requires Shaped(c0.st) && Accepts(g, pt, input, c0, acts, c)
    ensures Choices(pt, Top(c0.st), TokenAt(input, c0.pos).kind) != []
    ensures Choices(pt, Top(c0.st), TokenAt(input, c0.pos).kind) == [AcceptAll] ==> acts == [] && c == c0
  {
    hide Choices, Reduced;
  }

  // ----- the loop -----

  /** The machine is in order: its stack is well built from the tokens shifted so far, and unless `prefix`
      mode is on nothing has been lost. */
  ghost predicate Running(g: Grammar, bs: Basis, pt: ParseTables, input: seq<Token>, prefix: bool, st: Stack, pos: nat, k: nat) {
    && Fine(g, bs, input, st, pos)
    && (!prefix ==> (CanAccept(g, pt, input, [0], 0) <==> CanAccept(g, pt, input, st.states, pos)))
    && (!prefix ==> OnTrack(g, pt, input, st, pos, k))
  }

  lemma RunningStart(g: Grammar, bs: Basis, pt: ParseTables, input: seq<Token>, prefix: bool)
    ensures Running(g, bs, pt, input, prefix, EMPTY, 0, 0)
  {
    hide OnTrack, CanAccept, Fine;
    FineStart(g, bs, input);
    TrackStart(g, pt, input);
  }

  lemma RunningShift(g: Grammar, bs: Basis, pt: ParseTables, input: seq<Token>, prefix: bool, st: Stack, pos: nat, k: nat, q: nat)
    requires Backed(g, bs, pt) && Kinds(input) && Running(g, bs, pt, input, prefix, st, pos, k)
    requires Shaped(st) && Choices(pt, Top(st), TokenAt(input, pos).kind) == [ShiftTo(q)]
    ensures pos < |input|
    ensures Running(g, bs, pt, input, prefix, Push(st, q, Leaf(input[pos])), pos + 1, k + 1)
  {
    hide Backed, Kinds, Fine, OnTrack, CanAccept, Choices;
    var x := ShiftTo(q);
    assert x in [x];
    FineShift(g, bs, pt, input, st, pos, q);
    var st' := Push(st, q, Leaf(input[pos]));
    OnlyChoice(g, pt, input, st.states, pos, x, st'.states, pos + 1);
    if !prefix {
      TrackStep(g, pt, input, st, pos, k, x, Config(st', pos + 1));
    }
  }

  lemma RunningReduce(g: Grammar, bs: Basis, pt: ParseTables, input: seq<Token>, prefix: bool, st: Stack, pos: nat, k: nat,
                      t: Terminal, r: nat)
    requires Backed(g, bs, pt) && Running(g, bs, pt, input, prefix, st, pos, k)
    requires Shaped(st) && Choices(pt, Top(st), t) == [ReduceBy(r)] && (!prefix ==> t == TokenAt(input, pos).kind)
    ensures r < |g| && Reduced(g, pt, st, r).Some? && |g[r].rhs| + g[r].peek <= |st.values|
    ensures Running(g, bs, pt, input, prefix, Reduced(g, pt, st, r).value, pos, k + 1)
  {
    hide Backed, Fine, OnTrack, CanAccept, Choices, Reduced;
    var x := ReduceBy(r);
    assert x in [x];
    FineReduce(g, bs, pt, input, st, pos, t, r);
    var st' := Reduced(g, pt, st, r).value;
    ReducedStates(g, pt, st, r);
    if !prefix {
      OnlyChoice(g, pt, input, st.states, pos, x, st'.states, pos);
      TrackStep(g, pt, input, st, pos, k, x, Config(st', pos));
    }
  }

  lemma RunningSettled(g: Grammar, bs: Basis, pt: ParseTables, input: seq<Token>, prefix: bool, st: Stack, pos: nat, k: nat, st': Stack, pos': nat)
    requires Running(g, bs, pt, input, prefix, st, pos, k) && !NoConflicts(pt)
    requires SettledWell(g, bs, pt, input, pos, st.states, st', pos')
    ensures Running(g, bs, pt, input, prefix, st', pos', k + 1)
  {
    hide Fine, NoConflicts, CanAccept, OnlyStack;
  }

  // What a stack must look like for the parser to be able to go on.
  lemma RunningShape(g: Grammar, bs: Basis, pt: ParseTables, input: seq<Token>, prefix: bool, st: Stack, pos: nat, k: nat)
    requires Running(g, bs, pt, input, prefix, st, pos, k)
    ensures Shaped(st) && pos <= |input| && Fine(g, bs, input, st, pos) && Last(st.states) == Top(st)
    ensures Fine(g, bs, input[..pos], st, pos)
  {
    hide CanAccept, OnTrack, Fine;
    FineShape(g, bs, input, st, pos);
    assert input[..pos][..pos] == input[..pos];
    FinePrefix(g, bs, input, input[..pos], st, pos);
  }

  /** Pop a right-hand side, read what the action peeks at, and push what it builds. */
  method ReduceTop(g: Grammar, pt: ParseTables, st: Stack, r: nat) returns (st': Option<Stack>)
    requires Shaped(st) && r < |g| && |g[r].rhs| + g[r].peek <= |st.values|
    ensures st' == Reduced(g, pt, st, r)
  {
    var rhsLen, peek := |g[r].rhs|, g[r].peek;
    var states, values := st.states, st.values;
    var peeked := values[|values| - rhsLen - peek..|values| - rhsLen];
    var kids := values[|values| - rhsLen..];
    values := values[..|values| - rhsLen];
    states := states[..|states| - rhsLen];
    var topState := states[|states| - 1];
    var state := GotoAt(pt, topState, g[r].lhs);
    if state.None? { return None; }
    st' := Some(Stack(states + [state.value], values + [Node(r, peeked, kids)]));
  }

  // ----- how it can end -----

  /** What each outcome says about the input. */
  ghost predicate OutcomeOk(g: Grammar, exact: bool, pt: ParseTables, input: seq<Token>, prefix: bool, fuel: nat, out: Outcome) {
    match out
    case Parsed(value, shifted, boundary) =>
      && shifted <= |input| && StandsFor(g, exact, value, input[..shifted])
      && (!prefix ==> shifted == |input| && CanAccept(g, pt, input, [0], 0))
      && shifted <= boundary <= shifted + 1 && (!prefix || NoConflicts(pt) ==> boundary == shifted)
    case SyntaxError(_) => !prefix ==> !CanAccept(g, pt, input, [0], 0)
    case TooMuchWork => !NoConflicts(pt)
    case OutOfFuel => true
    case Stuck => false
  }

  ghost predicate LongRun(g: Grammar, pt: ParseTables, input: seq<Token>, fuel: nat) {
    exists acts, c :: |acts| == fuel && Runs(g, pt, input, INITIAL, acts, c)
  }

  /** Without conflicts, an accepting run that fits the fuel is the one that is followed, and running out of
      fuel takes a run of as many steps. */
  ghost predicate Deterministically(g: Grammar, pt: ParseTables, input: seq<Token>, fuel: nat, out: Outcome) {
    && (NoConflicts(pt) && out.OutOfFuel? ==> LongRun(g, pt, input, fuel))
    && (NoConflicts(pt) ==>
          forall acts, c {:trigger Accepts(g, pt, input, INITIAL, acts, c)} | Accepts(g, pt, input, INITIAL, acts, c) ::
            if out.OutOfFuel? then |acts| >= fuel
            else |c.st.values| > 0 && out == Parsed(c.st.values[|c.st.values| - 1], c.pos, c.pos))
  }

  lemma EndsInError(g: Grammar, bs: Basis, pt: ParseTables, input: seq<Token>, prefix: bool, fuel: nat, st: Stack, pos: nat, k: nat)
    requires Running(g, bs, pt, input, prefix, st, pos, k) && Shaped(st)
    requires !prefix ==> Choices(pt, Top(st), TokenAt(input, pos).kind) == []
    ensures OutcomeOk(g, bs.exact, pt, input, prefix, fuel, SyntaxError(pos))
    ensures !prefix ==> Deterministically(g, pt, input, fuel, SyntaxError(pos))
  {
    hide CanAccept, Choices, Accepts, OnTrack, Fine, NoConflicts;
    if !prefix {
      NoChoice(g, pt, input, st.states, pos);
      if NoConflicts(pt) { TrackDead(g, pt, input, st, pos, k); }
    }
  }

  lemma EndsInAccept(g: Grammar, bs: Basis, pt: ParseTables, input: seq<Token>, prefix: bool, fuel: nat, st: Stack, pos: nat, k: nat,
                     t: Terminal)
    requires Backed(g, bs, pt) && Kinds(input) && Running(g, bs, pt, input, prefix, st, pos, k)
    requires Shaped(st) && Choices(pt, Top(st), t) == [AcceptAll] && (!prefix ==> t == TokenAt(input, pos).kind)
    ensures |st.values| == 1 && OutcomeOk(g, bs.exact, pt, input, prefix, fuel, Parsed(st.values[0], pos, pos))
    ensures !prefix ==> Deterministically(g, pt, input, fuel, Parsed(st.values[0], pos, pos))
  {
    hide Backed, Kinds, Fine, OnTrack, Choices, StandsFor, Accepts, CanAccept, NoConflicts;
    assert AcceptAll in [AcceptAll];
    FineAccept(g, bs, pt, input, st, pos, t);
    if !prefix {
      AcceptingStack(g, pt, input, st, pos);
      WholeInput(input, pos);
      TrackAccepts(g, pt, input, fuel, st, pos, k);
    }
  }

  lemma AcceptingStack(g: Grammar, pt: ParseTables, input: seq<Token>, st: Stack, pos: nat)
    requires Shaped(st) && Choices(pt, Top(st), TokenAt(input, pos).kind) == [AcceptAll]
    ensures CanAccept(g, pt, input, st.states, pos)
  {
    hide Choices;
    assert AcceptAll in [AcceptAll];
    assert AcceptsBy(g, pt, input, st.states, pos, []);
  }

  lemma WholeInput(input: seq<Token>, pos: nat)
    requires Kinds(input) && pos <= |input|
    ensures TokenAt(input, pos).kind == End ==> pos == |input|
  {
  }

  lemma TrackAccepts(g: Grammar, pt: ParseTables, input: seq<Token>, fuel: nat, st: Stack, pos: nat, k: nat)
    requires OnTrack(g, pt, input, st, pos, k) && Shaped(st) && |st.values| == 1
    requires Choices(pt, Top(st), TokenAt(input, pos).kind) == [AcceptAll]
    ensures Deterministically(g, pt, input, fuel, Parsed(st.values[0], pos, pos))
  {
    hide Choices, Accepts, NoConflicts;
    if NoConflicts(pt) {
      forall acts, c | Accepts(g, pt, input, INITIAL, acts, c) ensures c == Config(st, pos) {
        AcceptsSome(g, pt, input, Config(st, pos), acts[k..], c);
      }
    }
  }

  lemma EndsInFork(g: Grammar, bs: Basis, pt: ParseTables, input: seq<Token>, prefix: bool, fuel: nat, st: Stack, pos: nat, k: nat,
                   upto: nat, value: Tree, boundary: nat)
    requires Running(g, bs, pt, input, prefix, st, pos, k) && !NoConflicts(pt)
    requires upto <= |input| && StandsFor(g, bs.exact, value, input[..upto])
    requires !prefix ==> upto == |input| == boundary && CanAccept(g, pt, input, st.states, pos)
    requires upto <= boundary <= upto + 1
    ensures OutcomeOk(g, bs.exact, pt, input, prefix, fuel, Parsed(value, upto, boundary))
    ensures Deterministically(g, pt, input, fuel, Parsed(value, upto, boundary))
  {
    hide NoConflicts, CanAccept, StandsFor, Accepts, OnTrack, Fine;
  }

  lemma OnlyEntry(pt: ParseTables, s: nat, t: Terminal)
    requires t in RowAt(pt, s)
    ensures RowAt(pt, s)[t].ShiftTo? || RowAt(pt, s)[t].ReduceBy? || RowAt(pt, s)[t].AcceptAll? ==> Choices(pt, s, t) == [RowAt(pt, s)[t]]
    ensures RowAt(pt, s)[t].ErrorToken? ==> Choices(pt, s, t) == []
    ensures RowAt(pt, s)[t].Conflict? ==> !NoConflicts(pt)
  {
  }

  lemma PrefixKinds(pt: ParseTables, input: seq<Token>, pos: nat)
    requires Kinds(input) && NothingIgnored(pt, input) && pos <= |input|
    ensures Kinds(input[..pos]) && NothingIgnored(pt, input[..pos]) && TokenAt(input[..pos], pos).kind == End
    ensures NotIgnored(pt, End) && NotIgnored(pt, TokenAt(input, pos).kind)
  {
    hide NotIgnored;
    assert NotIgnored(pt, TokenAt(input, |input|).kind);
    forall i: nat ensures NotIgnored(pt, TokenAt(input[..pos], i).kind) {
      if i < pos { assert TokenAt(input[..pos], i) == TokenAt(input, i); }
    }
  }

  lemma NoShiftOnEnd(g: Grammar, bs: Basis, pt: ParseTables, input: seq<Token>, st: Stack, pos: nat, t: Terminal, q: nat)
    requires Backed(g, bs, pt) && Fine(g, bs, input, st, pos) && Shaped(st) && Choices(pt, Top(st), t) == [ShiftTo(q)]
    ensures t != End
  {
    hide Backed, Fine, Choices;
    assert ShiftTo(q) in [ShiftTo(q)];
    FineChoice(g, bs, pt, input, st, pos, t, ShiftTo(q));
  }

  lemma SettledInside(g: Grammar, bs: Basis, pt: ParseTables, input: seq<Token>, pos: nat, states: seq<nat>, st': Stack, pos': nat)
    requires SettledWell(g, bs, pt, input, pos, states, st', pos')
    ensures pos < |input|
  {
    hide CanAccept, OnlyStack, Fine;
  }

  lemma NotIgnoredHere(pt: ParseTables, s: nat, t: Terminal)
    requires NotIgnored(pt, t) && t in RowAt(pt, s)
    ensures !RowAt(pt, s)[t].IgnoreToken?
  {
  }

  // Where the parser reports to have stopped when a fork accepts on the synthetic end: behind the
  // lookahead, which has been lexed by then, unless no terminal matched there.
  function Lexed(input: seq<Token>, pos: nat): nat {
    if pos < |input| && input[pos].kind != Error then pos + 1 else pos
  }

  predicate Unfit(pt: ParseTables, s: nat, t: Terminal) {
    t !in RowAt(pt, s) || RowAt(pt, s)[t].ErrorToken?
  }

  /** A token was lexed that does not fit, and on the end taken for it there is a fork. */
  predicate ForksOnEnd(pt: ParseTables, input: seq<Token>, s: nat, pos: nat) {
    && pos < |input| && input[pos].kind != Error && Unfit(pt, s, input[pos].kind)
    && End in RowAt(pt, s) && RowAt(pt, s)[End].Conflict?
  }

  // The state `at` is on top of a stack in order.
  ghost predicate StoppedAt(g: Grammar, bs: Basis, input: seq<Token>, pos: nat, at: nat) {
    exists st :: Fine(g, bs, input, st, pos) && Shaped(st) && Top(st) == at
  }

  // ----- where there was only one way to go -----

  // What the entry for the next token does, if it is one shift or one reduction.
  ghost function Only(g: Grammar, pt: ParseTables, input: seq<Token>, c: Config): Option<Config> {
    if !Shaped(c.st) then None
    else
      var s, t := Top(c.st), TokenAt(input, c.pos).kind;
      if t in RowAt(pt, s) && (RowAt(pt, s)[t].ShiftTo? || RowAt(pt, s)[t].ReduceBy?) then Act(g, pt, input, c, RowAt(pt, s)[t]) else None
  }

  /** Where the machine is after `n` steps without a fork and without taking a token for the end. */
  ghost function Forced(g: Grammar, pt: ParseTables, input: seq<Token>, n: nat): Option<Config> {
    if n == 0 then Some(INITIAL)
    else
      match Forced(g, pt, input, n - 1)
      case None => None
      case Some(c) => Only(g, pt, input, c)
  }

  // There, a token that does not fit is taken for an end on which there is a fork.
  ghost predicate ForksAt(g: Grammar, pt: ParseTables, input: seq<Token>, n: nat) {
    match Forced(g, pt, input, n)
    case None => false
    case Some(c) => Shaped(c.st) && ForksOnEnd(pt, input, Top(c.st), c.pos)
  }

  // What can come of that.
  ghost predicate EndsBehind(g: Grammar, pt: ParseTables, input: seq<Token>, c: Config, out: Outcome) {
    match out
    case Parsed(_, shifted, boundary) => shifted == c.pos && boundary == c.pos + 1
    case SyntaxError(_) => c.pos <= |input| && !CanAccept(g, pt, input[..c.pos], c.st.states, c.pos)
    case TooMuchWork => true
    case _ => false
  }

  /** Wherever this happens within the fuel, a value is reported to end behind a token that did not go into it. */
  ghost predicate StopsBehind(g: Grammar, pt: ParseTables, input: seq<Token>, fuel: nat, out: Outcome) {
    forall n: nat | n < fuel && ForksAt(g, pt, input, n) :: EndsBehind(g, pt, input, Forced(g, pt, input, n).value, out)
  }

  ghost predicate Marching(g: Grammar, pt: ParseTables, input: seq<Token>, st: Stack, pos: nat, k: nat) {
    && (Forced(g, pt, input, k).Some? ==> Forced(g, pt, input, k) == Some(Config(st, pos)))
    && forall n: nat | n < k :: !ForksAt(g, pt, input, n)
  }

  lemma MarchStart(g: Grammar, pt: ParseTables, input: seq<Token>)
    ensures Marching(g, pt, input, EMPTY, 0, 0)
  {
  }

  lemma MarchOn(g: Grammar, pt: ParseTables, input: seq<Token>, st: Stack, pos: nat, k: nat, st': Stack, pos': nat)
    requires Marching(g, pt, input, st, pos, k) && Shaped(st) && !ForksOnEnd(pt, input, Top(st), pos)
    requires var next := Only(g, pt, input, Config(st, pos)); next.None? || next == Some(Config(st', pos'))
    ensures Marching(g, pt, input, st', pos', k + 1)
  {
    hide ForksOnEnd, Only;
    assert !ForksAt(g, pt, input, k);
  }

  lemma {:induction false} NotForced(g: Grammar, pt: ParseTables, input: seq<Token>, k: nat, n: nat)
    requires k <= n && Forced(g, pt, input, k).None?
    ensures Forced(g, pt, input, n).None?
    decreases n
  {
    hide Only;
    if k < n { NotForced(g, pt, input, k, n - 1); }
  }

  lemma MarchEnds(g: Grammar, pt: ParseTables, input: seq<Token>, st: Stack, pos: nat, k: nat, fuel: nat, out: Outcome)
    requires Marching(g, pt, input, st, pos, k) && Shaped(st) && Only(g, pt, input, Config(st, pos)).None?
    requires ForksOnEnd(pt, input, Top(st), pos) ==> EndsBehind(g, pt, input, Config(st, pos), out)
    ensures StopsBehind(g, pt, input, fuel, out)
  {
    hide ForksOnEnd, Only, EndsBehind;
    forall n: nat | n < fuel && ForksAt(g, pt, input, n) ensures EndsBehind(g, pt, input, Forced(g, pt, input, n).value, out) {
      if n > k { NotForced(g, pt, input, k + 1, n); }
    }
  }

  lemma MarchOut(g: Grammar, pt: ParseTables, input: seq<Token>, st: Stack, pos: nat, fuel: nat, out: Outcome)
    requires Marching(g, pt, input, st, pos, fuel)
    ensures StopsBehind(g, pt, input, fuel, out)
  {
    hide ForksAt, EndsBehind;
  }

  // The token fits: no fork on the end, and its entry is taken.
  lemma FitsHere(g: Grammar, pt: ParseTables, input: seq<Token>, st: Stack, pos: nat)
    requires Shaped(st) && TokenAt(input, pos).kind in RowAt(pt, Top(st)) && !RowAt(pt, Top(st))[TokenAt(input, pos).kind].ErrorToken?
    ensures !ForksOnEnd(pt, input, Top(st), pos)
    ensures var x := RowAt(pt, Top(st))[TokenAt(input, pos).kind];
            Only(g, pt, input, Config(st, pos)) == if x.ShiftTo? || x.ReduceBy? then Act(g, pt, input, Config(st, pos), x) else None
  {
    hide Act;
  }

  // It does not: nothing is forced, and on the end there is a fork only if its entry is one.
  lemma UnfitHere(g: Grammar, pt: ParseTables, input: seq<Token>, st: Stack, pos: nat)
    requires Shaped(st) && Unfit(pt, Top(st), TokenAt(input, pos).kind)
    ensures Only(g, pt, input, Config(st, pos)).None?
    ensures ForksOnEnd(pt, input, Top(st), pos) ==> End in RowAt(pt, Top(st)) && RowAt(pt, Top(st))[End].Conflict?
    ensures ForksOnEnd(pt, input, Top(st), pos) ==> pos < |input| && Lexed(input, pos) == pos + 1
  {
    hide Act;
  }

  // An accept entry of its own is no fork, and a whole input leaves no token unread.
  lemma NoForkHere(g: Grammar, bs: Basis, pt: ParseTables, input: seq<Token>, st: Stack, pos: nat, t: Terminal)
    requires Backed(g, bs, pt) && Kinds(input) && Fine(g, bs, input, st, pos) && Shaped(st) && t in RowAt(pt, Top(st)) && RowAt(pt, Top(st))[t].AcceptAll?
    ensures !ForksOnEnd(pt, input, Top(st), pos)
  {
    hide Backed, Fine, Kinds;
    assert AcceptAll in Choices(pt, Top(st), t);
    FineChoice(g, bs, pt, input, st, pos, t, AcceptAll);
  }

  // What the loop looks at: the entry of the token or, where that does not fit, in prefix mode that of the end.
  predicate LooksAt(pt: ParseTables, input: seq<Token>, prefix: bool, s: nat, pos: nat, kind: Terminal) {
    && kind in RowAt(pt, s)
    && if Unfit(pt, s, TokenAt(input, pos).kind) then prefix && kind == End else kind == TokenAt(input, pos).kind
  }

  // No row has a conflict entry on the end of the input.
  ghost predicate EndNeverForks(pt: ParseTables) {
    forall s :: End in RowAt(pt, s) ==> !RowAt(pt, s)[End].Conflict?
  }

  lemma TrackedStart(g: Grammar, pt: ParseTables, input: seq<Token>, prefix: bool)
    ensures Tracked(g, pt, input, prefix, EMPTY, 0, 0)
  {
    hide NoConflicts;
    MarchStart(g, pt, input);
  }

  lemma TrackedOut(g: Grammar, pt: ParseTables, input: seq<Token>, prefix: bool, st: Stack, pos: nat, fuel: nat)
    requires Tracked(g, pt, input, prefix, st, pos, fuel)
    ensures EndsRight(g, pt, input, prefix, fuel, OutOfFuel)
  {
    hide NoConflicts, Marching, StopsBehind, Forced;
    if prefix { MarchOut(g, pt, input, st, pos, fuel, OutOfFuel); }
  }

  // In prefix mode as above; otherwise, without conflict entries, where the machine is forced to be.
  ghost predicate Tracked(g: Grammar, pt: ParseTables, input: seq<Token>, prefix: bool, st: Stack, pos: nat, k: nat) {
    if prefix then Marching(g, pt, input, st, pos, k) else NoConflicts(pt) ==> Forced(g, pt, input, k) == Some(Config(st, pos))
  }

  /** Not in prefix mode, and without conflict entries, the fuel runs out exactly if there are as many forced steps. */
  ghost predicate EndsRight(g: Grammar, pt: ParseTables, input: seq<Token>, prefix: bool, fuel: nat, out: Outcome) {
    if prefix then StopsBehind(g, pt, input, fuel, out)
    else NoConflicts(pt) ==> (out.OutOfFuel? <==> Forced(g, pt, input, fuel).Some?)
  }

  lemma FollowedOn(g: Grammar, pt: ParseTables, input: seq<Token>, st: Stack, pos: nat, k: nat, st': Stack, pos': nat)
    requires NoConflicts(pt) ==> Forced(g, pt, input, k) == Some(Config(st, pos)) && Only(g, pt, input, Config(st, pos)) == Some(Config(st', pos'))
    ensures NoConflicts(pt) ==> Forced(g, pt, input, k + 1) == Some(Config(st', pos'))
  {
    hide Only, NoConflicts;
  }

  lemma FollowedEnds(g: Grammar, pt: ParseTables, input: seq<Token>, st: Stack, pos: nat, k: nat, fuel: nat)
    requires k < fuel && (NoConflicts(pt) ==> Forced(g, pt, input, k) == Some(Config(st, pos)) && Only(g, pt, input, Config(st, pos)).None?)
    ensures NoConflicts(pt) ==> Forced(g, pt, input, fuel).None?
  {
    hide Only, NoConflicts;
    if NoConflicts(pt) { NotForced(g, pt, input, k + 1, fuel); }
  }

  lemma EndsUnfit(g: Grammar, pt: ParseTables, input: seq<Token>, prefix: bool, st: Stack, pos: nat, k: nat, fuel: nat, out: Outcome)
    requires k < fuel && !out.OutOfFuel?
    requires Tracked(g, pt, input, prefix, st, pos, k) && Shaped(st)
    requires Unfit(pt, Top(st), TokenAt(input, pos).kind) && (prefix ==> End !in RowAt(pt, Top(st)))
    ensures EndsRight(g, pt, input, prefix, fuel, out)
  {
    hide Marching, StopsBehind, Forced, NoConflicts, EndsBehind, Only;
    UnfitHere(g, pt, input, st, pos);
    if prefix { MarchEnds(g, pt, input, st, pos, k, fuel, out); } else { FollowedEnds(g, pt, input, st, pos, k, fuel); }
  }

  lemma EndsElsewhere(g: Grammar, pt: ParseTables, input: seq<Token>, prefix: bool, st: Stack, pos: nat, k: nat, kind: Terminal, fuel: nat, out: Outcome)
    requires k < fuel && !out.OutOfFuel?
    requires Tracked(g, pt, input, prefix, st, pos, k) && Shaped(st) && LooksAt(pt, input, prefix, Top(st), pos, kind)
    requires RowAt(pt, Top(st))[kind].ErrorToken? || RowAt(pt, Top(st))[kind].AcceptAll?
    ensures EndsRight(g, pt, input, prefix, fuel, out)
  {
    hide Marching, StopsBehind, Forced, NoConflicts, EndsBehind, Only, Act;
    if Unfit(pt, Top(st), TokenAt(input, pos).kind) { UnfitHere(g, pt, input, st, pos); } else { FitsHere(g, pt, input, st, pos); }
    if prefix { MarchEnds(g, pt, input, st, pos, k, fuel, out); } else { FollowedEnds(g, pt, input, st, pos, k, fuel); }
  }

  lemma EndsAtFork(g: Grammar, pt: ParseTables, input: seq<Token>, prefix: bool, st: Stack, pos: nat, k: nat, kind: Terminal, fuel: nat, out: Outcome)
    requires k < fuel && !out.OutOfFuel?
    requires Tracked(g, pt, input, prefix, st, pos, k) && Shaped(st) && LooksAt(pt, input, prefix, Top(st), pos, kind)
    requires RowAt(pt, Top(st))[kind].Conflict? && pos <= |input|
    requires Unfit(pt, Top(st), TokenAt(input, pos).kind) ==>
               match out
               case Parsed(_, shifted, boundary) => shifted == pos && boundary == Lexed(input, pos)
               case SyntaxError(_) => !CanAccept(g, pt, input[..pos], st.states, pos)
               case TooMuchWork => true
               case _ => false
    ensures EndsRight(g, pt, input, prefix, fuel, out)
  {
    hide Marching, StopsBehind, Forced, NoConflicts, Only, Act, CanAccept;
    if Unfit(pt, Top(st), TokenAt(input, pos).kind) { UnfitHere(g, pt, input, st, pos); } else { FitsHere(g, pt, input, st, pos); }
    if prefix { MarchEnds(g, pt, input, st, pos, k, fuel, out); } else { FollowedEnds(g, pt, input, st, pos, k, fuel); }
  }

  lemma StepsOn(g: Grammar, pt: ParseTables, input: seq<Token>, prefix: bool, st: Stack, pos: nat, k: nat, kind: Terminal, st': Stack, pos': nat)
    requires Tracked(g, pt, input, prefix, st, pos, k) && Shaped(st) && LooksAt(pt, input, prefix, Top(st), pos, kind)
    requires match RowAt(pt, Top(st))[kind]
             case Conflict(_) => !Unfit(pt, Top(st), TokenAt(input, pos).kind)
             case ShiftTo(q) => st' == Push(st, q, Leaf(TokenAt(input, pos))) && pos' == pos + 1
             case ReduceBy(r) => r < |g| && Reduced(g, pt, st, r) == Some(st') && pos' == pos
             case _ => false
    ensures Tracked(g, pt, input, prefix, st', pos', k + 1)
  {
    hide Marching, Forced, Only, Reduced, NoConflicts;
    if Unfit(pt, Top(st), TokenAt(input, pos).kind) { UnfitHere(g, pt, input, st, pos); } else { FitsHere(g, pt, input, st, pos); }
    OnlyEntry(pt, Top(st), kind);
    if prefix { MarchOn(g, pt, input, st, pos, k, st', pos'); } else { FollowedOn(g, pt, input, st, pos, k, st', pos'); }
  }

  /** Run the tables over the input, without error recovery. In `prefix` mode a lookahead that does not
      fit is taken as the end of the input, for as long as the row offers something on `$end`. The boundary
      reported lies behind a token that was not shifted just when the value was accepted by a fork on that end;
      `at` is the state this happened in. */
  method RunParser(g: Grammar, ghost bs: Basis, pt: ParseTables, input: seq<Token>, prefix: bool, fuel: nat) returns (out: Outcome, ghost at: nat)
    requires Backed(g, bs, pt) && Kinds(input) && NothingIgnored(pt, input)
    ensures OutcomeOk(g, bs.exact, pt, input, prefix, fuel, out)
    ensures !prefix ==> Deterministically(g, pt, input, fuel, out)
    ensures out.Parsed? ==> (out.boundary != out.shifted <==> prefix && ForksOnEnd(pt, input, at, out.shifted))
    ensures out.Parsed? && out.boundary != out.shifted ==> out.boundary == out.shifted + 1 && StoppedAt(g, bs, input, out.shifted, at)
    ensures EndsRight(g, pt, input, prefix, fuel, out)
    ensures out.Parsed? && EndNeverForks(pt) ==> out.boundary == out.shifted
  {
    hide Tracked, EndsRight, Marching, StopsBehind, EndsBehind, Only, Forced, Act, Backed, Kinds, NotIgnored, NothingIgnored, Running, OutcomeOk, Deterministically, Fine, Choices, RowAt, SettledWell, StandsFor, CanAccept,
      Reduced, NoConflicts, StoppedAt, ForksOnEnd;
    var stack, pos, k := EMPTY, 0, 0;
    at := 0;
    RunningStart(g, bs, pt, input, prefix);
    TrackedStart(g, pt, input, prefix);
    while k < fuel
      invariant Running(g, bs, pt, input, prefix, stack, pos, k) && k <= fuel
      invariant Tracked(g, pt, input, prefix, stack, pos, k)
    {
      RunningShape(g, bs, pt, input, prefix, stack, pos, k);
      PrefixKinds(pt, input, pos);
      var realTok := TokenAt(input, pos);
      var state := Top(stack);
      var row := RowAt(pt, state);
      var failing := realTok.kind !in row || row[realTok.kind].ErrorToken?;
      var syntheticEnd := prefix && failing && End in row;
      if failing && !syntheticEnd {
        FailingChoices(pt, state, realTok.kind);
        EndsInError(g, bs, pt, input, prefix, fuel, stack, pos, k);
        EndsUnfit(g, pt, input, prefix, stack, pos, k, fuel, SyntaxError(pos));
        return SyntaxError(pos), at;
      }
      at := state;
      var kind := if syntheticEnd then End else realTok.kind;
      OnlyEntry(pt, state, kind);
      NotIgnoredHere(pt, state, kind);
      match row[kind] {
        case ErrorToken =>
          EndsInError(g, bs, pt, input, prefix, fuel, stack, pos, k);
          EndsElsewhere(g, pt, input, prefix, stack, pos, k, kind, fuel, SyntaxError(pos));
          return SyntaxError(pos), at;
        case Conflict(_) =>
          var seen := if syntheticEnd then input[..pos] else input;
          assert !syntheticEnd ==> seen == input;
          var found := RunGlrFork(g, bs, pt, seen, pos, stack);
          match found {
            case ForkAccepted(value) =>
              var boundary := if syntheticEnd then Lexed(input, pos) else |input|;
              assert !syntheticEnd ==> input[..|input|] == input;
              EndsInFork(g, bs, pt, input, prefix, fuel, stack, pos, k, |seen|, value, boundary);
              ForkBoundary(g, bs, pt, input, prefix, stack, pos, syntheticEnd);
              EndsAtFork(g, pt, input, prefix, stack, pos, k, kind, fuel, Parsed(value, |seen|, boundary));
              return Parsed(value, |seen|, boundary), at;
            case NoDerivation =>
              EndsInNothing(g, bs, pt, input, prefix, fuel, stack, pos, k);
              EndsAtFork(g, pt, input, prefix, stack, pos, k, kind, fuel, SyntaxError(pos));
              return SyntaxError(pos), at;
            case ForkOverBudget =>
              EndsOverBudget(g, bs, pt, input, prefix, fuel);
              EndsAtFork(g, pt, input, prefix, stack, pos, k, kind, fuel, TooMuchWork);
              return TooMuchWork, at;
            case Settled(stack', pos') =>
              SettledInside(g, bs, pt, seen, pos, stack.states, stack', pos');
              RunningSettled(g, bs, pt, input, prefix, stack, pos, k, stack', pos');
              StepsOn(g, pt, input, prefix, stack, pos, k, kind, stack', pos');
              stack, pos := stack', pos';
          }
        case ShiftTo(q) =>
          NoShiftOnEnd(g, bs, pt, input, stack, pos, kind, q);
          RunningShift(g, bs, pt, input, prefix, stack, pos, k, q);
          StepsOn(g, pt, input, prefix, stack, pos, k, kind, Push(stack, q, Leaf(realTok)), pos + 1);
          stack := Push(stack, q, Leaf(realTok));
          pos := pos + 1;
        case ReduceBy(r) =>
          RunningReduce(g, bs, pt, input, prefix, stack, pos, k, kind, r);
          var next := ReduceTop(g, pt, stack, r);
          if next.None? { return Stuck, at; }
          StepsOn(g, pt, input, prefix, stack, pos, k, kind, next.value, pos);
          stack := next.value;
        case AcceptAll =>
          EndsInAccept(g, bs, pt, input, prefix, fuel, stack, pos, k, kind);
          NoForkHere(g, bs, pt, input, stack, pos, kind);
          EndsElsewhere(g, pt, input, prefix, stack, pos, k, kind, fuel, Parsed(stack.values[|stack.values| - 1], pos, pos));
          return Parsed(stack.values[|stack.values| - 1], pos, pos), at;
        case IgnoreToken => return Stuck, at;
      }
      k := k + 1;
    }
    EndsOutOfFuel(g, bs, pt, input, prefix, fuel, stack, pos, k);
    TrackedOut(g, pt, input, prefix, stack, pos, fuel);
    out := OutOfFuel;
  }

  // Where a fork accepts, by the end it saw.
  lemma ForkBoundary(g: Grammar, bs: Basis, pt: ParseTables, input: seq<Token>, prefix: bool, st: Stack, pos: nat, syntheticEnd: bool)
    requires Fine(g, bs, input, st, pos) && Shaped(st) && pos <= |input|
    requires syntheticEnd ==> prefix && Unfit(pt, Top(st), TokenAt(input, pos).kind) && End in RowAt(pt, Top(st)) && RowAt(pt, Top(st))[End].Conflict?
    ensures StoppedAt(g, bs, input, pos, Top(st))
    ensures syntheticEnd ==> (Lexed(input, pos) != pos <==> ForksOnEnd(pt, input, Top(st), pos)) && Lexed(input, pos) <= pos + 1
    ensures !ForksOnEnd(pt, input, Top(st), |input|)
  {
    hide Fine;
  }

  lemma FailingChoices(pt: ParseTables, s: nat, t: Terminal)
    requires t !in RowAt(pt, s) || RowAt(pt, s)[t].ErrorToken?
    ensures Choices(pt, s, t) == []
  {
  }

  lemma EndsInNothing(g: Grammar, bs: Basis, pt: ParseTables, input: seq<Token>, prefix: bool, fuel: nat, st: Stack, pos: nat, k: nat)
    requires Running(g, bs, pt, input, prefix, st, pos, k) && !NoConflicts(pt)
    requires !prefix ==> !CanAccept(g, pt, input, st.states, pos)
    ensures OutcomeOk(g, bs.exact, pt, input, prefix, fuel, SyntaxError(pos)) && Deterministically(g, pt, input, fuel, SyntaxError(pos))
  {
    hide NoConflicts, CanAccept, Accepts, OnTrack, Fine;
  }

  lemma EndsOverBudget(g: Grammar, bs: Basis, pt: ParseTables, input: seq<Token>, prefix: bool, fuel: nat)
    requires !NoConflicts(pt)
    ensures OutcomeOk(g, bs.exact, pt, input, prefix, fuel, TooMuchWork) && Deterministically(g, pt, input, fuel, TooMuchWork)
  {
    hide NoConflicts;
  }

  lemma EndsOutOfFuel(g: Grammar, bs: Basis, pt: ParseTables, input: seq<Token>, prefix: bool, fuel: nat, st: Stack, pos: nat, k: nat)
    requires Running(g, bs, pt, input, prefix, st, pos, k) && k == fuel
    ensures OutcomeOk(g, bs.exact, pt, input, prefix, fuel, OutOfFuel) && (!prefix ==> Deterministically(g, pt, input, fuel, OutOfFuel))
  {
    hide NoConflicts, CanAccept, Accepts, Fine, Runs;
    if !prefix && NoConflicts(pt) {
      var acts :| |acts| == k && Runs(g, pt, input, INITIAL, acts, Config(st, pos));
    }
  }
}
