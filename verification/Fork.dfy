/** Running a fork until a single derivation is left (src/lalr.ts:744-899). */
module Fork {
  import opened Options
  import opened Grammars
  import opened FirstSets
  import opened Automata
  import opened Tables
  import opened Resolution
  import opened Machine
  import opened Restore
  import opened Frames
  import opened Control
  import opened Glr

  // ----- between the flat stack and the chain of frames -----

  // The bottom entry carries no value.
  const NOTHING := Leaf(Token(Error, 0))

  function Bottom(s: nat): Frame {
    Frame(0, s, NOTHING, None)
  }

  method Chain(st: Stack) returns (frame: Frame, counter: nat, ghost made: set<Frame>)
    requires Shaped(st)
    ensures StackOf(frame) == st && Family(made, counter) && frame in made
  {
    hide SameId, ParentIn;
    frame, counter, made := Bottom(st.states[0]), 1, {Bottom(st.states[0])};
    BottomFamily(st.states[0]);
    for i := 0 to |st.values|
      invariant StatesOf(frame) == st.states[..i + 1] && ValuesOf(frame) == st.values[..i]
      invariant Family(made, counter) && frame in made
    {
      var next := Frame(counter, st.states[i + 1], st.values[i], Some(frame));
      FamilyChild(made, counter, next);
      TakeOneMore(st.states, i + 1);
      TakeOneMore(st.values, i);
      frame, counter, made := next, counter + 1, made + {next};
    }
    assert st.states[..|st.values| + 1] == st.states && st.values[..|st.values|] == st.values;
  }

  lemma BottomFamily(s: nat)
    ensures Family({Bottom(s)}, 1)
  {
  }

  lemma FamilyChild(made: set<Frame>, n: nat, f: Frame)
    requires Family(made, n) && f.id == n && f.parent.Some? && f.parent.value in made
    ensures Family(made + {f}, n + 1)
  {
    FamilyGrows(made, n, f);
  }

  method Flatten(winner: Frame) returns (st: Stack)
    ensures st == StackOf(winner)
  {
    var states, values := [], [];
    var f := winner;
    while f.parent.Some?
      invariant StatesOf(f) + states == StatesOf(winner) && ValuesOf(f) + values == ValuesOf(winner)
      decreases f
    {
      states, values := [f.state] + states, [f.value] + values;
      f := f.parent.value;
    }
    st := Stack([f.state] + states, values);
  }

  // ----- merging what converges after a token -----

  // The live frames stand for exactly the stacks of `shifted`.
  ghost predicate SameStacks(active: map<Key, Frame>, shifted: seq<Frame>) {
    forall states :: Has(LiveFrames(active), states) <==> HasShifted(shifted, states)
  }

  function Landed(active: map<Key, Frame>, f: Frame, id: nat): Frame {
    if KeyOf(f) in active then MergeInto(active[KeyOf(f)], f, id) else f
  }

  lemma LandedSame(g: Grammar, bs: Basis, input: seq<Token>, pos: nat, active: map<Key, Frame>, f: Frame, made: set<Frame>, counter: nat)
    requires AutomatonOk(g, bs.auto) && Opening(g, bs, input, pos, active, made, counter)
    requires f in made && f.parent.Some? && FrameOk(g, bs, input, f, pos)
    ensures var top := Landed(active, f, counter);
            && StatesOf(top) == StatesOf(f) && KeyOf(top) == KeyOf(f) && FrameOk(g, bs, input, top, pos)
            && Family(made + {top}, counter + 1)
  {
    hide AutomatonOk, FrameOk;
    var top := Landed(active, f, counter);
    if KeyOf(f) in active {
      SameKey(made, counter, active[KeyOf(f)], f);
      MergeOk(g, bs, input, active[KeyOf(f)], f, f.parent.value, pos, counter);
      assert ParentIn(made, f);
      FamilyGrows(made, counter, top);
    } else {
      assert made + {top} == made;
    }
  }

  lemma LandedOpening(g: Grammar, bs: Basis, input: seq<Token>, pos: nat, active: map<Key, Frame>, f: Frame, made: set<Frame>, counter: nat)
    requires AutomatonOk(g, bs.auto) && Opening(g, bs, input, pos, active, made, counter)
    requires f in made && f.parent.Some? && FrameOk(g, bs, input, f, pos)
    ensures var top := Landed(active, f, counter);
            Opening(g, bs, input, pos, active[KeyOf(f) := top], made + {top}, counter + 1)
  {
    hide AutomatonOk, FrameOk, KeyOf, Family;
    LandedSame(g, bs, input, pos, active, f, made, counter);
  }

  lemma LandedStacks(active: map<Key, Frame>, top: Frame, shifted: seq<Frame>, f: Frame)
    requires SameStacks(active, shifted) && StatesOf(top) == StatesOf(f) && KeyOf(top) == KeyOf(f)
    requires KeyOf(f) in active ==> StatesOf(active[KeyOf(f)]) == StatesOf(f)
    ensures SameStacks(active[KeyOf(f) := top], shifted + [f])
  {
    hide KeyOf, StatesOf;
    var active', shifted' := active[KeyOf(f) := top], shifted + [f];
    forall states ensures Has(LiveFrames(active'), states) <==> HasShifted(shifted', states) {
      if Has(LiveFrames(active'), states) {
        var k :| k in active' && StatesOf(active'[k]) == states;
        if k == KeyOf(f) {
          assert shifted'[|shifted|] == f;
        } else {
          assert active[k] in LiveFrames(active);
          assert Has(LiveFrames(active), states);
          var h :| h in shifted && StatesOf(h) == states;
          assert h in shifted';
        }
      }
      if HasShifted(shifted', states) {
        var h :| h in shifted' && StatesOf(h) == states;
        if h == f {
          assert active'[KeyOf(f)] in LiveFrames(active');
        } else {
          assert h in shifted && HasShifted(shifted, states);
          StillStands(active, f, top, states);
        }
      }
    }
  }

  lemma StillStands(active: map<Key, Frame>, f: Frame, top: Frame, states: seq<nat>)
    requires Has(LiveFrames(active), states) && StatesOf(top) == StatesOf(f)
    requires KeyOf(f) in active ==> StatesOf(active[KeyOf(f)]) == StatesOf(f)
    ensures Has(LiveFrames(active[KeyOf(f) := top]), states)
  {
    hide KeyOf, StatesOf;
    var active' := active[KeyOf(f) := top];
    var k :| k in active && StatesOf(active[k]) == states;
    assert active'[k] in LiveFrames(active');
  }

  lemma LiveSameStates(g: Grammar, bs: Basis, input: seq<Token>, pos: nat, active: map<Key, Frame>, f: Frame, made: set<Frame>, counter: nat)
    requires Opening(g, bs, input, pos, active, made, counter) && f in made && KeyOf(f) in active
    ensures StatesOf(active[KeyOf(f)]) == StatesOf(f)
  {
    hide FrameOk;
    SameKey(made, counter, active[KeyOf(f)], f);
  }

  /** Merge the frames that converge on the next position. */
  method Converge(ghost g: Grammar, ghost bs: Basis, ghost input: seq<Token>, ghost pos: nat, shifted: seq<Frame>, counter: nat,
                  ghost made: set<Frame>) returns (active: map<Key, Frame>, counter': nat, ghost made': set<Frame>)
    requires AutomatonOk(g, bs.auto) && ShiftedOk(g, bs, input, pos, shifted, made, counter)
    ensures Opening(g, bs, input, pos, active, made', counter') && SameStacks(active, shifted)
  {
    hide AutomatonOk, FrameOk, Opening, SameStacks, KeyOf, Family;
    active, counter', made' := map[], counter, made;
    NothingLanded(g, bs, input, pos, made, counter);
    for i := 0 to |shifted|
      invariant Opening(g, bs, input, pos, active, made', counter') && SameStacks(active, shifted[..i]) && made <= made'
    {
      var f := shifted[i];
      var top := Landed(active, f, counter');
      LandedSame(g, bs, input, pos, active, f, made', counter');
      LandedOpening(g, bs, input, pos, active, f, made', counter');
      if KeyOf(f) in active { LiveSameStates(g, bs, input, pos, active, f, made', counter'); }
      LandedStacks(active, top, shifted[..i], f);
      TakeOneMore(shifted, i);
      active := active[KeyOf(f) := top];
      made' := made' + {top};
      counter' := counter' + 1;
    }
    assert shifted[..|shifted|] == shifted;
  }

  lemma NothingLanded(g: Grammar, bs: Basis, input: seq<Token>, pos: nat, made: set<Frame>, counter: nat)
    requires Family(made, counter)
    ensures Opening(g, bs, input, pos, map[], made, counter) && SameStacks(map[], [])
  {
    hide Family;
  }

  // ----- the fork -----

  datatype ForkResult = ForkAccepted(value: Tree) | Settled(stack: Stack, pos: nat) | NoDerivation | ForkOverBudget

  /** The live frames after some tokens stand for exactly the stacks that runs lead to. */
  ghost predicate ExactStacks(g: Grammar, pt: ParseTables, input: seq<Token>, states: seq<nat>, from: nat, pos: nat, active: map<Key, Frame>)
    requires from <= pos
  {
    forall s :: Has(LiveFrames(active), s) <==> Swallows(g, pt, input, states, from, pos, s)
  }

  // If there is an accepting run at all, some live frame is on one.
  ghost predicate StillAccepts(g: Grammar, pt: ParseTables, input: seq<Token>, states: seq<nat>, from: nat, pos: nat, active: map<Key, Frame>) {
    CanAccept(g, pt, input, states, from) ==> exists b :: b in LiveFrames(active) && CanAccept(g, pt, input, StatesOf(b), pos)
  }

  lemma ExactNext(g: Grammar, pt: ParseTables, input: seq<Token>, states: seq<nat>, from: nat, pos: nat, active: map<Key, Frame>,
                  shifted: seq<Frame>, active': map<Key, Frame>)
    requires from <= pos && ExactStacks(g, pt, input, states, from, pos, active)
    requires ExactlyShifted(g, pt, TokenAt(input, pos).kind, LiveFrames(active), shifted) && SameStacks(active', shifted)
    ensures ExactStacks(g, pt, input, states, from, pos + 1, active')
  {
    hide Has, Swallows, HasShifted;
    forall s ensures Has(LiveFrames(active'), s) <==> Swallows(g, pt, input, states, from, pos + 1, s) {
      ExactNextAt(g, pt, input, states, from, pos, active, s);
    }
  }

  lemma ExactNextAt(g: Grammar, pt: ParseTables, input: seq<Token>, states: seq<nat>, from: nat, pos: nat, active: map<Key, Frame>, s: seq<nat>)
    requires from <= pos && ExactStacks(g, pt, input, states, from, pos, active)
    ensures ConsumedFrom(g, pt, TokenAt(input, pos).kind, LiveFrames(active), s) <==> Swallows(g, pt, input, states, from, pos + 1, s)
  {
    hide Consumes, Swallows, LiveFrames, StatesOf;
    var t := TokenAt(input, pos).kind;
    if ConsumedFrom(g, pt, t, LiveFrames(active), s) {
      var b :| b in LiveFrames(active) && Consumes(g, pt, t, StatesOf(b), s);
      assert Has(LiveFrames(active), StatesOf(b));
      SwallowsMore(g, pt, input, states, from, pos, StatesOf(b), s);
    }
    if Swallows(g, pt, input, states, from, pos + 1, s) {
      var mid := SwallowsLess(g, pt, input, states, from, pos, s);
      assert Has(LiveFrames(active), mid);
    }
  }

  // An accepting run that does not accept on this token goes on from one of the shifted frames.
  lemma AcceptsLater(g: Grammar, pt: ParseTables, input: seq<Token>, states: seq<nat>, from: nat, pos: nat, active: map<Key, Frame>,
                     shifted: seq<Frame>) returns (f: Frame)
    requires from <= pos && StillAccepts(g, pt, input, states, from, pos, active) && CanAccept(g, pt, input, states, from)
    requires ExactlyShifted(g, pt, TokenAt(input, pos).kind, LiveFrames(active), shifted)
    requires !NowAccepts(g, pt, TokenAt(input, pos).kind, LiveFrames(active))
    ensures f in shifted && CanAccept(g, pt, input, StatesOf(f), pos + 1)
  {
    hide Consumes, LiveFrames, AcceptsNow, StatesOf, Reducible, AcceptsBy;
    var t := TokenAt(input, pos).kind;
    var b :| b in LiveFrames(active) && CanAccept(g, pt, input, StatesOf(b), pos);
    var acts :| AcceptsBy(g, pt, input, StatesOf(b), pos, acts);
    ReducibleSelf(g, pt, t, StatesOf(b));
    FirstToken(g, pt, input, StatesOf(b), StatesOf(b), pos, acts);
    var next :| Consumes(g, pt, t, StatesOf(b), next) && CanAccept(g, pt, input, next, pos + 1);
    assert ConsumedFrom(g, pt, t, LiveFrames(active), next);
    assert HasShifted(shifted, next);
    f :| f in shifted && StatesOf(f) == next;
  }

  lemma AcceptsNext(g: Grammar, pt: ParseTables, input: seq<Token>, states: seq<nat>, from: nat, pos: nat, active: map<Key, Frame>,
                    shifted: seq<Frame>, active': map<Key, Frame>)
    requires from <= pos && StillAccepts(g, pt, input, states, from, pos, active)
    requires ExactlyShifted(g, pt, TokenAt(input, pos).kind, LiveFrames(active), shifted)
    requires !NowAccepts(g, pt, TokenAt(input, pos).kind, LiveFrames(active)) && SameStacks(active', shifted)
    ensures StillAccepts(g, pt, input, states, from, pos + 1, active')
  {
    hide CanAccept, ExactlyShifted, NowAccepts, LiveFrames, StatesOf;
    if CanAccept(g, pt, input, states, from) {
      var f := AcceptsLater(g, pt, input, states, from, pos, active, shifted);
      assert HasShifted(shifted, StatesOf(f));
      var b :| b in LiveFrames(active') && StatesOf(b) == StatesOf(f);
    }
  }

  lemma NoneLeft(g: Grammar, pt: ParseTables, input: seq<Token>, states: seq<nat>, from: nat, pos: nat, active: map<Key, Frame>)
    requires from <= pos && StillAccepts(g, pt, input, states, from, pos, active)
    requires ExactlyShifted(g, pt, TokenAt(input, pos).kind, LiveFrames(active), [])
    requires !NowAccepts(g, pt, TokenAt(input, pos).kind, LiveFrames(active))
    ensures !CanAccept(g, pt, input, states, from)
  {
    hide CanAccept, ExactlyShifted, NowAccepts, StillAccepts;
    if CanAccept(g, pt, input, states, from) {
      var f := AcceptsLater(g, pt, input, states, from, pos, active, []);
    }
  }

  // Nothing is shifted past the end of the input.
  lemma ShiftedInside(g: Grammar, bs: Basis, input: seq<Token>, pos: nat, shifted: seq<Frame>, made: set<Frame>, counter: nat)
    requires ShiftedOk(g, bs, input, pos + 1, shifted, made, counter) && Kinds(input)
    ensures shifted != [] ==> pos < |input| && TokenAt(input, pos).kind != End
  {
    hide Family, Fine;
    if shifted != [] {
      assert FrameOk(g, bs, input, shifted[0], pos + 1);
      FineShape(g, bs, input, StackOf(shifted[0]), pos + 1);
    }
  }

  lemma AcceptedRun(g: Grammar, pt: ParseTables, input: seq<Token>, states: seq<nat>, from: nat, pos: nat, active: map<Key, Frame>)
    requires from <= pos && ExactStacks(g, pt, input, states, from, pos, active)
    requires NowAccepts(g, pt, TokenAt(input, pos).kind, LiveFrames(active))
    ensures CanAccept(g, pt, input, states, from)
  {
    hide CanAccept, LiveFrames, StatesOf, Swallows, AcceptsNow;
    var b :| b in LiveFrames(active) && AcceptsNow(g, pt, TokenAt(input, pos).kind, StatesOf(b));
    assert Has(LiveFrames(active), StatesOf(b));
    AcceptsNowAccepts(g, pt, input, StatesOf(b), pos);
    SwallowedAccepts(g, pt, input, states, from, pos, StatesOf(b));
  }

  lemma AcceptsNowAccepts(g: Grammar, pt: ParseTables, input: seq<Token>, states: seq<nat>, pos: nat)
    requires AcceptsNow(g, pt, TokenAt(input, pos).kind, states)
    ensures CanAccept(g, pt, input, states, pos)
  {
    hide Choices, Reductions;
    var t := TokenAt(input, pos).kind;
    var mid :| mid != [] && Reducible(g, pt, t, states, mid) && AcceptAll in Choices(pt, Last(mid), t);
    var rules :| Reductions(g, pt, t, states, rules) == Some(mid);
    assert AcceptsBy(g, pt, input, mid, pos, []);
    ReductionsAccept(g, pt, input, states, pos, rules);
  }

  // The only run left: every stack the tokens can lead to is this one.
  ghost predicate OnlyStack(g: Grammar, pt: ParseTables, input: seq<Token>, states: seq<nat>, from: nat, pos: nat, states': seq<nat>)
    requires from <= pos
  {
    forall s :: Swallows(g, pt, input, states, from, pos, s) <==> s == states'
  }

  lemma OneLeft(g: Grammar, pt: ParseTables, input: seq<Token>, states: seq<nat>, from: nat, pos: nat, active: map<Key, Frame>, k: Key)
    requires from <= pos && ExactStacks(g, pt, input, states, from, pos, active) && StillAccepts(g, pt, input, states, from, pos, active)
    requires active.Keys == {k}
    ensures OnlyStack(g, pt, input, states, from, pos, StatesOf(active[k]))
    ensures CanAccept(g, pt, input, states, from) <==> CanAccept(g, pt, input, StatesOf(active[k]), pos)
  {
    hide CanAccept, Swallows, StatesOf;
    assert LiveFrames(active) == {active[k]};
    forall s ensures Swallows(g, pt, input, states, from, pos, s) <==> s == StatesOf(active[k]) {
      assert Has(LiveFrames(active), s) <==> s == StatesOf(active[k]);
    }
    if CanAccept(g, pt, input, StatesOf(active[k]), pos) {
      SwallowedAccepts(g, pt, input, states, from, pos, StatesOf(active[k]));
    }
  }

  // No token of the input is one its row would have the lexer drop.
  ghost predicate NothingIgnored(pt: ParseTables, input: seq<Token>) {
    forall i: nat {:trigger TokenAt(input, i)} :: NotIgnored(pt, TokenAt(input, i).kind)
  }

  lemma StartExact(g: Grammar, bs: Basis, pt: ParseTables, input: seq<Token>, pos: nat, st: Stack, f: Frame,
                   made: set<Frame>, counter: nat)
    requires Fine(g, bs, input, st, pos) && StackOf(f) == st && Family(made, counter) && f in made
    ensures var active := map[KeyOf(f) := f];
            && Opening(g, bs, input, pos, active, made, counter)
            && ExactStacks(g, pt, input, st.states, pos, pos, active) && StillAccepts(g, pt, input, st.states, pos, pos, active)
  {
    hide Fine, Family, Swallows, CanAccept, StatesOf, ValuesOf;
    var active := map[KeyOf(f) := f];
    assert active[KeyOf(f)] == f && LiveFrames(active) == {f};
    forall s ensures Has(LiveFrames(active), s) <==> Swallows(g, pt, input, st.states, pos, pos, s) {
      SwallowsNone(g, pt, input, st.states, pos, s);
    }
  }

  ghost predicate SettledWell(g: Grammar, bs: Basis, pt: ParseTables, input: seq<Token>, pos: nat, states: seq<nat>, st: Stack, pos': nat) {
    && pos < pos' <= |input|
    && Fine(g, bs, input, st, pos')
    && OnlyStack(g, pt, input, states, pos, pos', st.states)
    && (CanAccept(g, pt, input, states, pos) <==> CanAccept(g, pt, input, st.states, pos'))
  }

  lemma WinnerSettles(g: Grammar, bs: Basis, pt: ParseTables, input: seq<Token>, states: seq<nat>, from: nat, pos: nat,
                      active: map<Key, Frame>, made: set<Frame>, counter: nat, k: Key)
    requires from < pos <= |input| && Opening(g, bs, input, pos, active, made, counter) && active.Keys == {k}
    requires ExactStacks(g, pt, input, states, from, pos, active) && StillAccepts(g, pt, input, states, from, pos, active)
    ensures SettledWell(g, bs, pt, input, from, states, StackOf(active[k]), pos)
  {
    hide ExactStacks, StillAccepts, CanAccept, OnlyStack, Fine, Family;
    OneLeft(g, pt, input, states, from, pos, active, k);
  }

  lemma OnlyKey(active: map<Key, Frame>, k: Key)
    requires k in active && |active| == 1
    ensures active.Keys == {k}
  {
    assert |active.Keys - {k}| == 0;
  }

  /** Explore every derivation from a conflict on: until one accepts, none is left, a single stack is
      left to go on from, or the budget is spent. */
  method RunGlrFork(g: Grammar, ghost bs: Basis, pt: ParseTables, input: seq<Token>, pos: nat, stack: Stack)
      returns (out: ForkResult)
    requires Backed(g, bs, pt) && Kinds(input) && NothingIgnored(pt, input)
    requires Fine(g, bs, input, stack, pos)
    ensures out.ForkAccepted? ==>
              && StandsFor(g, bs.exact, out.value, input)
              && CanAccept(g, pt, input, stack.states, pos)
    ensures out.Settled? ==> SettledWell(g, bs, pt, input, pos, stack.states, out.stack, out.pos)
    ensures out.NoDerivation? ==> !CanAccept(g, pt, input, stack.states, pos)
  {
    hide WellFormed, AutomatonOk, ActionsJustified, GotosLead, Kinds, NotIgnored, Fine, StandsFor, CanAccept, ExactStacks, StillAccepts,
      ExactlyShifted, NowAccepts, ShiftedOk, Opening, Family, SameStacks, SettledWell, LiveFrames;
    FineShape(g, bs, input, stack, pos);
    var frame, counter;
    ghost var made;
    frame, counter, made := Chain(stack);
    var active := map[KeyOf(frame) := frame];
    StartExact(g, bs, pt, input, pos, stack, frame, made, counter);
    var work: nat := 0;
    var i := pos;
    while true
      invariant pos <= i <= |input| && work <= MAX_TOTAL_WORK
      invariant Opening(g, bs, input, i, active, made, counter)
      invariant ExactStacks(g, pt, input, stack.states, pos, i, active) && StillAccepts(g, pt, input, stack.states, pos, i, active)
      decreases |input| - i
    {
      var tok := TokenAt(input, i);
      var found;
      found, work, made := Explore(g, bs, pt, input, i, active, made, counter, work);
      match found {
        case Accepted(value) =>
          AcceptedRun(g, pt, input, stack.states, pos, i, active);
          EndReached(input, i);
          return ForkAccepted(value);
        case OverBudget => return ForkOverBudget;
        case Exhausted(shifted, made1) =>
          ShiftedInside(g, bs, input, i, shifted, made, made1);
          if tok.kind == End || shifted == [] {
            NoneLeft(g, pt, input, stack.states, pos, i, active);
            return NoDerivation;
          }
          ghost var before := active;
          active, counter, made := Converge(g, bs, input, i + 1, shifted, made1, made);
          ExactNext(g, pt, input, stack.states, pos, i, before, shifted, active);
          AcceptsNext(g, pt, input, stack.states, pos, i, before, shifted, active);
          i := i + 1;
          if |active| == 1 {
            var k :| k in active;
            OnlyKey(active, k);
            WinnerSettles(g, bs, pt, input, stack.states, pos, i, active, made, counter, k);
            var settled := Flatten(active[k]);
            return Settled(settled, i);
          }
      }
    }
  }

  lemma EndReached(input: seq<Token>, i: nat)
    requires Kinds(input) && i <= |input| && TokenAt(input, i).kind == End
    ensures input[..i] == input
  {
  }
}
