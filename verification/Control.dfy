/** What nondeterministic LR runs do to state stacks, choosing any alternative of each entry. */
module Control {
  import opened Options
  import opened Grammars
  import opened Tables
  import opened Resolution
  import opened Machine

  // The state stack after reducing by `r`.
  function PopGoto(g: Grammar, pt: ParseTables, states: seq<nat>, r: nat): Option<seq<nat>> {
    if r >= |g| || |g[r].rhs| >= |states| then None
    else
      var base := |states| - 1 - |g[r].rhs|;
      match GotoAt(pt, states[base], g[r].lhs)
      case None => None
      case Some(q) => Some(states[..base + 1] + [q])
  }

  function Last(states: seq<nat>): nat
    requires states != []
  {
    states[|states| - 1]
  }

  // Reducing by `rules` in turn, each one offered on `t`.
  function Reductions(g: Grammar, pt: ParseTables, t: Terminal, states: seq<nat>, rules: seq<nat>): Option<seq<nat>>
    decreases |rules|
  {
    if rules == [] then Some(states)
    else
      var init, r := rules[..|rules| - 1], rules[|rules| - 1];
      match Reductions(g, pt, t, states, init)
      case None => None
      case Some(mid) => if mid != [] && ReduceBy(r) in Choices(pt, Last(mid), t) then PopGoto(g, pt, mid, r) else None
  }

  ghost predicate Reducible(g: Grammar, pt: ParseTables, t: Terminal, states: seq<nat>, states': seq<nat>) {
    exists rules :: Reductions(g, pt, t, states, rules) == Some(states')
  }

  ghost predicate Shifts(pt: ParseTables, t: Terminal, mid: seq<nat>, states': seq<nat>) {
    states' != [] && mid == states'[..|states'| - 1] && mid != [] && ShiftTo(Last(states')) in Choices(pt, Last(mid), t)
  }

  /** Some reductions on `t` and then its shift lead from `states` to `states'`. */
  ghost predicate Consumes(g: Grammar, pt: ParseTables, t: Terminal, states: seq<nat>, states': seq<nat>) {
    states' != [] && Reducible(g, pt, t, states, states'[..|states'| - 1])
    && Shifts(pt, t, states'[..|states'| - 1], states')
  }

  /** Choosing `acts` in turn, some run from `states` at `pos` reaches a state that accepts. */
  ghost predicate AcceptsBy(g: Grammar, pt: ParseTables, input: seq<Token>, states: seq<nat>, pos: nat, acts: seq<Action>)
    decreases |acts|
  {
    states != [] &&
    var offered := Choices(pt, Last(states), TokenAt(input, pos).kind);
    if acts == [] then AcceptAll in offered
    else
      acts[0] in offered &&
      match acts[0]
      case ShiftTo(q) => AcceptsBy(g, pt, input, states + [q], pos + 1, acts[1..])
      case ReduceBy(r) => PopGoto(g, pt, states, r).Some? && AcceptsBy(g, pt, input, PopGoto(g, pt, states, r).value, pos, acts[1..])
      case _ => false
  }

  ghost predicate CanAccept(g: Grammar, pt: ParseTables, input: seq<Token>, states: seq<nat>, pos: nat) {
    exists acts :: AcceptsBy(g, pt, input, states, pos, acts)
  }

  // Reductions on the current token, then accepting.
  ghost predicate AcceptsNow(g: Grammar, pt: ParseTables, t: Terminal, states: seq<nat>) {
    exists mid :: mid != [] && Reducible(g, pt, t, states, mid) && AcceptAll in Choices(pt, Last(mid), t)
  }

  lemma ReducibleMore(g: Grammar, pt: ParseTables, t: Terminal, states: seq<nat>, mid: seq<nat>, r: nat)
    requires Reducible(g, pt, t, states, mid) && mid != [] && ReduceBy(r) in Choices(pt, Last(mid), t) && PopGoto(g, pt, mid, r).Some?
    ensures Reducible(g, pt, t, states, PopGoto(g, pt, mid, r).value)
  {
    var rules :| Reductions(g, pt, t, states, rules) == Some(mid);
    PushedBack(rules, r);
    assert Reductions(g, pt, t, states, rules + [r]) == PopGoto(g, pt, mid, r);
  }

  lemma ReducibleSelf(g: Grammar, pt: ParseTables, t: Terminal, states: seq<nat>)
    ensures Reducible(g, pt, t, states, states)
  {
    assert Reductions(g, pt, t, states, []) == Some(states);
  }

  lemma ShiftConsumes(g: Grammar, pt: ParseTables, t: Terminal, states: seq<nat>, mid: seq<nat>, q: nat)
    requires Reducible(g, pt, t, states, mid) && mid != [] && ShiftTo(q) in Choices(pt, Last(mid), t)
    ensures Consumes(g, pt, t, states, mid + [q])
  {
    assert (mid + [q])[..|mid + [q]| - 1] == mid;
  }

  /** Up to its first shift, an accepting run reduces; then it accepts or goes on from the next token. */
  lemma {:induction false} FirstToken(g: Grammar, pt: ParseTables, input: seq<Token>, start: seq<nat>, states: seq<nat>, pos: nat, acts: seq<Action>)
    requires AcceptsBy(g, pt, input, states, pos, acts) && Reducible(g, pt, TokenAt(input, pos).kind, start, states)
    ensures AcceptsNow(g, pt, TokenAt(input, pos).kind, start)
            || exists next :: Consumes(g, pt, TokenAt(input, pos).kind, start, next) && CanAccept(g, pt, input, next, pos + 1)
    decreases |acts|
  {
    var t := TokenAt(input, pos).kind;
    if acts != [] {
      match acts[0] {
        case ShiftTo(q) =>
          ShiftConsumes(g, pt, t, start, states, q);
          assert CanAccept(g, pt, input, states + [q], pos + 1);
        case ReduceBy(r) =>
          ReducibleMore(g, pt, t, start, states, r);
          FirstToken(g, pt, input, start, PopGoto(g, pt, states, r).value, pos, acts[1..]);
        case _ =>
      }
    }
  }

  // ----- the other way round: a run can be put in front -----

  lemma {:induction false} ReductionsAccept(g: Grammar, pt: ParseTables, input: seq<Token>, states: seq<nat>, pos: nat, rules: seq<nat>)
    requires Reductions(g, pt, TokenAt(input, pos).kind, states, rules).Some?
    requires CanAccept(g, pt, input, Reductions(g, pt, TokenAt(input, pos).kind, states, rules).value, pos)
    ensures CanAccept(g, pt, input, states, pos)
    decreases |rules|
  {
    hide Choices, PopGoto;
    if rules != [] {
      var t := TokenAt(input, pos).kind;
      var init, r := rules[..|rules| - 1], rules[|rules| - 1];
      var mid := Reductions(g, pt, t, states, init).value;
      StepAccepts(g, pt, input, mid, pos, ReduceBy(r), PopGoto(g, pt, mid, r).value, pos);
      ReductionsAccept(g, pt, input, states, pos, init);
    }
  }

  // One step in front of an accepting run.
  lemma StepAccepts(g: Grammar, pt: ParseTables, input: seq<Token>, states: seq<nat>, pos: nat, x: Action, states': seq<nat>, pos': nat)
    requires states != [] && x in Choices(pt, Last(states), TokenAt(input, pos).kind) && CanAccept(g, pt, input, states', pos')
    requires match x
             case ShiftTo(q) => states' == states + [q] && pos' == pos + 1
             case ReduceBy(r) => PopGoto(g, pt, states, r) == Some(states') && pos' == pos
             case _ => false
    ensures CanAccept(g, pt, input, states, pos)
  {
    hide Choices, PopGoto;
    var acts :| AcceptsBy(g, pt, input, states', pos', acts);
    assert ([x] + acts)[1..] == acts;
    assert AcceptsBy(g, pt, input, states, pos, [x] + acts);
  }

  /** Consuming a token and accepting from there is accepting. */
  lemma ConsumedAccepts(g: Grammar, pt: ParseTables, input: seq<Token>, states: seq<nat>, pos: nat, states': seq<nat>)
    requires Consumes(g, pt, TokenAt(input, pos).kind, states, states') && CanAccept(g, pt, input, states', pos + 1)
    ensures CanAccept(g, pt, input, states, pos)
  {
    hide Choices, Reductions, CanAccept;
    var mid := states'[..|states'| - 1];
    var rules :| Reductions(g, pt, TokenAt(input, pos).kind, states, rules) == Some(mid);
    assert mid + [Last(states')] == states';
    StepAccepts(g, pt, input, mid, pos, ShiftTo(Last(states')), states', pos + 1);
    ReductionsAccept(g, pt, input, states, pos, rules);
  }

  // ----- several tokens -----

  // Each stack of the trail is followed by one that a run leads to over one more token.
  ghost predicate Trail(g: Grammar, pt: ParseTables, input: seq<Token>, from: nat, trail: seq<seq<nat>>) {
    forall i | 0 <= i < |trail| - 1 :: Consumes(g, pt, TokenAt(input, from + i).kind, trail[i], trail[i + 1])
  }

  ghost predicate TrailFrom(trail: seq<seq<nat>>, states: seq<nat>, n: nat, states': seq<nat>) {
    |trail| == n + 1 && trail[0] == states && trail[n] == states'
  }

  /** Some run consumes the tokens from `from` up to `upto` and leads from `states` to `states'`. */
  ghost predicate Swallows(g: Grammar, pt: ParseTables, input: seq<Token>, states: seq<nat>, from: nat, upto: nat, states': seq<nat>)
    requires from <= upto
  {
    exists trail :: Trail(g, pt, input, from, trail) && TrailFrom(trail, states, upto - from, states')
  }

  lemma SwallowsNone(g: Grammar, pt: ParseTables, input: seq<Token>, states: seq<nat>, from: nat, states': seq<nat>)
    ensures Swallows(g, pt, input, states, from, from, states') <==> states == states'
  {
    assert TrailFrom([states], states, 0, states);
    assert Trail(g, pt, input, from, [states]);
  }

  lemma SwallowsMore(g: Grammar, pt: ParseTables, input: seq<Token>, states: seq<nat>, from: nat, upto: nat, mid: seq<nat>, states': seq<nat>)
    requires from <= upto && Swallows(g, pt, input, states, from, upto, mid) && Consumes(g, pt, TokenAt(input, upto).kind, mid, states')
    ensures Swallows(g, pt, input, states, from, upto + 1, states')
  {
    hide Consumes;
    var trail :| Trail(g, pt, input, from, trail) && TrailFrom(trail, states, upto - from, mid);
    var more := trail + [states'];
    assert TrailFrom(more, states, upto + 1 - from, states');
    assert Trail(g, pt, input, from, more);
  }

  lemma SwallowsLess(g: Grammar, pt: ParseTables, input: seq<Token>, states: seq<nat>, from: nat, upto: nat, states': seq<nat>)
      returns (mid: seq<nat>)
    requires from <= upto && Swallows(g, pt, input, states, from, upto + 1, states')
    ensures Swallows(g, pt, input, states, from, upto, mid) && Consumes(g, pt, TokenAt(input, upto).kind, mid, states')
  {
    hide Consumes;
    var n := upto - from;
    var trail :| Trail(g, pt, input, from, trail) && TrailFrom(trail, states, n + 1, states');
    mid := trail[n];
    var less := trail[..n + 1];
    assert TrailFrom(less, states, n, mid);
    assert Trail(g, pt, input, from, less) by {
      forall i | 0 <= i < |less| - 1 ensures Consumes(g, pt, TokenAt(input, from + i).kind, less[i], less[i + 1]) {
        assert less[i] == trail[i] && less[i + 1] == trail[i + 1];
      }
    }
  }

  lemma {:induction false} SwallowedAccepts(g: Grammar, pt: ParseTables, input: seq<Token>, states: seq<nat>, from: nat, upto: nat, states': seq<nat>)
    requires from <= upto && Swallows(g, pt, input, states, from, upto, states') && CanAccept(g, pt, input, states', upto)
    ensures CanAccept(g, pt, input, states, from)
    decreases upto - from
  {
    hide CanAccept, Consumes, Swallows;
    if from == upto {
      SwallowsNone(g, pt, input, states, from, states');
    } else {
      var mid := SwallowsLess(g, pt, input, states, from, upto - 1, states');
      ConsumedAccepts(g, pt, input, mid, upto - 1, states');
      SwallowedAccepts(g, pt, input, states, from, upto - 1, mid);
    }
  }
}
