/** The runs of a parser are exactly the derivations of its grammar, as long as filling the tables
    dropped no action. */
module Language {
  import opened Options
  import opened Grammars
  import opened FirstSets
  import opened Automata
  import opened Tables
  import opened Resolution
  import opened Machine
  import opened Restore
  import opened Completeness
  import opened Control
  import opened Glr

  // ----- a run on stacks of values is a run on stacks of states -----

  lemma {:induction false} RunsControl(g: Grammar, pt: ParseTables, input: seq<Token>, c: Config, acts: seq<Action>, c': Config)
    requires Accepts(g, pt, input, c, acts, c') && Shaped(c.st)
    ensures AcceptsBy(g, pt, input, c.st.states, c.pos, acts)
    decreases |acts|
  {
    hide Choices;
    if acts != [] {
      ActControl(g, pt, input, c, acts[0]);
      RunsControl(g, pt, input, Act(g, pt, input, c, acts[0]).value, acts[1..], c');
    }
  }

  lemma ActControl(g: Grammar, pt: ParseTables, input: seq<Token>, c: Config, x: Action)
    requires Shaped(c.st) && Act(g, pt, input, c, x).Some?
    ensures var c1 := Act(g, pt, input, c, x).value;
            && Shaped(c1.st) && x in Choices(pt, Last(c.st.states), TokenAt(input, c.pos).kind)
            && match x
               case ShiftTo(q) => c1.st.states == c.st.states + [q] && c1.pos == c.pos + 1
               case ReduceBy(r) => PopGoto(g, pt, c.st.states, r) == Some(c1.st.states) && c1.pos == c.pos
               case _ => false
  {
  }

  // ----- and back, where the stack is in order -----

  /** An accepting run on states is one on values, and what it builds stands for a derivation tree of the input. */
  lemma {:induction false} ControlRuns(g: Grammar, bs: Basis, pt: ParseTables, input: seq<Token>, st: Stack, pos: nat, acts: seq<Action>)
      returns (st': Stack)
    requires Backed(g, bs, pt) && Kinds(input) && Fine(g, bs, input, st, pos) && Shaped(st)
    requires AcceptsBy(g, pt, input, st.states, pos, acts)
    ensures Accepts(g, pt, input, Config(st, pos), acts, Config(st', |input|))
    ensures |st'.values| == 1 && StandsFor(g, bs.exact, st'.values[0], input)
    decreases |acts|
  {
    hide Backed, Kinds, Fine, Choices, StandsFor, Reduced, PopGoto;
    var kind := TokenAt(input, pos).kind;
    if acts == [] {
      FineAccept(g, bs, pt, input, st, pos, kind);
      AtTheEnd(input, pos);
      assert input[..pos] == input;
      st' := st;
    } else {
      match acts[0]
      case ShiftTo(q) =>
        FineShift(g, bs, pt, input, st, pos, q);
        st' := ControlRuns(g, bs, pt, input, Push(st, q, Leaf(TokenAt(input, pos))), pos + 1, acts[1..]);
      case ReduceBy(r) =>
        FineReduce(g, bs, pt, input, st, pos, kind, r);
        ReducedControl(g, pt, st, r);
        st' := ControlRuns(g, bs, pt, input, Reduced(g, pt, st, r).value, pos, acts[1..]);
    }
  }

  lemma AtTheEnd(input: seq<Token>, pos: nat)
    requires Kinds(input) && pos <= |input| && TokenAt(input, pos).kind == End
    ensures pos == |input|
  {
  }

  lemma ReducedControl(g: Grammar, pt: ParseTables, st: Stack, r: nat)
    requires Shaped(st) && r < |g| && Reduced(g, pt, st, r).Some?
    ensures Shaped(Reduced(g, pt, st, r).value)
    ensures PopGoto(g, pt, st.states, r) == Some(Reduced(g, pt, st, r).value.states)
  {
  }

  // ----- packed alternatives -----

  // Which of two merged values to take; where the same two were merged, the same one.
  type Choice = (Tree, Tree) -> bool

  /** One of the trees a packed tree stands for. */
  function Pick(first: Choice, t: Tree): Tree
    decreases t, 0
  {
    match t
    case Leaf(_) => t
    case Node(r, peeked, kids) => Node(r, PickAll(first, peeked), PickAll(first, kids))
    case Both(l, r) => if first(l, r) then Pick(first, l) else Pick(first, r)
  }

  function PickAll(first: Choice, ts: seq<Tree>): (ps: seq<Tree>)
    ensures |ps| == |ts|
    decreases ts, 1
  {
    if ts == [] then [] else PickAll(first, ts[..|ts| - 1]) + [Pick(first, ts[|ts| - 1])]
  }

  lemma {:induction false} PickAllAt(first: Choice, ts: seq<Tree>, i: nat)
    requires i < |ts|
    ensures PickAll(first, ts)[i] == Pick(first, ts[i])
  {
    if i < |ts| - 1 { PickAllAt(first, ts[..|ts| - 1], i); }
  }

  lemma {:induction false} PickAllTake(first: Choice, ts: seq<Tree>, i: nat)
    requires i <= |ts|
    ensures PickAll(first, ts[..i]) == PickAll(first, ts)[..i]
  {
    forall k | 0 <= k < i ensures PickAll(first, ts[..i])[k] == PickAll(first, ts)[..i][k] {
      PickAllAt(first, ts[..i], k);
      PickAllAt(first, ts, k);
    }
  }

  lemma {:induction false} PickAllDrop(first: Choice, ts: seq<Tree>, i: nat)
    requires i <= |ts|
    ensures PickAll(first, ts[i..]) == PickAll(first, ts)[i..]
  {
    forall k | 0 <= k < |ts| - i ensures PickAll(first, ts[i..])[k] == PickAll(first, ts)[i..][k] {
      PickAllAt(first, ts[i..], k);
      PickAllAt(first, ts, i + k);
    }
  }

  lemma {:induction false} PickPlain(first: Choice, t: Tree)
    ensures Plain(Pick(first, t))
    decreases t
  {
    match t
    case Leaf(_) =>
    case Node(r, peeked, kids) =>
      forall i | 0 <= i < |peeked| ensures Plain(PickAll(first, peeked)[i]) {
        PickAllAt(first, peeked, i);
        PickPlain(first, peeked[i]);
      }
      forall i | 0 <= i < |kids| ensures Plain(PickAll(first, kids)[i]) {
        PickAllAt(first, kids, i);
        PickPlain(first, kids[i]);
      }
    case Both(l, r) => PickPlain(first, if first(l, r) then l else r);
  }

  lemma {:induction false} PickYields(first: Choice, ts: seq<Tree>)
    requires forall i | 0 <= i < |ts| :: Yield(Pick(first, ts[i])) == Yield(ts[i])
    ensures Yields(PickAll(first, ts)) == Yields(ts)
    decreases |ts|
  {
    hide Pick;
    if ts != [] {
      PickYields(first, ts[..|ts| - 1]);
      assert PickAll(first, ts)[..|ts| - 1] == PickAll(first, ts[..|ts| - 1]);
    }
  }

  lemma {:induction false} PickReads(first: Choice, t: Tree, left: seq<Tree>)
    requires ReadsLeft(t, left)
    ensures ReadsLeft(Pick(first, t), PickAll(first, left))
    decreases t
  {
    match t
    case Leaf(_) =>
    case Node(_, peeked, _) => PickAllDrop(first, left, |left| - |peeked|);
    case Both(l, r) => PickReads(first, if first(l, r) then l else r, left);
  }

  /** Picking either value of every merge leaves a derivation tree over the same tokens, with every mid-rule action
      reading what it should. */
  lemma {:induction false} PickDerives(first: Choice, g: Grammar, t: Tree, sym: Symbol)
    requires Derives(g, t, sym)
    ensures Derives(g, Pick(first, t), sym) && Yield(Pick(first, t)) == Yield(t)
    decreases t
  {
    hide ReadsLeft;
    match t
    case Leaf(_) =>
    case Node(r, peeked, kids) =>
      var kids' := PickAll(first, kids);
      forall i | 0 <= i < |kids|
        ensures Derives(g, kids'[i], g[r].rhs[i]) && ReadsLeft(kids'[i], kids'[..i]) && Yield(Pick(first, kids[i])) == Yield(kids[i])
      {
        PickAllAt(first, kids, i);
        PickDerives(first, g, kids[i], g[r].rhs[i]);
        PickReads(first, kids[i], kids[..i]);
        PickAllTake(first, kids, i);
      }
      PickYields(first, kids);
    case Both(l, r) => PickDerives(first, g, if first(l, r) then l else r, sym);
  }

  // ----- the language -----

  ghost predicate DerivedBy(g: Grammar, t: Tree, input: seq<Token>) {
    |g| > 0 && |g[0].rhs| > 0 && Derives(g, t, StartSymbol(g)) && Plain(t) && Yield(t) == input
  }

  ghost predicate InLanguage(g: Grammar, input: seq<Token>) {
    exists t :: DerivedBy(g, t, input)
  }

  // A packed tree stands for at least one plain one.
  lemma PackedIsDerived(first: Choice, g: Grammar, t: Tree, input: seq<Token>)
    requires DerivesAll(g, t, input)
    ensures DerivedBy(g, Pick(first, t), input)
  {
    hide Derives, Plain, Yield, Pick;
    PickDerives(first, g, t, StartSymbol(g));
    PickPlain(first, t);
  }

  lemma AcceptedIsDerived(g: Grammar, bs: Basis, pt: ParseTables, input: seq<Token>)
    requires Backed(g, bs, pt) && Kinds(input) && CanAccept(g, pt, input, [0], 0)
    ensures InLanguage(g, input)
  {
    hide Backed, Kinds, AcceptsBy, DerivesAll, DerivedBy, Fine, Accepts;
    var acts :| AcceptsBy(g, pt, input, [0], 0, acts);
    FineStart(g, bs, input);
    var st' := ControlRuns(g, bs, pt, input, EMPTY, 0, acts);
    var t :| DerivesAll(g, t, input) && Same(g, bs.exact, t, st'.values[0]);
    PackedIsDerived((l, r) => true, g, t, input);
  }

  /** Some run of the tables accepts the input just when the grammar derives it. One half needs that no
      action was dropped when the tables were filled. */
  lemma AcceptsExactly(g: Grammar, fm: FirstMap, a: Automaton, m: Mode, pt: ParseTables, input: seq<Token>)
    requires Backed(g, Basis(a, true), pt) && Kinds(input)
    ensures CanAccept(g, pt, input, [0], 0) ==> InLanguage(g, input)
    ensures Setting(g, fm, a, m, pt) && InLanguage(g, input) ==> CanAccept(g, pt, input, [0], 0)
  {
    hide Backed, Setting, Derives, Plain, Yield, AcceptsBy, Runs, InLanguage;
    if CanAccept(g, pt, input, [0], 0) {
      AcceptedIsDerived(g, Basis(a, true), pt, input);
    }
    if Setting(g, fm, a, m, pt) && InLanguage(g, input) {
      DerivedIsAccepted(g, fm, a, m, pt, input);
    }
  }

  lemma DerivedIsAccepted(g: Grammar, fm: FirstMap, a: Automaton, m: Mode, pt: ParseTables, input: seq<Token>)
    requires Setting(g, fm, a, m, pt) && InLanguage(g, input)
    ensures CanAccept(g, pt, input, [0], 0)
  {
    hide Setting, Derives, Plain, Yield, AcceptsBy, Runs;
    var t :| DerivedBy(g, t, input);
    var acts, q := TreeAccepted(g, fm, a, m, pt, t);
    RunsControl(g, pt, input, INITIAL, acts, Config(Stack([0, q], [t]), |Yield(t)|));
  }
}
