/** Parse tables: filling them from the automaton and resolving conflicts (src/lalr.ts:62-73, 263-364). */
module Tables {
  import opened Options
  import opened Grammars
  import opened FirstSets
  import opened Automata
  import opened Lookaheads
  import opened Follows

  datatype Action =
    | ShiftTo(state: nat)
    | ReduceBy(rule: nat)
    | AcceptAll
    | IgnoreToken
    | ErrorToken
    | Conflict(entries: seq<Action>)

  type Row = map<Terminal, Action>
  type GotoRow = map<NonTerminal, nat>

  datatype ReportKind = Auto | ShiftReduce | ReduceReduce | Unresolved

  datatype Report = Report(state: nat, term: Terminal, kind: ReportKind)

  // Which lookaheads reduce: propagated LALR(1) sets, or FOLLOW of the rule's left-hand side.
  datatype Mode = Lalr(la: Table) | Slr(follow: FollowMap)

  function Ahead(g: Grammar, m: Mode, s: nat, it: Item): set<Terminal> {
    match m
    case Lalr(la) => At(la, s, it)
    case Slr(fo) => if it.rule < |g| then FollowAt(fo, g[it.rule].lhs) else {}
  }

  // ----- conflict resolution -----

  // A missing level is above nothing.
  predicate Above(x: Prec, y: Prec) {
    x.level.Some? && y.level.Some? && x.level.value > y.level.value
  }

  predicate Forks(p: Option<Prec>) {
    p.Some? && p.value.assoc == Fork
  }

  /** What becomes of a shift and a reduce on the same terminal. */
  function ShiftOrReduce(shift: Action, reduce: Action, reducePrec: Option<Prec>, shiftPrec: Option<Prec>): (Action, ReportKind) {
    if Forks(reducePrec) || Forks(shiftPrec) then (Conflict([shift, reduce]), Unresolved)
    else if shiftPrec.Some? && reducePrec.Some? then
      if Above(reducePrec.value, shiftPrec.value) then (reduce, ShiftReduce)
      else if Above(shiftPrec.value, reducePrec.value) then (shift, ShiftReduce)
      else if shiftPrec.value.assoc == Left then (reduce, ShiftReduce)
      else if shiftPrec.value.assoc == Right then (shift, ShiftReduce)
      else (Conflict([shift, reduce]), Unresolved)
    else (shift, Auto)
  }

  function PrecOf(g: Grammar, r: nat): Option<Prec> {
    if r < |g| then g[r].prec else None
  }

  /** What an entry becomes when another action arrives for the same terminal, and what is reported.
      An entry that is neither a shift nor a reduce stays as it is, unreported. */
  function Resolve(g: Grammar, existing: Action, incoming: Action, shiftPrec: Option<Prec>): (Action, Option<ReportKind>) {
    if existing.ShiftTo? && incoming.ReduceBy? then
      var (e, k) := ShiftOrReduce(existing, incoming, PrecOf(g, incoming.rule), shiftPrec); (e, Some(k))
    else if existing.ReduceBy? && incoming.ShiftTo? then
      var (e, k) := ShiftOrReduce(incoming, existing, PrecOf(g, existing.rule), shiftPrec); (e, Some(k))
    else if existing.ReduceBy? && incoming.ReduceBy? then
      if Forks(PrecOf(g, existing.rule)) || Forks(PrecOf(g, incoming.rule)) then
        (Conflict([existing, incoming]), Some(Unresolved))
      else
        (if existing.rule < incoming.rule then existing else incoming, Some(ReduceReduce))
    else (existing, None)
  }

  // ----- what each entry must be -----

  // The action on `t` from the transitions of state `s`.
  function ShiftAction(a: Automaton, s: nat, t: Terminal): seq<Action>
    requires s < |a.trans|
  {
    if Term(t) !in a.trans[s] then []
    else if t == End then [AcceptAll]
    else [ShiftTo(a.trans[s][Term(t)])]
  }

  predicate ReducesOn(g: Grammar, m: Mode, s: nat, it: Item, t: Terminal) {
    it.rule < |g| && it.dot >= |g[it.rule].rhs| && g[it.rule].lhs != Accept && t in Ahead(g, m, s, it)
  }

  // The reductions on `t` of the items of state `s`, in order.
  function Reduces(g: Grammar, m: Mode, s: nat, items: seq<Item>, t: Terminal): seq<Action> {
    if items == [] then []
    else
      var last := items[|items| - 1];
      Reduces(g, m, s, items[..|items| - 1], t) + (if ReducesOn(g, m, s, last, t) then [ReduceBy(last.rule)] else [])
  }

  /** Every action that applies in state `s` on `t`, in the order they are entered. */
  function Incoming(g: Grammar, a: Automaton, m: Mode, s: nat, t: Terminal): seq<Action>
    requires s < |a.states| == |a.trans|
  {
    ShiftAction(a, s, t) + Reduces(g, m, s, a.states[s], t)
  }

  // The precedence of the first item that can shift `t`.
  function ShiftPrec(g: Grammar, items: seq<Item>, t: Terminal): Option<Prec> {
    if items == [] then None
    else if Next(g, items[0]) == Some(Term(t)) then PrecOf(g, items[0].rule)
    else ShiftPrec(g, items[1..], t)
  }

  // Entering actions one after the other.
  function Settle(g: Grammar, incoming: seq<Action>, shiftPrec: Option<Prec>): Action
    requires |incoming| > 0
  {
    if |incoming| == 1 then incoming[0]
    else Resolve(g, Settle(g, incoming[..|incoming| - 1], shiftPrec), incoming[|incoming| - 1], shiftPrec).0
  }

  // Nothing was reported while entering them.
  ghost predicate Quiet(g: Grammar, incoming: seq<Action>, shiftPrec: Option<Prec>) {
    |incoming| <= 1
    || (Quiet(g, incoming[..|incoming| - 1], shiftPrec)
        && Resolve(g, Settle(g, incoming[..|incoming| - 1], shiftPrec), incoming[|incoming| - 1], shiftPrec).1.None?)
  }

  ghost predicate EntryIs(g: Grammar, row: Row, t: Terminal, incoming: seq<Action>, shiftPrec: Option<Prec>) {
    if incoming == [] then t !in row else t in row && row[t] == Settle(g, incoming, shiftPrec)
  }

  ghost predicate RowFilled(g: Grammar, a: Automaton, m: Mode, s: nat, row: Row)
    requires s < |a.states| == |a.trans|
  {
    forall t :: EntryIs(g, row, t, Incoming(g, a, m, s, t), ShiftPrec(g, a.states[s], t))
  }

  ghost predicate RowQuiet(g: Grammar, a: Automaton, m: Mode, s: nat)
    requires s < |a.states| == |a.trans|
  {
    forall t :: Quiet(g, Incoming(g, a, m, s, t), ShiftPrec(g, a.states[s], t))
  }

  // The goto row is the nonterminal part of the transitions.
  ghost predicate GotoFilled(a: Automaton, s: nat, row: GotoRow)
    requires s < |a.trans|
  {
    forall n :: (n in row <==> NonTerm(n) in a.trans[s]) && (n in row ==> row[n] == a.trans[s][NonTerm(n)])
  }

  class TableBuilder {
    const rules: Grammar
    var action: seq<Row>
    var goto: seq<GotoRow>
    var conflicts: seq<Report>

    constructor (g: Grammar, states: nat)
      ensures rules == g && |action| == |goto| == states && conflicts == []
      ensures forall s | 0 <= s < states :: action[s] == map[] && goto[s] == map[]
    {
      rules := g;
      action := seq(states, _ => map[]);
      goto := seq(states, _ => map[]);
      conflicts := [];
    }

    // Enter an action, resolving it against what is already there.
    method SetAction(s: nat, t: Terminal, incoming: Action, shiftPrec: Option<Prec>)
      requires s < |action|
      modifies this`action, this`conflicts
      ensures action == old(action)[s := Entered(rules, old(action)[s], t, incoming, shiftPrec)]
      ensures if EntersQuietly(rules, old(action)[s], t, incoming, shiftPrec) then conflicts == old(conflicts)
              else conflicts == old(conflicts) + [Report(s, t, Resolve(rules, old(action)[s][t], incoming, shiftPrec).1.value)]
    {
      var row := action[s];
      if t !in row {
        action := action[s := row[t := incoming]];
      } else {
        var (entry, kind) := Resolve(rules, row[t], incoming, shiftPrec);
        action := action[s := row[t := entry]];
        if kind.Some? {
          conflicts := conflicts + [Report(s, t, kind.value)];
        }
      }
    }

    // Shifts, the accept entry, and gotos of one state.
    method FillTransitions(a: Automaton, s: nat)
      requires |a.states| == |a.trans| == |action| == |goto| && s < |action|
      requires action[s] == map[] && goto[s] == map[]
      modifies this`action, this`goto, this`conflicts
      ensures |action| == |old(action)| && |goto| == |old(goto)| && conflicts == old(conflicts)
      ensures forall q | 0 <= q < |action| && q != s :: action[q] == old(action)[q] && goto[q] == old(goto)[q]
      ensures forall t :: EntryIs(rules, action[s], t, ShiftAction(a, s, t), ShiftPrec(rules, a.states[s], t))
      ensures GotoFilled(a, s, goto[s])
    {
      var todo := a.trans[s].Keys;
      while todo != {}
        invariant todo <= a.trans[s].Keys
        invariant |action| == |old(action)| && |goto| == |old(goto)| && conflicts == old(conflicts)
        invariant forall q | 0 <= q < |action| && q != s :: action[q] == old(action)[q] && goto[q] == old(goto)[q]
        invariant forall t :: EntryIs(rules, action[s], t, if Term(t) in todo then [] else ShiftAction(a, s, t), ShiftPrec(rules, a.states[s], t))
        invariant forall n :: (n in goto[s] <==> NonTerm(n) in a.trans[s] && NonTerm(n) !in todo)
                              && (n in goto[s] ==> goto[s][n] == a.trans[s][NonTerm(n)])
        decreases todo
      {
        var x :| x in todo;
        var target: nat := a.trans[s][x];
        match x {
          case Term(t) =>
            SetAction(s, t, if t == End then AcceptAll else ShiftTo(target), ShiftPrec(rules, a.states[s], t));
          case NonTerm(n) =>
            var row: GotoRow := goto[s][n := target];
            goto := goto[s := row];
        }
        todo := todo - {x};
      }
    }

    // Enter the reductions of item `i` of state `s`.
    method FillItem(a: Automaton, m: Mode, s: nat, i: nat)
      requires |a.states| == |a.trans| == |action| && s < |action| && i < |a.states[s]|
      requires EntriesAre(rules, a, m, s, action[s], i, {})
      modifies this`action, this`conflicts
      ensures |action| == |old(action)| && forall q | 0 <= q < |action| && q != s :: action[q] == old(action)[q]
      ensures EntriesAre(rules, a, m, s, action[s], i + 1, {})
      ensures old(conflicts) <= conflicts
      ensures QuietUpTo(rules, a, m, s, i, {}) ==> (conflicts == old(conflicts) <==> QuietUpTo(rules, a, m, s, i + 1, {}))
    {
      hide EntriesAre, QuietUpTo, Entered, EntersQuietly;
      var it := a.states[s][i];
      if !(it.rule < |rules| && it.dot >= |rules[it.rule].rhs| && rules[it.rule].lhs != Accept) {
        SkipItem(rules, a, m, s, action[s], i);
        return;
      }
      var todo := Ahead(rules, m, s, it);
      BeginItem(rules, a, m, s, action[s], i, todo);
      while todo != {}
        invariant todo <= Ahead(rules, m, s, it)
        invariant |action| == |old(action)| && forall q | 0 <= q < |action| && q != s :: action[q] == old(action)[q]
        invariant EntriesAre(rules, a, m, s, action[s], i + 1, todo)
        invariant old(conflicts) <= conflicts
        invariant QuietUpTo(rules, a, m, s, i, {}) ==> (conflicts == old(conflicts) <==> QuietUpTo(rules, a, m, s, i + 1, todo))
        decreases todo
      {
        var t :| t in todo;
        StepItem(rules, a, m, s, action[s], i, todo, t);
        StepQuiet(rules, a, m, s, action[s], i, todo, t);
        SetAction(s, t, ReduceBy(it.rule), ShiftPrec(rules, a.states[s], t));
        todo := todo - {t};
      }
    }

    // All of one state's rows.
    method FillState(a: Automaton, m: Mode, s: nat)
      requires |a.states| == |a.trans| == |action| == |goto| && s < |action|
      requires action[s] == map[] && goto[s] == map[]
      modifies this`action, this`goto, this`conflicts
      ensures |action| == |old(action)| && |goto| == |old(goto)|
      ensures forall q | 0 <= q < |action| && q != s :: action[q] == old(action)[q] && goto[q] == old(goto)[q]
      ensures RowFilled(rules, a, m, s, action[s]) && GotoFilled(a, s, goto[s])
      ensures old(conflicts) <= conflicts && (conflicts == old(conflicts) <==> RowQuiet(rules, a, m, s))
    {
      FillTransitions(a, s);
      NoItemsYet(rules, a, m, s, action[s]);
      for i := 0 to |a.states[s]|
        invariant |action| == |old(action)| && |goto| == |old(goto)|
        invariant forall q | 0 <= q < |action| && q != s :: action[q] == old(action)[q] && goto[q] == old(goto)[q]
        invariant EntriesAre(rules, a, m, s, action[s], i, {}) && GotoFilled(a, s, goto[s])
        invariant old(conflicts) <= conflicts && (conflicts == old(conflicts) <==> QuietUpTo(rules, a, m, s, i, {}))
      {
        ghost var before := conflicts;
        QuietShrinks(rules, a, m, s, i);
        FillItem(a, m, s, i);
      }
      AllItemsIn(rules, a, m, s, action[s]);
    }

    /** Fill every state's rows. Reports are made just when some state had an action to resolve. */
    method Fill(a: Automaton, m: Mode)
      requires |a.states| == |a.trans| == |action| == |goto| && conflicts == []
      requires forall s | 0 <= s < |action| :: action[s] == map[] && goto[s] == map[]
      modifies this`action, this`goto, this`conflicts
      ensures |a.states| == |action| == |goto|
      ensures forall s | 0 <= s < |a.states| :: RowFilled(rules, a, m, s, action[s]) && GotoFilled(a, s, goto[s])
      ensures conflicts == [] <==> forall s | 0 <= s < |a.states| :: RowQuiet(rules, a, m, s)
    {
      for s := 0 to |a.states|
        invariant |a.states| == |action| == |goto|
        invariant forall q | 0 <= q < s :: RowFilled(rules, a, m, q, action[q]) && GotoFilled(a, q, goto[q])
        invariant forall q | s <= q < |action| :: action[q] == map[] && goto[q] == map[]
        invariant conflicts == [] <==> forall q | 0 <= q < s :: RowQuiet(rules, a, m, q)
      {
        ghost var was := conflicts;
        FillState(a, m, s);
        assert conflicts == [] <==> was == [] && conflicts == was;
      }
    }

    // Default entries for the terminals every state's lexer must consider.
    method FillAlways(terminals: seq<Terminal>, skip: seq<Terminal>)
      modifies this`action
      ensures |action| == |old(action)|
      ensures forall s | 0 <= s < |action| :: action[s] == Always(old(action)[s], terminals, skip)
      ensures forall s | 0 <= s < |action| :: OnlyDefaultsAdded(old(action)[s], action[s])
      ensures forall s, t | 0 <= s < |action| && t in terminals + skip :: t in action[s]
    {
      for s := 0 to |action|
        invariant |action| == |old(action)|
        invariant forall q | 0 <= q < s :: action[q] == Always(old(action)[q], terminals, skip)
        invariant forall q | 0 <= q < s :: OnlyDefaultsAdded(old(action)[q], action[q])
        invariant forall q, t | 0 <= q < s && t in terminals + skip :: t in action[q]
        invariant forall q | s <= q < |action| :: action[q] == old(action)[q]
      {
        var row := AddDefaults(action[s], terminals, ErrorToken);
        row := AddDefaults(row, skip, IgnoreToken);
        action := action[s := row];
      }
    }
  }

  ghost predicate OnlyDefaultsAdded(row: Row, row': Row) {
    && (forall t | t in row :: t in row' && row'[t] == row[t])
    && (forall t | t in row' && t !in row :: row'[t].IgnoreToken? || row'[t].ErrorToken?)
  }

  // `entry` for every terminal of `terms` that has none.
  function WithDefaults(row: Row, terms: seq<Terminal>, entry: Action): Row {
    map t | t in row.Keys + (set x | x in terms) :: if t in row then row[t] else entry
  }

  function Always(row: Row, terminals: seq<Terminal>, skip: seq<Terminal>): Row {
    WithDefaults(WithDefaults(row, terminals, ErrorToken), skip, IgnoreToken)
  }

  lemma DefaultsNone(row: Row, entry: Action)
    ensures WithDefaults(row, [], entry) == row
  {
  }

  lemma DefaultsOne(row: Row, terms: seq<Terminal>, t: Terminal, entry: Action)
    ensures var some := WithDefaults(row, terms, entry);
            WithDefaults(row, terms + [t], entry) == if t in some then some else some[t := entry]
  {
  }

  lemma DefaultsOnly(row: Row, terms: seq<Terminal>, entry: Action)
    requires entry.IgnoreToken? || entry.ErrorToken?
    ensures OnlyDefaultsAdded(row, WithDefaults(row, terms, entry)) && forall t | t in terms :: t in WithDefaults(row, terms, entry)
  {
  }

  method AddDefaults(row: Row, terms: seq<Terminal>, entry: Action) returns (row': Row)
    requires entry.IgnoreToken? || entry.ErrorToken?
    ensures row' == WithDefaults(row, terms, entry)
    ensures OnlyDefaultsAdded(row, row') && forall t | t in terms :: t in row'
  {
    hide WithDefaults;
    DefaultsNone(row, entry);
    row' := row;
    for i := 0 to |terms|
      invariant row' == WithDefaults(row, terms[..i], entry)
    {
      DefaultsOne(row, terms[..i], terms[i], entry);
      assert terms[..i + 1] == terms[..i] + [terms[i]];
      if terms[i] !in row' {
        row' := row'[terms[i] := entry];
      }
    }
    assert terms[..|terms|] == terms;
    DefaultsOnly(row, terms, entry);
  }

  // ----- the finished tables -----

  /** The tables a parser runs on. */
  datatype ParseTables = ParseTables(action: seq<Row>, goto: seq<GotoRow>)

  // Entries no grammar rule asked for are the defaults of `fillAlwaysEntries`.
  ghost predicate RowDone(g: Grammar, a: Automaton, m: Mode, s: nat, row: Row)
    requires s < |a.states| == |a.trans|
  {
    forall t :: if Incoming(g, a, m, s, t) == [] then t in row ==> row[t].IgnoreToken? || row[t].ErrorToken?
                else EntryIs(g, row, t, Incoming(g, a, m, s, t), ShiftPrec(g, a.states[s], t))
  }

  /** The tables hold, for every state, the settled actions of that state and its gotos. */
  ghost predicate TablesOk(g: Grammar, a: Automaton, m: Mode, pt: ParseTables) {
    && |a.states| == |a.trans| == |pt.action| == |pt.goto|
    && (forall s | 0 <= s < |a.states| :: RowDone(g, a, m, s, pt.action[s]))
    && (forall s | 0 <= s < |a.states| :: GotoFilled(a, s, pt.goto[s]))
  }

  // ----- entering reductions one at a time -----

  function Sofar(g: Grammar, a: Automaton, m: Mode, s: nat, i: nat, t: Terminal): seq<Action>
    requires s < |a.states| == |a.trans| && i <= |a.states[s]|
  {
    ShiftAction(a, s, t) + Reduces(g, m, s, a.states[s][..i], t)
  }

  // Row entries after the first `i` items, except that the last one has yet to be entered for `todo`.
  ghost predicate EntriesAre(g: Grammar, a: Automaton, m: Mode, s: nat, row: Row, i: nat, todo: set<Terminal>)
    requires s < |a.states| == |a.trans| && i <= |a.states[s]| && (todo != {} ==> i > 0)
  {
    forall t :: EntryIs(g, row, t, Sofar(g, a, m, s, if t in todo then i - 1 else i, t), ShiftPrec(g, a.states[s], t))
  }

  ghost predicate QuietUpTo(g: Grammar, a: Automaton, m: Mode, s: nat, i: nat, todo: set<Terminal>)
    requires s < |a.states| == |a.trans| && i <= |a.states[s]| && (todo != {} ==> i > 0)
  {
    forall t :: Quiet(g, Sofar(g, a, m, s, if t in todo then i - 1 else i, t), ShiftPrec(g, a.states[s], t))
  }

  lemma SofarStep(g: Grammar, a: Automaton, m: Mode, s: nat, i: nat, t: Terminal)
    requires s < |a.states| == |a.trans| && i < |a.states[s]|
    ensures Sofar(g, a, m, s, i + 1, t) == Sofar(g, a, m, s, i, t)
            + (if ReducesOn(g, m, s, a.states[s][i], t) then [ReduceBy(a.states[s][i].rule)] else [])
  {
    assert a.states[s][..i + 1][..i] == a.states[s][..i];
  }

  lemma NoItemsYet(g: Grammar, a: Automaton, m: Mode, s: nat, row: Row)
    requires s < |a.states| == |a.trans|
    requires forall t :: EntryIs(g, row, t, ShiftAction(a, s, t), ShiftPrec(g, a.states[s], t))
    ensures EntriesAre(g, a, m, s, row, 0, {}) && QuietUpTo(g, a, m, s, 0, {})
  {
    forall t ensures Sofar(g, a, m, s, 0, t) == ShiftAction(a, s, t) {
      assert a.states[s][..0] == [];
    }
  }

  lemma AllItemsIn(g: Grammar, a: Automaton, m: Mode, s: nat, row: Row)
    requires s < |a.states| == |a.trans|
    requires EntriesAre(g, a, m, s, row, |a.states[s]|, {})
    ensures RowFilled(g, a, m, s, row)
    ensures QuietUpTo(g, a, m, s, |a.states[s]|, {}) <==> RowQuiet(g, a, m, s)
  {
    forall t ensures Sofar(g, a, m, s, |a.states[s]|, t) == Incoming(g, a, m, s, t) {
      assert a.states[s][..|a.states[s]|] == a.states[s];
    }
  }

  // Once something was reported, more items cannot take it back.
  lemma QuietShrinks(g: Grammar, a: Automaton, m: Mode, s: nat, i: nat)
    requires s < |a.states| == |a.trans| && i < |a.states[s]|
    ensures QuietUpTo(g, a, m, s, i + 1, {}) ==> QuietUpTo(g, a, m, s, i, {})
  {
    if QuietUpTo(g, a, m, s, i + 1, {}) {
      forall t ensures Quiet(g, Sofar(g, a, m, s, i, t), ShiftPrec(g, a.states[s], t)) {
        SofarStep(g, a, m, s, i, t);
        var was, now := Sofar(g, a, m, s, i, t), Sofar(g, a, m, s, i + 1, t);
        assert Quiet(g, now, ShiftPrec(g, a.states[s], t));
        if now != was { assert now[..|now| - 1] == was; }
      }
    }
  }

  lemma SkipItem(g: Grammar, a: Automaton, m: Mode, s: nat, row: Row, i: nat)
    requires s < |a.states| == |a.trans| && i < |a.states[s]|
    requires forall t :: !ReducesOn(g, m, s, a.states[s][i], t)
    requires EntriesAre(g, a, m, s, row, i, {})
    ensures EntriesAre(g, a, m, s, row, i + 1, {})
    ensures QuietUpTo(g, a, m, s, i, {}) <==> QuietUpTo(g, a, m, s, i + 1, {})
  {
    forall t ensures Sofar(g, a, m, s, i + 1, t) == Sofar(g, a, m, s, i, t) { SofarStep(g, a, m, s, i, t); }
  }

  lemma BeginItem(g: Grammar, a: Automaton, m: Mode, s: nat, row: Row, i: nat, todo: set<Terminal>)
    requires s < |a.states| == |a.trans| && i < |a.states[s]|
    requires forall t :: t in todo <==> ReducesOn(g, m, s, a.states[s][i], t)
    requires EntriesAre(g, a, m, s, row, i, {})
    ensures EntriesAre(g, a, m, s, row, i + 1, todo)
    ensures QuietUpTo(g, a, m, s, i, {}) <==> QuietUpTo(g, a, m, s, i + 1, todo)
  {
    forall t ensures t !in todo ==> Sofar(g, a, m, s, i + 1, t) == Sofar(g, a, m, s, i, t) { SofarStep(g, a, m, s, i, t); }
  }

  // The row after entering `e` for `t`.
  function Entered(g: Grammar, row: Row, t: Terminal, e: Action, p: Option<Prec>): Row {
    row[t := if t in row then Resolve(g, row[t], e, p).0 else e]
  }

  ghost predicate EntersQuietly(g: Grammar, row: Row, t: Terminal, e: Action, p: Option<Prec>) {
    t in row ==> Resolve(g, row[t], e, p).1.None?
  }

  lemma StepEntry(g: Grammar, row: Row, t: Terminal, was: seq<Action>, e: Action, p: Option<Prec>)
    requires EntryIs(g, row, t, was, p)
    ensures EntryIs(g, Entered(g, row, t, e, p), t, was + [e], p)
    ensures Quiet(g, was + [e], p) <==> Quiet(g, was, p) && EntersQuietly(g, row, t, e, p)
  {
    assert (was + [e])[..|was + [e]| - 1] == was;
  }

  lemma StepItem(g: Grammar, a: Automaton, m: Mode, s: nat, row: Row, i: nat, todo: set<Terminal>, t: Terminal)
    requires s < |a.states| == |a.trans| && i < |a.states[s]|
    requires t in todo && ReducesOn(g, m, s, a.states[s][i], t)
    requires EntriesAre(g, a, m, s, row, i + 1, todo)
    ensures EntriesAre(g, a, m, s, Entered(g, row, t, ReduceBy(a.states[s][i].rule), ShiftPrec(g, a.states[s], t)), i + 1, todo - {t})
  {
    var e, p := ReduceBy(a.states[s][i].rule), ShiftPrec(g, a.states[s], t);
    var row' := Entered(g, row, t, e, p);
    SofarStep(g, a, m, s, i, t);
    StepEntry(g, row, t, Sofar(g, a, m, s, i, t), e, p);
    forall u ensures EntryIs(g, row', u, Sofar(g, a, m, s, if u in todo - {t} then i else i + 1, u), ShiftPrec(g, a.states[s], u)) {
      assert EntryIs(g, row, u, Sofar(g, a, m, s, if u in todo then i else i + 1, u), ShiftPrec(g, a.states[s], u));
    }
  }

  lemma StepQuiet(g: Grammar, a: Automaton, m: Mode, s: nat, row: Row, i: nat, todo: set<Terminal>, t: Terminal)
    requires s < |a.states| == |a.trans| && i < |a.states[s]|
    requires t in todo && ReducesOn(g, m, s, a.states[s][i], t)
    requires EntriesAre(g, a, m, s, row, i + 1, todo)
    ensures QuietUpTo(g, a, m, s, i + 1, todo - {t}) <==>
              QuietUpTo(g, a, m, s, i + 1, todo)
              && EntersQuietly(g, row, t, ReduceBy(a.states[s][i].rule), ShiftPrec(g, a.states[s], t))
  {
    var e, p := ReduceBy(a.states[s][i].rule), ShiftPrec(g, a.states[s], t);
    SofarStep(g, a, m, s, i, t);
    StepEntry(g, row, t, Sofar(g, a, m, s, i, t), e, p);
    if QuietUpTo(g, a, m, s, i + 1, todo - {t}) {
      assert Quiet(g, Sofar(g, a, m, s, i + 1, t), p);
      forall u ensures Quiet(g, Sofar(g, a, m, s, if u in todo then i else i + 1, u), ShiftPrec(g, a.states[s], u)) {
        assert Quiet(g, Sofar(g, a, m, s, if u in todo - {t} then i else i + 1, u), ShiftPrec(g, a.states[s], u));
      }
    }
    if QuietUpTo(g, a, m, s, i + 1, todo) && EntersQuietly(g, row, t, e, p) {
      assert Quiet(g, Sofar(g, a, m, s, i, t), p);
      forall u ensures Quiet(g, Sofar(g, a, m, s, if u in todo - {t} then i else i + 1, u), ShiftPrec(g, a.states[s], u)) {
        assert Quiet(g, Sofar(g, a, m, s, if u in todo then i else i + 1, u), ShiftPrec(g, a.states[s], u));
      }
    }
  }
}
