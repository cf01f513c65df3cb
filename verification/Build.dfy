/** Building the tables from a grammar, and what parsing with them amounts to (src/lalr.ts:83-299). */
module Build {
  import opened Options
  import opened Grammars
  import opened FirstSets
  import opened Automata
  import opened Lookaheads
  import opened Follows
  import opened Tables
  import opened Resolution
  import opened Machine
  import opened Restore
  import opened UnitBypass
  import opened Completeness
  import LA = LookaheadTheory
  import opened Termination
  import opened Control
  import opened Glr
  import opened Fork
  import opened Parsing
  import opened Language

  // ----- the tables -----

  lemma FilledThenDefaulted(g: Grammar, a: Automaton, m: Mode, s: nat, row: Row, row': Row)
    requires s < |a.states| == |a.trans| && RowFilled(g, a, m, s, row) && OnlyDefaultsAdded(row, row')
    ensures RowDone(g, a, m, s, row')
  {
    hide Incoming, Settle, ShiftPrec;
    forall t ensures if Incoming(g, a, m, s, t) == [] then t in row' ==> row'[t].IgnoreToken? || row'[t].ErrorToken?
                     else EntryIs(g, row', t, Incoming(g, a, m, s, t), ShiftPrec(g, a.states[s], t))
    {
      assert EntryIs(g, row, t, Incoming(g, a, m, s, t), ShiftPrec(g, a.states[s], t));
    }
  }

  // What is true of the automaton, the lookaheads and the tables that were built.
  ghost predicate BuiltFrom(g: Grammar, fm: FirstMap, a: Automaton, m: Mode, pt: ParseTables) {
    Grounded(g, fm, a, m) && TablesOk(g, a, m, pt)
  }

  /** LALR(1) or SLR(1) tables. The only way not to get any is the tripwire on the number of
      propagation passes, and only where there are more possible lookahead facts than passes. */
  method BuildLALR(g: Grammar, first: FirstMap, alwaysTerminals: seq<Terminal>, alwaysSkip: seq<Terminal>, lalr: bool)
      returns (out: Option<ParseTables>, conflicts: seq<Report>, ghost a: Automaton, ghost m: Mode)
    requires WellFormed(g) && Closed(g, first) && Shape(g, first)
    ensures AutomatonOk(g, a) && (m.Lalr? <==> lalr)
    ensures out.Some? ==> BuiltFrom(g, first, a, m, out.value)
    ensures out.Some? ==> (conflicts == [] <==> forall s | 0 <= s < |a.states| :: RowQuiet(g, a, m, s))
    ensures out.Some? ==> forall s, t | 0 <= s < |out.value.action| && t in alwaysTerminals + alwaysSkip :: t in out.value.action[s]
    ensures out.Some? && lalr ==> Least(g, first, a, m.la) && LaClosed(g, first, a, m.la) && |m.la| == |a.states|
    ensures out.Some? && !lalr ==> FollowClosed(g, first, m.follow) && FollowLeast(g, first, m.follow)
    ensures out.None? ==> lalr && |FactSpace(g, a)| > MaxPasses(|a.states|)
  {
    hide WellFormed, Closed, Shape, AutomatonOk, Least, LaClosed, FollowClosed, FollowLeast, RowFilled, RowQuiet, GotoFilled, RowDone, Spreads,
      OnlyDefaultsAdded, FactSpace, Facts, Inv;
    var automaton := new AutomatonBuilder(g);
    var states := Automaton(automaton.states, automaton.trans);
    a := states;
    var follow := ComputeFollow(g, first);
    SlrSpreads(g, first, a, follow);
    var mode := Slr(follow);
    m := mode;
    if lalr {
      var propagator := new Propagator(g, first, states);
      var ok := propagator.Run();
      if !ok {
        m := Lalr([]);
        return None, [], a, m;
      }
      PropagatorLeast(propagator);
      LalrSpreads(g, first, a, propagator.la);
      mode := Lalr(propagator.la);
      m := mode;
    }
    SameSizes(g, a);
    var tables := new TableBuilder(g, |states.states|);
    tables.Fill(states, mode);
    conflicts := tables.conflicts;
    ghost var filled := tables.action;
    tables.FillAlways(alwaysTerminals, alwaysSkip);
    forall s | 0 <= s < |a.states| ensures RowDone(g, a, m, s, tables.action[s]) {
      FilledThenDefaulted(g, a, m, s, filled[s], tables.action[s]);
    }
    out := Some(ParseTables(tables.action, tables.goto));
  }

  lemma PropagatorLeast(p: Propagator)
    requires p.Valid()
    ensures Least(p.rules, p.first, p.automaton, p.la) && |p.la| == |p.automaton.states|
  {
  }

  // ----- what the tables are good for -----

  lemma BuiltBacked(g: Grammar, fm: FirstMap, a: Automaton, m: Mode, pt: ParseTables)
    requires BuiltFrom(g, fm, a, m, pt)
    ensures GotosOk(a, pt) && ActionsJustified(g, a, pt) && Backed(g, Basis(a, true), pt)
  {
    hide WellFormed, AutomatonOk, Closed, Spreads, ActionJustified, RowDone, GotoFilled, GotosLead;
    TablesJustified(g, a, m, pt);
    ExactGotos(g, a, pt);
  }

  lemma BuiltSetting(g: Grammar, fm: FirstMap, a: Automaton, m: Mode, pt: ParseTables)
    requires BuiltFrom(g, fm, a, m, pt) && KeepsAll(g, a, m)
    ensures Setting(g, fm, a, m, pt)
  {
    hide WellFormed, AutomatonOk, Closed, Spreads, RowDone, GotoFilled, Offers, KeepsAll;
    KeptIsOffered(g, a, m, pt);
  }

  lemma CleanEntry(g: Grammar, a: Automaton, m: Mode, pt: ParseTables, s: nat, t: Terminal)
    requires TablesOk(g, a, m, pt) && Clean(g, a, m) && s < |a.states| && t in pt.action[s]
    ensures !pt.action[s][t].Conflict?
  {
    hide GotoFilled;
    assert RowDone(g, a, m, s, pt.action[s]);
    assert CleanAt(g, a, m, s, t);
    var inc := Incoming(g, a, m, s, t);
    if inc != [] {
      IncomingReal(g, a, m, s, t);
      assert EntryIs(g, pt.action[s], t, inc, ShiftPrec(g, a.states[s], t)) && inc[0] in inc;
    }
  }

  lemma CleanNoConflicts(g: Grammar, a: Automaton, m: Mode, pt: ParseTables)
    requires TablesOk(g, a, m, pt) && Clean(g, a, m)
    ensures NoConflicts(pt)
  {
    forall s, t | t in RowAt(pt, s) ensures !RowAt(pt, s)[t].Conflict? {
      hide RowDone, GotoFilled, Clean;
      CleanEntry(g, a, m, pt, s, t);
    }
  }

  // ----- how much fuel is enough -----

  /** No run over the input takes as many steps. */
  ghost predicate Suffices(g: Grammar, pt: ParseTables, input: seq<Token>, fuel: nat) {
    forall acts, c {:trigger Runs(g, pt, input, INITIAL, acts, c)} | Runs(g, pt, input, INITIAL, acts, c) :: |acts| < fuel
  }

  // What a bound on runs asks of the grammar: FIRST sets as computed, in which every symbol vanishes or begins with something.
  ghost predicate Productive(g: Grammar, fm: FirstMap) {
    Sound(g, fm) && Shape(g, fm) && LA.Fertile(g, fm)
  }

  /** With that much fuel, the parser does not run out of it. */
  lemma NotOut(g: Grammar, pt: ParseTables, input: seq<Token>, fuel: nat, out: Outcome)
    requires NoConflicts(pt) && Deterministically(g, pt, input, fuel, out) && Suffices(g, pt, input, fuel)
    ensures !out.OutOfFuel?
  {
    hide NoConflicts, Runs;
    assert forall acts, c | Runs(g, pt, input, INITIAL, acts, c) :: |acts| != fuel;
  }

  /** Where no two actions ever met, there is such an amount for every input, over raw and over rewritten tables. */
  lemma EnoughFuel(g: Grammar, fm: FirstMap, a: Automaton, m: Mode, raw: ParseTables, optimize: bool, pt: ParseTables, input: seq<Token>)
      returns (enough: nat)
    requires BuiltFrom(g, fm, a, m, raw) && Clean(g, a, m) && ParserTables(g, raw, optimize, pt) && Productive(g, fm) && Kinds(input)
    ensures forall fuel: nat | fuel >= enough :: Suffices(g, pt, input, fuel)
  {
    hide BuiltFrom, Clean, ParserTables, Sound, Shape, LA.Fertile, Kinds, Backed, Setting, Deterministic, Redirected, Runs;
    CleanKeepsAll(g, a, m) by { BuiltParts(g, fm, a, m, raw); }
    BuiltSetting(g, fm, a, m, raw);
    BuiltDeterministic(g, fm, a, m, raw);
    ParserBacked(g, fm, a, m, raw, optimize, pt);
    var n := RunsEnd(g, fm, a, m, raw, !optimize, pt, input);
    enough := n + 1;
  }

  lemma BuiltParts(g: Grammar, fm: FirstMap, a: Automaton, m: Mode, pt: ParseTables)
    requires BuiltFrom(g, fm, a, m, pt)
    ensures WellFormed(g) && AutomatonOk(g, a) && TablesOk(g, a, m, pt)
  {
  }

  lemma BuiltDeterministic(g: Grammar, fm: FirstMap, a: Automaton, m: Mode, pt: ParseTables)
    requires BuiltFrom(g, fm, a, m, pt) && Clean(g, a, m)
    ensures Deterministic(pt)
  {
    hide WellFormed, AutomatonOk, Closed, Spreads, Clean;
    CleanIsDeterministic(g, a, m, pt);
  }

  /** Where no two actions ever met, the parser is the grammar: with more fuel than the tree has nodes it returns
      exactly the one derivation tree of the input, and with enough fuel a syntax error when there is none. */
  lemma ParsesExactly(g: Grammar, fm: FirstMap, a: Automaton, m: Mode, pt: ParseTables, input: seq<Token>, fuel: nat, out: Outcome)
    requires BuiltFrom(g, fm, a, m, pt) && Clean(g, a, m) && Kinds(input)
    requires OutcomeOk(g, true, pt, input, false, fuel, out) && Deterministically(g, pt, input, fuel, out)
    ensures out.Parsed? || out.SyntaxError? || out.OutOfFuel?
    ensures out.Parsed? ==> DerivedBy(g, out.value, input)
    ensures out.SyntaxError? ==> !InLanguage(g, input)
    ensures forall t | DerivedBy(g, t, input) && (fuel > Size(t) || !out.OutOfFuel?) :: out == Parsed(t, |input|, |input|)
    ensures Suffices(g, pt, input, fuel) ==> !out.OutOfFuel?
  {
    hide Grounded, RowDone, Clean, DerivesAll, Pick, Setting, NoConflicts, Deterministically, CanAccept, TablesOk, DerivedBy, GotosOk,
      ActionsJustified, Backed, KeepsAll, Suffices, Size;
    CleanNoConflicts(g, a, m, pt);
    CleanKeepsAll(g, a, m);
    BuiltSetting(g, fm, a, m, pt);
    BuiltBacked(g, fm, a, m, pt);
    AcceptsExactly(g, fm, a, m, pt, input);
    forall t | DerivedBy(g, t, input) && (fuel > Size(t) || !out.OutOfFuel?) ensures out == Parsed(t, |input|, |input|) {
      OnlyTree(g, fm, a, m, pt, input, fuel, out, t);
    }
    if out.Parsed? {
      assert input[..|input|] == input;
      PackedIsDerived((l, r) => true, g, out.value, input);
    }
    if Suffices(g, pt, input, fuel) { NotOut(g, pt, input, fuel, out); }
  }

  lemma OnlyTree(g: Grammar, fm: FirstMap, a: Automaton, m: Mode, pt: ParseTables, input: seq<Token>, fuel: nat, out: Outcome, t: Tree)
    requires Setting(g, fm, a, m, pt) && NoConflicts(pt) && DerivedBy(g, t, input)
    requires Deterministically(g, pt, input, fuel, out) && (fuel > Size(t) || !out.OutOfFuel?)
    ensures out == Parsed(t, |input|, |input|)
  {
    hide Setting, Derives, Yield, Plain, NoConflicts, Accepts, Size;
    var acts, q := TreeAccepted(g, fm, a, m, pt, t);
    TreeSteps(g, pt, input, acts, q, t);
    assert Accepts(g, pt, input, INITIAL, acts, Config(Stack([0, q], [t]), |Yield(t)|));
  }

  // Building a tree takes as many steps as it has nodes and leaves.
  lemma TreeSteps(g: Grammar, pt: ParseTables, input: seq<Token>, acts: seq<Action>, q: nat, t: Tree)
    requires Accepts(g, pt, input, INITIAL, acts, Config(Stack([0, q], [t]), |Yield(t)|))
    ensures |acts| == Size(t)
  {
    hide Choices, Runs;
    RunSize(g, pt, input, INITIAL, acts, Config(Stack([0, q], [t]), |Yield(t)|));
    SizeOne(t);
  }

  /** With forks, as long as no action was dropped, nothing is missed either: what is parsed stands for derivation
      trees, whichever of two merged values is taken, and what is rejected is not in the language. */
  lemma ForksMissNothing(g: Grammar, fm: FirstMap, a: Automaton, m: Mode, pt: ParseTables, input: seq<Token>, fuel: nat, out: Outcome, first: Choice)
    requires BuiltFrom(g, fm, a, m, pt) && KeepsAll(g, a, m) && Kinds(input)
    requires OutcomeOk(g, true, pt, input, false, fuel, out)
    ensures out.Parsed? ==> DerivedBy(g, Pick(first, out.value), input)
    ensures out.SyntaxError? ==> !InLanguage(g, input)
  {
    hide Grounded, RowDone, KeepsAll, DerivesAll, Pick, Setting, CanAccept, TablesOk, DerivedBy, GotosOk, ActionsJustified, Backed;
    BuiltSetting(g, fm, a, m, pt);
    BuiltBacked(g, fm, a, m, pt);
    AcceptsExactly(g, fm, a, m, pt, input);
    if out.Parsed? {
      assert input[..|input|] == input;
      PackedIsDerived(first, g, out.value, input);
    }
  }

  // ----- and with unit reductions bypassed -----

  lemma OptimizedBacked(g: Grammar, fm: FirstMap, a: Automaton, m: Mode, pt: ParseTables, gotos: seq<GotoRow>)
    requires BuiltFrom(g, fm, a, m, pt) && Redirected(g, pt, gotos)
    ensures Backed(g, Basis(a, false), ParseTables(pt.action, gotos))
  {
    hide WellFormed, AutomatonOk, Closed, Spreads, TablesOk, Redirected, GotosOk, ActionsJustified;
    BuiltBacked(g, fm, a, m, pt);
    BypassBacked(g, a, pt, gotos);
  }

  /** Whatever the raw tables accept, the rewritten ones do. */
  lemma OptimizedAccepts(g: Grammar, fm: FirstMap, a: Automaton, m: Mode, pt: ParseTables, gotos: seq<GotoRow>, input: seq<Token>)
    requires BuiltFrom(g, fm, a, m, pt) && Redirected(g, pt, gotos) && Kinds(input) && CanAccept(g, pt, input, [0], 0)
    ensures CanAccept(g, ParseTables(pt.action, gotos), input, [0], 0)
  {
    hide BuiltFrom, Redirected, AcceptsBy, Accepts, Backed, GotosOk, ActionsJustified, Kinds;
    var acts, d := RawRun(g, fm, a, m, pt, input);
    StartInStep(g, pt);
    var acts', d' := RunFollowed(g, pt, gotos, input, INITIAL, INITIAL, [], acts, d);
    RunsControl(g, ParseTables(pt.action, gotos), input, INITIAL, acts', d');
  }

  lemma RawRun(g: Grammar, fm: FirstMap, a: Automaton, m: Mode, pt: ParseTables, input: seq<Token>) returns (acts: seq<Action>, d: Config)
    requires BuiltFrom(g, fm, a, m, pt) && Kinds(input) && CanAccept(g, pt, input, [0], 0)
    ensures Accepts(g, pt, input, INITIAL, acts, d) && |d.st.values| == 1 && d.pos == |input|
  {
    hide BuiltFrom, AcceptsBy, Accepts, Backed, GotosOk, ActionsJustified, Kinds, Fine;
    BuiltBacked(g, fm, a, m, pt);
    acts :| AcceptsBy(g, pt, input, [0], 0, acts);
    FineStart(g, Basis(a, true), input);
    var st := ControlRuns(g, Basis(a, true), pt, input, EMPTY, 0, acts);
    d := Config(st, |input|);
  }

  /** For tables without conflict entries, however their conflicts were resolved: where the raw tables
      parse, the rewritten ones do, with a value that denotes the same. */
  lemma OptimizedAgrees(g: Grammar, fm: FirstMap, a: Automaton, m: Mode, pt: ParseTables, gotos: seq<GotoRow>, input: seq<Token>,
                        fuel: nat, out: Outcome, fuel': nat, out': Outcome)
    requires BuiltFrom(g, fm, a, m, pt) && Redirected(g, pt, gotos) && Kinds(input) && NoConflicts(pt)
    requires OutcomeOk(g, true, pt, input, false, fuel, out) && Deterministically(g, pt, input, fuel, out)
    requires Deterministically(g, ParseTables(pt.action, gotos), input, fuel', out')
    requires out.Parsed? && (fuel' > Size(out.value) || !out'.OutOfFuel?)
    ensures out'.Parsed? && out'.shifted == |input| && Collapse(g, out'.value) == Collapse(g, out.value)
  {
    hide BuiltFrom, Redirected, AcceptsBy, Accepts, Kinds, Collapse, StandsFor, Size;
    var acts, d := RawRun(g, fm, a, m, pt, input);
    RunSteps(g, pt, input, acts, d);
    StartInStep(g, pt);
    var acts', d' := RunFollowed(g, pt, gotos, input, INITIAL, INITIAL, [], acts, d);
    StillNoConflicts(pt, gotos);
  }

  lemma RunSteps(g: Grammar, pt: ParseTables, input: seq<Token>, acts: seq<Action>, d: Config)
    requires Accepts(g, pt, input, INITIAL, acts, d) && |d.st.values| == 1
    ensures |acts| == Size(d.st.values[0])
  {
    hide Choices, Runs;
    RunSize(g, pt, input, INITIAL, acts, d);
    assert d.st.values == [d.st.values[0]];
    SizeOne(d.st.values[0]);
  }

  lemma StillNoConflicts(pt: ParseTables, gotos: seq<GotoRow>)
    requires NoConflicts(pt)
    ensures NoConflicts(ParseTables(pt.action, gotos))
  {
    forall s: nat, t | t in RowAt(ParseTables(pt.action, gotos), s) ensures !RowAt(ParseTables(pt.action, gotos), s)[t].Conflict? {
      assert t in RowAt(pt, s);
    }
  }

  /** Where no two actions ever met, the parser on the rewritten tables returns, with more fuel than the tree has
      nodes, a value that denotes the same as the one derivation tree, and with enough fuel a syntax error when
      there is none. */
  lemma OptimizedExactly(g: Grammar, fm: FirstMap, a: Automaton, m: Mode, pt: ParseTables, gotos: seq<GotoRow>, input: seq<Token>, fuel: nat, out: Outcome)
    requires BuiltFrom(g, fm, a, m, pt) && Clean(g, a, m) && Redirected(g, pt, gotos) && Kinds(input)
    requires OutcomeOk(g, false, ParseTables(pt.action, gotos), input, false, fuel, out)
    requires Deterministically(g, ParseTables(pt.action, gotos), input, fuel, out)
    ensures out.Parsed? || out.SyntaxError? || out.OutOfFuel?
    ensures out.Parsed? ==> InLanguage(g, input)
    ensures out.SyntaxError? ==> !InLanguage(g, input)
    ensures forall t | DerivedBy(g, t, input) && (fuel > Size(t) || !out.OutOfFuel?) :: out.Parsed? && Collapse(g, out.value) == Collapse(g, t)
    ensures Suffices(g, ParseTables(pt.action, gotos), input, fuel) ==> !out.OutOfFuel?
  {
    hide Grounded, TablesOk, Redirected, Accepts, Kinds, Collapse, StandsFor, Clean, NoConflicts, Deterministically, DerivedBy, Setting, CanAccept, Backed,
      KeepsAll, Suffices, Size;
    CleanNoConflicts(g, a, m, pt);
    StillNoConflicts(pt, gotos);
    CleanKeepsAll(g, a, m);
    BuiltSetting(g, fm, a, m, pt);
    OptimizedLanguage(g, fm, a, m, pt, gotos, input);
    forall t | DerivedBy(g, t, input) && (fuel > Size(t) || !out.OutOfFuel?) ensures out.Parsed? && Collapse(g, out.value) == Collapse(g, t) {
      OptimizedTree(g, fm, a, m, pt, gotos, input, fuel, out, t);
    }
    var tables := ParseTables(pt.action, gotos);
    if Suffices(g, tables, input, fuel) { NotOut(g, tables, input, fuel, out); }
  }

  lemma OptimizedTree(g: Grammar, fm: FirstMap, a: Automaton, m: Mode, pt: ParseTables, gotos: seq<GotoRow>, input: seq<Token>, fuel: nat, out: Outcome, t: Tree)
    requires Setting(g, fm, a, m, pt) && Redirected(g, pt, gotos) && DerivedBy(g, t, input) && (fuel > Size(t) || !out.OutOfFuel?)
    requires NoConflicts(ParseTables(pt.action, gotos)) && Deterministically(g, ParseTables(pt.action, gotos), input, fuel, out)
    ensures out.Parsed? && Collapse(g, out.value) == Collapse(g, t)
  {
    hide Setting, Derives, Yield, Plain, NoConflicts, Accepts, Redirected, Collapse, Size;
    var acts, q := TreeAccepted(g, fm, a, m, pt, t);
    StartInStep(g, pt);
    var d := Config(Stack([0, q], [t]), |Yield(t)|);
    TreeSteps(g, pt, input, acts, q, t);
    var acts', d' := RunFollowed(g, pt, gotos, input, INITIAL, INITIAL, [], acts, d);
    assert Accepts(g, ParseTables(pt.action, gotos), input, INITIAL, acts', d');
  }

  /** The rewritten tables accept exactly the language too, forks included, as long as no action was dropped. */
  lemma OptimizedLanguage(g: Grammar, fm: FirstMap, a: Automaton, m: Mode, pt: ParseTables, gotos: seq<GotoRow>, input: seq<Token>)
    requires BuiltFrom(g, fm, a, m, pt) && KeepsAll(g, a, m) && Redirected(g, pt, gotos) && Kinds(input)
    ensures CanAccept(g, ParseTables(pt.action, gotos), input, [0], 0) <==> InLanguage(g, input)
  {
    hide BuiltFrom, KeepsAll, Redirected, Kinds, CanAccept, InLanguage, Setting, Backed;
    OptimizedBacked(g, fm, a, m, pt, gotos);
    if CanAccept(g, ParseTables(pt.action, gotos), input, [0], 0) {
      AcceptedIsDerived(g, Basis(a, false), ParseTables(pt.action, gotos), input);
    }
    if InLanguage(g, input) {
      BuiltSetting(g, fm, a, m, pt);
      DerivedIsAccepted(g, fm, a, m, pt, input);
      OptimizedAccepts(g, fm, a, m, pt, gotos, input);
    }
  }

  // ----- the whole parser -----

  /** What `makeParser` works with: the tables as built or, unless optimising was turned off, the same
      with unit reductions bypassed. */
  ghost predicate ParserTables(g: Grammar, raw: ParseTables, optimize: bool, pt: ParseTables) {
    if optimize then pt == ParseTables(raw.action, pt.goto) && Redirected(g, raw, pt.goto) else pt == raw
  }

  method MakeParser(builder: GrammarBuilder, alwaysTerminals: seq<Terminal>, alwaysSkip: seq<Terminal>, slr: bool, optimize: bool)
      returns (tables: Option<ParseTables>, conflicts: seq<Report>, ghost a: Automaton, ghost m: Mode, ghost raw: ParseTables)
    requires WellFormed(builder.rules) && Closed(builder.rules, builder.first) && Shape(builder.rules, builder.first)
    ensures tables.Some? ==> BuiltFrom(builder.rules, builder.first, a, m, raw) && ParserTables(builder.rules, raw, optimize, tables.value)
    ensures tables.Some? ==> (conflicts == [] <==> forall s | 0 <= s < |a.states| :: RowQuiet(builder.rules, a, m, s))
    ensures tables.None? ==> !slr
  {
    hide WellFormed, Closed, Shape, Grounded, AutomatonOk, Redirected, RowDone, GotoFilled, RowQuiet, Least, LaClosed, FollowClosed, FollowLeast, FactSpace,
      Forwards, UnitBypass.Settled;
    raw := ParseTables([], []);
    tables, conflicts, a, m := BuildLALR(builder.rules, builder.first, alwaysTerminals, alwaysSkip, !slr);
    if tables.Some? {
      raw := tables.value;
      if optimize {
        var table := new GotoTable(builder.rules, tables.value);
        var redirected, stable;
        ghost var forwards;
        redirected, stable, forwards := table.EliminateUnitGotos();
        tables := Some(ParseTables(tables.value.action, table.goto));
      }
    }
  }

  lemma ParserBacked(g: Grammar, fm: FirstMap, a: Automaton, m: Mode, raw: ParseTables, optimize: bool, pt: ParseTables)
    requires BuiltFrom(g, fm, a, m, raw) && ParserTables(g, raw, optimize, pt)
    ensures Backed(g, Basis(a, !optimize), pt)
  {
    hide BuiltFrom, Redirected, Backed, GotosOk, ActionsJustified;
    if optimize { OptimizedBacked(g, fm, a, m, raw, pt.goto); } else { BuiltBacked(g, fm, a, m, raw); }
  }

  /** Parsing a whole input, the tables being optimised or not. Whatever the grammar and however its
      conflicts were resolved, a value stands for a derivation tree of the input. Where no action was
      dropped a syntax error means there is none; where no two actions ever met, the value denotes the
      same as the one tree there is. */
  method Parse(g: Grammar, ghost fm: FirstMap, ghost a: Automaton, ghost m: Mode, ghost raw: ParseTables, optimize: bool, pt: ParseTables,
               input: seq<Token>, fuel: nat) returns (out: Outcome)
    requires BuiltFrom(g, fm, a, m, raw) && ParserTables(g, raw, optimize, pt) && Kinds(input) && NothingIgnored(pt, input)
    ensures out.Parsed? ==> out.shifted == out.boundary == |input| && StandsFor(g, !optimize, out.value, input) && InLanguage(g, input)
    ensures out.SyntaxError? && KeepsAll(g, a, m) ==> !InLanguage(g, input)
    ensures out.TooMuchWork? ==> !Clean(g, a, m)
    ensures !out.Stuck?
    ensures Clean(g, a, m) ==>
              forall t | DerivedBy(g, t, input) && (fuel > Size(t) || !out.OutOfFuel?) ::
                out.Parsed? && Collapse(g, out.value) == Collapse(g, t) && (!optimize ==> out.value == t)
    ensures Clean(g, a, m) && Suffices(g, pt, input, fuel) ==> (out.Parsed? <==> InLanguage(g, input)) && (out.Parsed? || out.SyntaxError?)
  {
    hide BuiltFrom, ParserTables, Kinds, NothingIgnored, StandsFor, InLanguage, KeepsAll, Clean, DerivedBy, Collapse, Backed, Deterministically, CanAccept,
      NoConflicts, Suffices, Size;
    ParserBacked(g, fm, a, m, raw, optimize, pt);
    ghost var at;
    out, at := RunParser(g, Basis(a, !optimize), pt, input, false, fuel);
    assert input[..|input|] == input;
    if CanAccept(g, pt, input, [0], 0) { AcceptedIsDerived(g, Basis(a, !optimize), pt, input); }
    if KeepsAll(g, a, m) { ParserLanguage(g, fm, a, m, raw, optimize, pt, input); }
    if Clean(g, a, m) {
      CleanKeepsAll(g, a, m) by { BuiltParts(g, fm, a, m, raw); }
      ParserLanguage(g, fm, a, m, raw, optimize, pt, input);
      CleanParser(g, fm, a, m, raw, optimize, pt, input, fuel, out);
    }
  }

  lemma ParserLanguage(g: Grammar, fm: FirstMap, a: Automaton, m: Mode, raw: ParseTables, optimize: bool, pt: ParseTables, input: seq<Token>)
    requires BuiltFrom(g, fm, a, m, raw) && ParserTables(g, raw, optimize, pt) && KeepsAll(g, a, m) && Kinds(input)
    ensures CanAccept(g, pt, input, [0], 0) <==> InLanguage(g, input)
  {
    hide BuiltFrom, Redirected, KeepsAll, CanAccept, InLanguage, Setting, Backed, GotosOk, ActionsJustified, Kinds;
    if optimize {
      OptimizedLanguage(g, fm, a, m, raw, pt.goto, input);
    } else {
      BuiltSetting(g, fm, a, m, raw);
      BuiltBacked(g, fm, a, m, raw);
      AcceptsExactly(g, fm, a, m, raw, input);
    }
  }

  lemma CleanParser(g: Grammar, fm: FirstMap, a: Automaton, m: Mode, raw: ParseTables, optimize: bool, pt: ParseTables, input: seq<Token>,
                    fuel: nat, out: Outcome)
    requires BuiltFrom(g, fm, a, m, raw) && ParserTables(g, raw, optimize, pt) && Clean(g, a, m) && Kinds(input)
    requires OutcomeOk(g, !optimize, pt, input, false, fuel, out) && Deterministically(g, pt, input, fuel, out)
    ensures !out.TooMuchWork?
    ensures forall t | DerivedBy(g, t, input) && (fuel > Size(t) || !out.OutOfFuel?) ::
              out.Parsed? && Collapse(g, out.value) == Collapse(g, t) && (!optimize ==> out.value == t)
    ensures Suffices(g, pt, input, fuel) ==> !out.OutOfFuel?
  {
    hide BuiltFrom, Redirected, Clean, CanAccept, InLanguage, Deterministically, OutcomeOk, DerivedBy, Collapse, Kinds, Suffices, Size;
    if optimize {
      OptimizedExactly(g, fm, a, m, raw, pt.goto, input, fuel, out);
    } else {
      ParsesExactly(g, fm, a, m, raw, input, fuel, out);
    }
  }
}
