# Verification of the parser generator and its example compiler

A Dafny model of this repository's hardest parts, with proofs of what they are for: the LR half of the parser
generator parses what its grammars derive; the PEG half ends, and reads operator expressions as the LR half does;
the example compiler from C++ to WebAssembly keeps the meaning of programs. Beside them stand the table cache, the
preprocessor's macro expansion, the printer of C++ expressions and the constant folder.

The model follows the program: FIRST sets, the LR(0) automaton, lookahead propagation, table filling and
resolution, goto rewriting, the stack machine, the fork explorer, Tarjan's components, the packrat matcher,
macro substitution, the cache's writer and reader and the compiler's function context are methods or classes with
the loops of the original; each is proved against functions and predicates, and the theorems are about those.
Values of a parse are the free algebra of the grammar's actions: a leaf per token, a node per reduction (with what
a mid-rule action peeked at), `Both` per merge; `Restore.Collapse` interprets the identity action, which passes its
first value on.

| file | models |
|---|---|
| Grammar.dfy, Rules.dfy | grammars, derivation trees, sentential forms; from alternatives to numbered rules |
| FirstSets.dfy | FIRST sets and nullability |
| Automaton.dfy | the LR(0) automaton |
| Lookaheads.dfy, LookaheadTheory.dfy, Follow.dfy | lookahead propagation, what it means, FOLLOW |
| Tables.dfy, Resolution.dfy | filling and resolving the tables, what resolution keeps |
| Machine.dfy, Restore.dfy | the stack invariant, on raw tables and on tables whose gotos skip unit reductions |
| Completeness.dfy | every derivation tree is built by some run |
| Termination.dfy, Endless.dfy | how long a run can be; when it never ends |
| Frames.dfy, Control.dfy, Glr.dfy, Fork.dfy | the fork explorer over a graph of frames |
| Parser.dfy, Language.dfy | the driving loop; runs against derivations |
| UnitBypass.dfy, Build.dfy | rewriting gotos; building and using a whole parser |
| Witnesses.dfy | grammars and inputs at which something one might expect fails |
| TableCache.dfy, TableCodec.dfy | the bytes of a cached table file; tables as rows of numbers |
| Graphs.dfy, PegAnalysis.dfy | strongly connected components; nullable symbols, left corners, the PEG analysis |
| PegMatcher.dfy, PegTrees.dfy | matching without a memo table, and that it ends; matches as derivations |
| PegParser.dfy | the packrat parser: memo table, token cache, matches under way |
| Operators.dfy, PegOperators.dfy, OperatorTables.dfy, Agreement.dfy, Arithmetic.dfy | what precedence means; precedence climbing; conflict resolution by precedence; both back ends agree; the arithmetic grammar of README.md as an instance |
| Printing.dfy | printing an expression, its text, lexing the text and parsing it again |
| Macros.dfy | macro expansion |
| Slots.dfy, Backend.dfy | the function context as a specification and as a class; the code emitter |
| Words.dfy, Cpp.dfy, Wasm.dfy | machine words; the meaning of C++ programs and of WebAssembly code (section 4.4 of the WebAssembly Core Specification 1.0) |
| Emission.dfy | the code of an expression and of a statement |
| Refinement.dfy, Compiled.dfy, ScopesAfter.dfy, Compiler.dfy, Shifting.dfy, Errors.dfy | why that code does what the program means; where it does not; which programs compile |
| Folding.dfy, FoldedPrograms.dfy | folding literals; what it does to expressions and their code |

## Reading the main results

- *LR soundness*, for all grammars, inputs and resolutions: `Parsing.RunParser` and `Fork.RunGlrFork`
  accept only values that stand for derivation trees of exactly the tokens shifted, every mid-rule
  action having read exactly the values to its left.
- *LR completeness*: `Build.ParsesExactly`, `Build.ForksMissNothing` and their optimised versions. What
  they require of the tables (`BuiltFrom`) is what `Build.BuildLALR` and `Build.MakeParser` ensure; the other
  conditions are those a caller can read off the reports and the tables: `Clean` (`Resolution.CleanIff`)
  and `KeepsAll` (`Resolution.KeepsAllIff`).
- *LR termination*. The original's loop has no bound; the model's takes fuel. On an input with a derivation, more
  fuel than its tree has nodes and leaves is enough. On any input, `Build.EnoughFuel` (by `Termination.RunsEnd`)
  gives an amount that is enough when no two actions ever met and every symbol can vanish or begin with a
  terminal; in an operator grammar, and wherever every rule reads a token, twice the input is
  (`Termination.ReadingRunsEnd`), so the theorems on operators are about every input.
  `Endless.EndlessExactly` says for all tables when there is none: the loop never ends if and only if, reducing at one
  lookahead, it comes back to a state it has not popped and pushes the same nonterminal on it. So it does on the
  grammar of `Witnesses.LoopsForEver`.
- *Exactness of forks*: `Fork.ExactStacks` is kept after every token.
- *PEG termination*: the `decreases` clauses of PegMatcher.dfy and of the class `PegParser.Run` are the
  termination proof. `Ready` is what they need, and `PegParser.MakeAndParse` derives it from the analysis
  and three conditions on the grammar and the lexer.
- *Memoisation is invisible*: every method of `PegParser.Run` returns what the function without a memo
  table returns, for every content the table can have.
- *Both back ends agree* on operators, prefix operators and parentheses: `Agreement.BackEndsAgree`, for any of
  the grammar's tokens. Tokens have one expression that respects precedence at most (`Operators.OneReading`) and, if they form an
  expression, one at least (`Operators.ReadingOk`); `Agreement.TablesRead` and `PegOperators.PegReads` say that each
  back end returns it, and `PegOperators.NameClimbs` what any match at any level is.
- *Printing is undone by parsing*: `Printing.PrintedParses` for tokens, `Printing.TextParses` for text.
- *The cache gives back what it was given*: `TableCodec.ThroughTheCache`.
- *Macro expansion ends*: `Macros.ExpansionEnds`, by descent in the multiset order of the tokens' ranks.
- *Compiler correctness*: `Compiler.FunctionCorrect` is about `EmitFunction`, which
  `Backend.CompileFunction` computes; `Errors.EmitsExactly` says which programs compile. Two conditions on a
  program are needed, and for each there is a program that shows it: declarations stand directly inside blocks
  (`Cpp.Placed`, `Errors.ArmDeclarationLeaks`), and the left operand of a shift has the type both operands have in
  common (`Cpp.Fits`, `Shifting.MixedShift`).
- *Folding is exact*: `Folding.FoldsExactly`, and `FoldedPrograms.FoldKeeps` for whole expressions.

## Findings

Where something one might expect of the code does not hold, the model keeps the code and shows an input. Except for
nested predicates, where only a sufficient condition is given, it also states exactly when it does hold.

- An empty list of conflict reports does not mean that no action was dropped: a reduction that meets
  the accept entry disappears without a report (src/lalr.ts:312-363). `Witnesses.QuietlyDropped`; exactly when:
  `Resolution.CleanIff`.
- A conflict entry never grows: a third action meeting a fork is dropped without a report (src/lalr.ts:312-363).
  `Witnesses.ThirdDropped`; exactly when: `Resolution.KeepsAllIff`.
- Driving the tables need not end. A rule settled by precedence can make the machine reduce for ever without
  reading on, over an input that the grammar derives (src/lalr.ts:643-721): `Witnesses.LoopsForEver`; exactly when:
  `Endless.EndlessExactly`.
- In prefix mode, a value accepted inside a fork on the synthetic `$end` is reported with the lexer's
  offset, which lies behind the lookahead (src/lalr.ts:676-679, 978), while an ordinary accept reports the
  lookahead's start (src/lalr.ts:712-713). `Parsing.RunParser` states exactly when the boundary is not where the
  shifted tokens end (`ForksOnEnd`), `Witnesses.PrefixStopsBehind` shows an input.
- A symbol that neither vanishes nor begins with any terminal lets an item exist in `lalrLA` with an
  empty set, which still hands FIRST of its rest to the productions it calls for (src/lalr.ts:227-250), and
  creating such an entry does not count as a change, so what is recorded can depend on the order of items.
  `Witnesses.BarrenRecordsMore`; exactly when it is the merge of the LR(1) items: `LookaheadTheory.ExactlyWhen`.
- A cached table file that was cut can be taken for a whole one, with other tables in it
  (src/tableCache.ts:105-149). `TableCache.CutLoads` states exactly at which lengths.
- The PEG analysis looks only one level inside a predicate (src/peg.ts:73-74): `A -> !&A` passes, and
  matching `A` asks for `A` again at the same place. `PegParser.NestedEscapes`. Without predicates inside predicates
  matching ends (`PegParser.ReadyFrom`); exactly which grammars with them it ends for is not claimed.
- Epsilon alternatives are moved last only if the last alternative is not itself empty
  (src/peg.ts:165-172). `PegAnalysis.TriedKeeps` gives the exact condition, `TriedHides` an example.
- `-(-x)` is printed as `--x`, and without spaces around operators `a-(-x)` as `a--x`
  (src/examples/CPP/printer.ts:109-111, 425). `Printing.NegatedTwice`, `Printing.SubtractedNegative`; exactly when
  the text is read as what was printed: `Printing.TextReadsBack`.
- A declaration that is the whole arm of an `if`, or the whole body of a `while`, gets no scope
  (src/examples/CPP/backend.ts:320-336): its name stays visible. `Errors.ArmDeclarationLeaks`; what exactly the
  back end accepts: `Errors.EmitsExactly`, which is C++'s rule where declarations are directly inside blocks
  (`Errors.PlacedAccepted`).
- Shifts are compiled in the common type of both operands, where C++ takes that of the left one
  (src/examples/CPP/backend.ts:47-53, 200-205): `x >> s` of an `int` -1 and an `unsigned` 1 is 2147483647, not -1.
  `Shifting.MixedShift`; exactly when the type and the value are those of C++: `Shifting.OperatorExactly`, and when the
  value is, brought back to the left operand's type: `Shifting.ShiftedExactly`.
- Shifts of literals are folded in the common type of both operands, where C++ takes that of the left one
  (src/examples/CPP/walker.ts:129-131, 169-171): `-1 >> 1u` becomes 2147483647u, and `1 << 40L`, which has no
  value, 1099511627776L. `Folding.MixedShifts`; exactly when: `Folding.TypedExactly`.
- A sum whose right operand was folded to a `bool` is itself called a `bool`, and printed as one: `3 + (1 && 2)`
  as `true` (src/examples/CPP/walker.ts:111-114, 216-218). `Folding.SumPrintedTrue`; exactly which types are called
  by another name than in C++: `Folding.NamedExactly`. And a folded `true` or `false` is read back from its
  spelling as a `double`, because it holds an `e` (src/examples/CPP/walker.ts:196): `Folding.ReadBackExactly`.

## Model

| member | source | states |
|---|---|---|
| Rules.RuleBuilder.constructor | src/core.ts:387-389 | the augmented rule comes first: `$accept` derives the start symbol and then `$end` |
| Rules.RuleBuilder.AddAlternative | src/core.ts:341-347 | an alternative becomes one rule, each mid-rule action in it a fresh nonterminal with one empty rule that peeks at exactly the values before it; earlier rules keep their numbers |
| Rules.RulesWellFormed | src/core.ts:384-415 | whatever alternatives are added, the numbered rules are well formed: a mid-rule nonterminal stands only at the position its action peeks from |
| Grammars.RewritesInContext | src/core.ts:419-449 | a rewriting works in any context |
| FirstSets.GrammarBuilder.constructor | src/core.ts:419-449 | the fixed point is reached; the sets are closed under every rule and hold nothing the grammar does not justify |
| FirstSets.GrammarBuilder.AddRule | src/core.ts:428-446 | one rule's share of a pass adds only justified facts, and adds nothing just when the rule is satisfied |
| FirstSets.FirstExact | src/core.ts:419-449 | `t` is in FIRST(s) if and only if s rewrites to a form beginning with t; s is nullable if and only if it rewrites to nothing |
| Automata.Lr0Closure | src/lalr.ts:92-109 | the result extends the kernel and is the least set closed under calling productions |
| Automata.AutomatonBuilder.constructor | src/lalr.ts:131-151 | states are distinct closed item sets, every move of every item has its transition and no other exists, and every state but the first is entered from an earlier one |
| Automata.ClosureUnique | src/lalr.ts:92-117 | a kernel has only one closure, so a state's item set identifies it |
| Lookaheads.Propagator.Run | src/lalr.ts:218-260 | ends closed under closure and goto and least among closed tables; the tripwire fires only if there are more possible facts than passes allowed |
| Lookaheads.Propagator.Pass | src/lalr.ts:225-259 | a pass that changes nothing leaves every item with lookaheads propagated |
| Lookaheads.Propagator.AddLA | src/lalr.ts:201-213 | an item's set grows by exactly the given terminals; the result tells whether any was new |
| Lookaheads.Propagator.FirstOfRest | src/lalr.ts:235-244 | FIRST of what follows the dot's symbol, and whether all of it can vanish |
| Lookaheads.ValidItemsFound | src/lalr.ts:195-261 | the lookahead of every canonical LR(1) item is recorded in the state its viable prefix reaches |
| LookaheadTheory.LookaheadsBetween | src/lalr.ts:195-261 | for every grammar, the recorded lookaheads contain the merge of the canonical LR(1) items and are contained in the terminals that can begin the right context of some viable prefix |
| LookaheadTheory.LookaheadsExact | src/lalr.ts:195-261 | where every symbol can vanish or begin with a terminal, `t` is recorded for an item in a state if and only if some viable prefix reaching the state has the LR(1) item with lookahead t valid |
| LookaheadTheory.ExactlyWhen | src/lalr.ts:195-261 | whatever propagation can stop at is exactly the merge of the LR(1) items if and only if no item hands out a terminal that no valid LR(1) item does |
| LookaheadTheory.FertileHandsNothingNew | src/lalr.ts:227-250 | a grammar in which every symbol can vanish or begin with a terminal meets that condition |
| Witnesses.BarrenRecordsMore | src/lalr.ts:227-250 | a grammar without that property, for which propagation can stop at a table with a lookahead no valid LR(1) item has |
| Follows.ComputeFollow | src/lalr.ts:155-193 | the least FOLLOW table closed under every rule |
| Follows.LookaheadsWithinFollow | src/lalr.ts:155-193 | an LALR(1) lookahead of an item is in FOLLOW of its left-hand side |
| Tables.TableBuilder.SetAction | src/lalr.ts:304-363 | the entry becomes what resolution says, and a report is made exactly when it says so |
| Tables.TableBuilder.Fill | src/lalr.ts:263-291 | every row holds exactly the settled actions of its state and its gotos; there are no reports if and only if no state had anything to resolve |
| Tables.TableBuilder.FillAlways | src/lalr.ts:62-73 | only default entries are added, and every always-terminal has an entry in every state |
| Resolution.SettleFromIncoming | src/lalr.ts:304-363 | resolution never invents an action |
| Resolution.CleanIff | src/lalr.ts:312-363 | no two actions ever meet if and only if nothing was reported and no reduction competes with accepting (such a one is dropped unreported) |
| Resolution.KeepsAllIff | src/lalr.ts:312-363 | every action survives as an alternative if and only if at most two meet anywhere and any two that meet fork |
| Resolution.OrderIrrelevant | src/lalr.ts:318-353 | a shift and a reduce settle the same whichever came first |
| Resolution.EarliestRuleWins | src/lalr.ts:349-360 | among competing reductions without forks the earliest rule wins, in whatever order they come |
| Witnesses.QuietlyDropped | src/lalr.ts:312-363 | a grammar all of whose rows are filled without a report although a reduction was dropped at the accept entry |
| Witnesses.CyclicWellFormed | src/lalr.ts:83-90 | that grammar is one tables can be built for |
| Witnesses.ThirdDropped | src/lalr.ts:312-363 | a grammar in which three reductions are to be forked and one of them is dropped |
| Machine.ReduceFits | src/lalr.ts:694-708 | where an item is complete its whole right-hand side and what its action peeks at are on the stack, and the exposed state has a transition on its left-hand side |
| Machine.ShiftKeeps | src/lalr.ts:685-692 | a shift never takes `$end`, and keeps the stack invariant |
| Machine.ReduceKeeps | src/lalr.ts:694-708 | a reduce never underflows nor misses its goto; the node built derives its symbol, its action having read exactly the values to its left, and the yield is unchanged |
| Machine.AcceptDerives | src/lalr.ts:709-714 | on accept the one value is a derivation tree of the start symbol for all that was consumed |
| Machine.TablesJustified | src/lalr.ts:272-291 | every alternative in the tables is a transition or a complete item of its state |
| Restore.FineReduce | src/lalr.ts:694-708 | the same for gotos that skip unit reductions: no underflow, no missing goto, and the stack still stands for one the raw tables could have built |
| Restore.FineAccept | src/lalr.ts:709-714 | on accept the value stands for a derivation tree of the consumed tokens; on raw tables it is that tree |
| Restore.Raised | src/lalr.ts:365-374 | putting unit nodes back on a tree gives a derivation of the state's symbol with the same yield and value |
| Restore.FineMerge | src/lalr.ts:741-755 | values that converge on one state above one stack stand for trees of the same symbol over the same tokens |
| Completeness.LalrSpreads | src/lalr.ts:195-261 | propagated lookaheads reach the productions called for and the items moved to |
| Completeness.SlrSpreads | src/lalr.ts:155-193 | so does FOLLOW, the SLR(1) lookahead |
| Completeness.KeptIsOffered | src/lalr.ts:263-291 | as long as resolution drops nothing, the tables offer every action that applies |
| Completeness.Simulate | src/lalr.ts:643-721 | wherever a symbol is called for, each of its derivation trees is built by some run over its yield |
| Completeness.TreeAccepted | src/lalr.ts:643-721 | as long as no action was dropped, every derivation tree of the start symbol is the outcome of an accepting run over its yield |
| Completeness.CleanIsDeterministic | src/lalr.ts:272-291 | tables in which no two actions met offer one choice at most |
| Completeness.OneAcceptingRun | src/lalr.ts:643-721 | with one choice at most there is only one accepting run |
| Completeness.CleanIsUnambiguous | src/lalr.ts:272-291 | a grammar whose tables had no collisions has at most one derivation tree for any input |
| Termination.RunSize | src/lalr.ts:643-721 | a run has exactly as many steps as it adds nodes and leaves to the stack |
| Termination.Rebuilt | src/lalr.ts:643-721 | a stack on which an item is valid is rebuilt from the start by some run, over what its values yield followed by anything that can come next |
| Termination.Escape | src/lalr.ts:643-721 | from a stack on which an item is valid, whatever can come next is shifted or accepted after finitely many steps |
| Termination.StackBounded | src/lalr.ts:643-721 | with one choice at most, a well-built stack holds no more nodes than it takes to shift some terminal after the same tokens |
| Termination.RunsEnd | src/lalr.ts:643-721 | where no two actions met and every symbol can vanish or begin with a terminal, the runs over any input, in the language or not, are bounded; over rewritten gotos too |
| Termination.ReadingRunsEnd | src/lalr.ts:643-721 | where every rule reads a token, no run is longer than twice the input, however conflicts were resolved |
| Endless.Again | src/lalr.ts:694-708 | when reductions at one lookahead expose a state and push a nonterminal on it, and later expose that state again, there or higher up, without having popped it, and push the same, they do so again after as many steps |
| Endless.TwoAlike | src/lalr.ts:694-708 | among infinitely many reductions at one lookahead two push the same nonterminal on the same state, which was not popped in between |
| Endless.EndlessExactly | src/lalr.ts:643-721 | for any tables and input, the machine is forced to go on for ever if and only if it comes back once in this way |
| Endless.NeverStops | src/lalr.ts:643-721 | so without conflict entries the parser runs out of every amount of fuel if and only if it comes back once |
| Witnesses.LoopsForEver | src/lalr.ts:643-721 | a grammar with a conflict settled by precedence and an input over which the machine is forced to go on for ever: after any number of steps there is exactly one way to go, and it does not read on |
| Witnesses.LoopingWellFormed | src/lalr.ts:83-90 | that grammar is one tables can be built for |
| Witnesses.LoopingDerives | src/lalr.ts:643-721 | and derives that input |
| Frames.SameKey | src/lalr.ts:739 | frames with the same convergence key stand on the same stack |
| Frames.MergeOk | src/lalr.ts:741-743 | merging converging frames keeps the invariant of both |
| Control.FirstToken | src/lalr.ts:774-840 | an accepting run accepts on the current token after reductions only, or goes on from a stack past the token |
| Control.SwallowedAccepts | src/lalr.ts:757-898 | a run over some tokens can be put in front of an accepting one |
| Glr.Reduce | src/lalr.ts:790-806 | the frame a reduction makes stands on the stack the machine's reduction leaves, peeked values included |
| Glr.ApplyAction | src/lalr.ts:774-815 | one action on one frame keeps the bookkeeping: nothing live without a run that leads there, and the action's outcome represented |
| Glr.Process | src/lalr.ts:843-852 | every alternative of an entry is applied to the frame |
| Glr.RegisterWorks | src/lalr.ts:762-770 | registering a frame, merged or not, keeps every invariant of the exploration |
| Glr.AllExplored | src/lalr.ts:822-852 | when the worklist is empty the shifted frames stand for exactly the stacks that runs from the live frames lead to, and no run accepts on this token |
| Glr.Explore | src/lalr.ts:757-854 | one token: the shifted frames are exact and nothing accepts, or the accepted value stands for a derivation of the whole input, or the budget is spent |
| Fork.Converge | src/lalr.ts:874-879 | merging the shifted frames changes no stack, and their keys become distinct |
| Fork.RunGlrFork | src/lalr.ts:725-899 | settles only on the one stack every run over the tokens consumed leads to, with an accepting run if and only if there was one; reports failure only if no run accepts; accepts only values that stand for derivations of the whole input |
| Fork.Chain | src/lalr.ts:745-748 | the chain of frames stands for the flat stack |
| Fork.Flatten | src/lalr.ts:882-889 | and back |
| Parsing.ReduceTop | src/lalr.ts:694-708 | popping, peeking and pushing is the machine's reduction |
| Parsing.RunParser | src/lalr.ts:635-722 | a value stands for a derivation of exactly the tokens shifted, all of them unless in prefix mode; a syntax error outside prefix mode means no run accepts; the internal errors are unreachable; without conflict entries the accepting run that fits the fuel is the one followed, and fuel runs out exactly if there are as many forced steps; the reported boundary is behind a token that was not shifted if and only if a fork accepted on the synthetic end, never if no row has a conflict entry there; and wherever the machine is forced to such a fork, that is what can come of it |
| Witnesses.PrefixStopsBehind | src/lalr.ts:676-679 | a grammar and the input `a b` for which the parser in prefix mode returns no error (a value, or at most that the work budget is spent), and reports the value, which is of `a`, to end behind `b` |
| Language.ControlRuns | src/lalr.ts:643-721 | an accepting run on states is one on values, and its value stands for a derivation of the input |
| Language.PickDerives | src/lalr.ts:949-953 | whichever side of each merge is taken, a derivation tree over the same tokens is left, whose mid-rule actions read what they should |
| Language.AcceptsExactly | src/lalr.ts:635-722 | some run of the tables accepts an input if and only if the grammar derives it, one half as long as no action was dropped |
| UnitBypass.GotoTable.FindForwards | src/lalr.ts:380-400 | exactly the states without gotos that only ever reduce by one pass-through unit rule, and where that rule leads |
| UnitBypass.GotoTable.EliminateUnitGotos | src/lalr.ts:402-421 | after any number of redirects every goto lies on the chain of unit reductions from the original one; if the loop stopped on its own no entry can be led on |
| UnitBypass.RedirectedLeads | src/lalr.ts:378-423 | each rewritten goto climbs identity unit rules whose right-hand side is the symbol reached before |
| UnitBypass.BypassedUnit | src/lalr.ts:386-399 | a bypassed state was entered on the right-hand side of its unit rule |
| UnitBypass.RunFollowed | src/lalr.ts:365-376 | every accepting run on the raw tables is followed by one on the rewritten tables, no longer, with values that denote the same |
| Build.BuildLALR | src/lalr.ts:83-299 | the automaton, lookaheads and tables above, LALR(1) or SLR(1); no tables only at the tripwire |
| Build.MakeParser | src/lalr.ts:938-945 | the raw tables, or the same with gotos led on over unit reductions |
| Build.EnoughFuel | src/lalr.ts:643-721 | where no two actions met and every symbol can vanish or begin with a terminal, every input has an amount of fuel that suffices |
| Build.ParsesExactly | src/lalr.ts:635-722 | where no two actions met, parsing returns exactly the one derivation tree, with more fuel than the tree has nodes; and, with the fuel `EnoughFuel` gives, a syntax error if and only if there is none |
| Build.ForksMissNothing | src/lalr.ts:725-899 | with forks, as long as no action was dropped, what is rejected has no derivation, and what is parsed has one for every choice between merged values |
| Build.OptimizedAgrees | src/lalr.ts:365-376 | where raw tables without conflict entries parse, the rewritten ones do with the same value, with more fuel than that value has nodes |
| Build.OptimizedLanguage | src/lalr.ts:365-376 | the rewritten tables accept exactly the language too |
| Build.OptimizedExactly | src/lalr.ts:365-376 | the rewritten tables of a collision-free grammar return a value that denotes the one derivation tree, and a syntax error if and only if there is none |
| Build.Parse | src/lalr.ts:969-974 | the whole parser, optimised or not, on whole inputs: soundness for every grammar; completeness where no action was dropped; where none collided, the exact value, and with enough fuel acceptance exactly of the language |
| Graphs.StronglyConnected | src/peg.ts:86-135 | the emitted components are disjoint lists without repetition, cover every node, hold nodes that reach each other, and an edge leads to the same or an earlier component; the explicit work stack empties |
| Graphs.ComponentsExact | src/peg.ts:86-135 | two nodes share a component if and only if each reaches the other |
| Graphs.PushedKeeps | src/peg.ts:110-116 | entering a node keeps what the search knows: order on the stack, reachability along it, low links that are reached and bound every edge looked at |
| Graphs.LinkedKeeps | src/peg.ts:117-119 | an edge to a node on the stack keeps it |
| Graphs.CrossKeeps | src/peg.ts:108-119 | an edge to an emitted node keeps it |
| Graphs.PoppedKeeps | src/peg.ts:120-123 | leaving a node that reaches below itself keeps it |
| Graphs.CutComponents | src/peg.ts:124-132 | what leaves the stack with a root is exactly one more component |
| PegAnalysis.NullableSyms | src/peg.ts:41-56 | the fixed point is exactly the nonterminals that derive the empty string, predicates counting as empty |
| PegAnalysis.LeftCorners | src/peg.ts:61-84 | the edges are exactly the left corners past nullable prefixes, one level inside predicates; `indirect` is exactly the rules that reach themselves other than as their first symbol |
| PegAnalysis.TriedKeeps | src/peg.ts:165-172 | reordering loses no alternative; one still stands after an epsilon alternative exactly when it did before and the last alternative is empty |
| PegAnalysis.TriedHides | src/peg.ts:165-172 | an epsilon alternative both first and last hides what stands between |
| PegAnalysis.Analyse | src/peg.ts:148-212 | an error is reported if and only if some left recursion is not of the form a seed can be grown for; without one, left corners go down in rank but for direct recursion |
| PegMatcher.MatchNonTerminal | src/peg.ts:423-446 | matching ends on every input, by (input left, left-corner rank, step); a match of a nonterminal that is not nullable consumes something |
| PegMatcher.MatchRest | src/peg.ts:400-419 | the same for the rest of an alternative: if nothing was consumed the rule's nonterminal is nullable |
| PegMatcher.Grow | src/peg.ts:468-495 | seed growing ends: each round consumes something |
| PegMatcher.CornerRank | src/peg.ts:400-412 | a symbol met before anything is consumed has a lower rank, unless it is the direct recursion that growing replaces |
| PegParser.Run.Name | src/peg.ts:423-446 | with a memo table or without, and whatever it holds, the result is what matching without one computes; the throw on re-entry is unreachable, and the set of matches under way is restored |
| PegParser.Run.Alternative | src/peg.ts:400-419 | the loop over an alternative computes its match, from the start or with the seed bound |
| PegParser.Run.Growing | src/peg.ts:468-495 | the growing loop computes the grown seed |
| PegParser.Run.Lex | src/peg.ts:342-354 | the token cache changes no token |
| PegParser.MakeAndParse | src/peg.ts:256-301 | a grammar is refused exactly for unsupported left recursion; otherwise every parse ends, and its result depends on neither memo table nor token cache |
| PegParser.ReadyFrom | src/peg.ts:148-212 | what the caller must see to: no nested predicates, a rule for every nonterminal, tokens that are not empty |
| PegParser.NestedEscapes | src/peg.ts:72-79 | a predicate inside a predicate escapes the analysis: the grammar is found to have no left recursion, and the first thing matching its nonterminal does is to ask for it again at the same place |
| PegTrees.NameParses | src/peg.ts:356-495 | a match is a derivation from its nonterminal of exactly the tokens consumed; predicates consume nothing and hold or fail as written; mid-rule actions see the values before them |
| PegTrees.GrowParses | src/peg.ts:468-495 | a grown seed is a derivation, and unless it is the seed itself, one by a left-recursive rule whose first child is the seed before it, down to the first |
| Operators.FitsThroughout | README.md:45-58 | the operators inside an operand bind as its outermost one does, against any neighbour |
| Operators.OneReading | src/peg.ts:308-316 | two expressions of operators, prefix operators and parentheses over the same tokens that respect precedence and associativity are the same |
| Operators.ReadingOk | README.md:111-114 | every expression has a reading over the same tokens that respects them |
| PegOperators.NameClimbs | src/peg.ts:448-495 | every match of an operator nonterminal, at any level asked for, is an expression over exactly the tokens consumed that respects precedence, has only operators of that level outside parentheses, and ends only where no operator of the level can go on |
| PegOperators.Builds | src/peg.ts:448-495 | wherever an expression that respects precedence stands, on its level and with nothing after it that it could take, it is matched whole |
| PegOperators.PegReads | src/peg.ts:448-495 | the tokens of an expression, however its rules bracket it, are consumed entirely and come out as the one expression that respects precedence |
| PegOperators.PartFromRules | src/peg.ts:206-212 | what these theorems ask of an operator nonterminal can be read off its rules |
| OperatorTables.ShiftWins | src/lalr.ts:317-344 | after an operand, where an operator binds to the right of the one on the stack the table shifts it and does nothing else |
| OperatorTables.ReduceWins | src/lalr.ts:317-344 | and where it gives way the table reduces and does nothing else |
| OperatorTables.NodeBuilt | src/lalr.ts:643-722 | wherever an operand is called for, the machine builds each expression that respects precedence there |
| Agreement.NoneLeft | src/lalr.ts:317-344 | in an operator grammar every conflict is settled; none is left to run time |
| Agreement.OrderedAccepted | src/lalr.ts:643-722 | the derivation tree that respects precedence is the outcome of an accepting run |
| Agreement.TreeFrom | src/core.ts:384-415 | an expression over tokens of the grammar, each used as the grammar uses it, has a derivation tree |
| Agreement.OperatorFuel | src/lalr.ts:643-721 | fuel for twice the input is enough for an operator grammar |
| Agreement.TablesRead | src/lalr.ts:643-722 | the tables of an operator grammar accept exactly its language, answer every other input with a syntax error, and return of all derivation trees the one that respects precedence and associativity |
| Agreement.BackEndsAgree | README.md:111-114 | on any of the grammar's tokens, with the same table of operators, the table-driven parser accepts if and only if the packrat parser matches them all, and both return the same expression |
| Arithmetic.ForTheTables | README.md:45-62 | the arithmetic grammar of the documentation is one that the theorems on tables are about |
| Arithmetic.ForThePackratParser | README.md:45-62 | and one that those on the packrat parser and on their agreement are about |
| Arithmetic.ReadsExamples | README.md:45-62 | `3 + 4 * 5` and `-3 * 2` are read as precedence says |
| Printing.PrintedOk | src/examples/CPP/printer.ts:416-430 | what is printed for an expression respects the parser's precedence, and means that expression |
| Printing.NoneSpare | src/examples/CPP/printer.ts:416-430 | no parentheses are printed if and only if none are needed |
| Printing.SameOrderInCpp | src/examples/CPP/printer.ts:42-54 | the printer's table of levels orders the binary operators as the parser's list of levels does |
| Printing.PrintedParses | src/examples/CPP/printer.ts:416-430 | the tables read the tokens printed for an expression back as that expression |
| Printing.TextReadsBack | src/examples/CPP/printer.ts:109-111 | the text of an expression is lexed to the tokens that were printed if and only if no two neighbours in it make another token, with spaces around operators or without |
| Printing.NegatedTwice | src/examples/CPP/printer.ts:425 | `-(-x)` is printed as `--x`, which is read as a decrement |
| Printing.SubtractedNegative | src/examples/CPP/printer.ts:109-111 | without spaces `a-(-x)` has neighbours that make another token, with spaces it has none |
| Printing.TextParses | src/examples/CPP/printer.ts:416-430 | printing, lexing the text and parsing the tokens gives the expression back, where no two neighbours make another token |
| Macros.RankFalls | src/examples/CPP/preprocessor.ts:238-309 | what replaces a macro's name has a larger hide set, so fewer macros can expand it |
| Macros.SubstHides | src/examples/CPP/preprocessor.ts:310-360 | everything a call becomes is hidden from the macros the call was |
| Macros.Climb | src/examples/CPP/preprocessor.ts:238-309 | descent in the multiset order: if expansion ends on everything lower, it ends here |
| Macros.ExpansionEnds | src/examples/CPP/preprocessor.ts:238-360 | expansion ends on every list of tokens, whatever the macros, arguments expanded on the way included |
| Macros.Thorough | src/examples/CPP/preprocessor.ts:238-309 | no name of an object-like macro is left that its token is not hidden from |
| Macros.OnceIsEnough | src/examples/CPP/preprocessor.ts:238-309 | with object-like macros only, expanding the result again changes nothing |
| Macros.CollectArguments | src/examples/CPP/preprocessor.ts:275-296 | the loop over the tokens behind a name collects the specified arguments and finds the closing parenthesis |
| Macros.PasteChain | src/examples/CPP/preprocessor.ts:324-344 | the loop over a chain of `##` joins the specified operands |
| Macros.Substitute | src/examples/CPP/preprocessor.ts:310-360 | the loop over a body, with its cache of expanded arguments, computes the specified substitution |
| Macros.ExpandTokens | src/examples/CPP/preprocessor.ts:238-309 | the loop that splices replacements into the list computes the specified expansion |
| Macros.ExpandAll | src/examples/CPP/preprocessor.ts:238-360 | expansion of any list gives a result, the same for any bound that suffices, with no object-like macro name left in it |
| TableCache.ReadPut | src/tableCache.ts:72-78 | a number that was put down is read back, whatever follows |
| TableCache.SavedLoads | src/tableCache.ts:163-202 | a saved file loads as the tables saved; with anything behind it, it is a miss |
| TableCache.HeaderCut | src/tableCache.ts:163-179 | a file cut before the end of its state count is a miss |
| TableCache.CutLoads | src/tableCache.ts:105-149 | a cut file is taken for a whole one if and only if the cut falls between two numbers behind the state count |
| TableCache.Writer.PutVarint | src/tableCache.ts:72-78 | the loop puts down seven bits at a time the specified bytes |
| TableCache.Writer.PutRows | src/tableCache.ts:81-87 | rows are put down as their lengths and numbers |
| TableCache.Writer.Save | src/tableCache.ts:184-193 | the file is the specified bytes |
| TableCache.Reader.NextVarint | src/tableCache.ts:105-115 | the loop reads the specified number, and zero at the end of the bytes |
| TableCache.Reader.NextRow | src/tableCache.ts:127-132 | a row whose length runs off the end stops there |
| TableCache.Reader.NextTables | src/tableCache.ts:142-156 | tables are read only if the bytes end where the last row does |
| TableCache.LoadTables | src/tableCache.ts:163-179 | the tables of a file, or a miss at a wrong magic, version, flag, digest, count or stamp |
| TableCodec.KeysApart | src/lalr.ts:513-518 | different entries have different keys, whatever follows them |
| TableCodec.DecodeBack | src/lalr.ts:483-511 | an entry that was encoded, nested conflicts included, is decoded from anywhere in a row |
| TableCodec.RowBack | src/lalr.ts:483-511 | a row is read back whichever entry is taken as its default |
| TableCodec.SerializeRow | src/lalr.ts:520-574 | the loops count entries by key, take the most frequent as the default, and write the specified row |
| TableCodec.SerializeTables | src/lalr.ts:520-574 | every row gives back its entries but for the defaults, every goto row all of them |
| TableCodec.ThroughTheCache | src/lalr.ts:440-603 | tables that are serialised, saved, loaded and deserialised are what they were, defaults put back |
| Slots.BindKeeps | src/examples/wasm-codegen.ts:410-420 | declaring hands one slot of the type to the new declaration; every slot keeps exactly one owner, of its own type |
| Slots.CloseKeeps | src/examples/wasm-codegen.ts:360-372 | closing a scope frees the slots of exactly the open, unpinned declarations made since it was opened; every slot keeps exactly one owner |
| Slots.OpenKeeps | src/examples/wasm-codegen.ts:353-356 | opening a scope changes no owner |
| Slots.LookupInnermost | src/examples/wasm-codegen.ts:318-325 | lookup finds the innermost binding still open, and fails only when there is none |
| ScopesAfter.SlotsApart | src/examples/wasm-codegen.ts:280-291 | no two open declarations share a slot |
| ScopesAfter.StmtLeaves | src/examples/CPP/backend.ts:284-357 | compiling a statement leaves the enclosing scopes' declarations as they were, slots of closed ones reused or not |
| Words.PatternOfWrap | src/examples/CPP/backend.ts:45-51 | wrapping a value and then taking its bit pattern is taking its bit pattern |
| Refinement.ConvertRefines | src/examples/CPP/backend.ts:107-131 | the conversion instructions take the pattern of a value in one type to the pattern of its C++ conversion in the other |
| Refinement.OperatorRefines | src/examples/CPP/backend.ts:133-172 | whenever the operator has a value on two values of one type, the instruction chosen computes its pattern from the operands' patterns, without a trap |
| Shifting.OperatorExactly | src/examples/CPP/backend.ts:200-205 | the code of an operator computes the value C++ gives it, in the type C++ gives it, if and only if it is no shift or its left operand has the common type |
| Shifting.ShiftedExactly | src/examples/CPP/backend.ts:200-205 | brought back to the type of its left operand, a shift is what C++ makes of it if and only if it does not shift a negative number to the right, by more than zero, as an unsigned one of the same width |
| Shifting.MixedShift | src/examples/CPP/backend.ts:200-205 | `int f(int x, unsigned s) { return x >> s; }` of -1 and 1 is -1 in C++, and 2147483647 from the compiled code |
| Compiled.LookupIsFind | src/examples/wasm-codegen.ts:318-325 | the binding the compiler looks up is the variable the program means |
| Compiled.TypeAgrees | src/examples/CPP/backend.ts:45-51 | an expression compiles if and only if it has a type, and where every shift has a left operand of the common type, the type the back end works with is that of the expression |
| Compiled.ExprCorrect | src/examples/CPP/backend.ts:185-270 | where every shift has a left operand of the common type, running an expression's code pushes the pattern of its value and leaves every variable's value, assignments included, in its slot |
| Compiler.StmtCorrect | src/examples/CPP/backend.ts:284-357 | where declarations are directly inside blocks and every shift has a left operand of the common type, running a statement's code ends as the statement does: falling through, branching to the label its break or continue means, returning the value, or going on as long as it does, with the variables in scope in their slots |
| Compiler.LoopCorrect | src/examples/CPP/backend.ts:327-336 | the same for the rounds of a loop, from inside its two labels |
| Compiler.InnerMatches | src/examples/wasm-codegen.ts:510-519 | inside a loop `continue` restarts it and `break` leaves it, past the labels entered since |
| Compiler.FunctionCorrect | src/examples/CPP/backend.ts:364-373 | under the same two conditions on the body, a call of the compiled function returns what its body means on the arguments, runs as long as it does, and traps where it flows off the end |
| Errors.RedeclaredExactly | src/examples/wasm-codegen.ts:410-416 | a name is rejected as redeclared just when a variable of the innermost block has it |
| Errors.PlacedAccepted | src/examples/CPP/backend.ts:284-357 | where every declaration is directly inside a block, that is C++'s own rule |
| Errors.EmitsExactly | src/examples/CPP/backend.ts:284-357 | for every statement, the back end compiles it if and only if its names are known, no block declares one twice and `break` and `continue` are inside loops, where a declaration that is a whole arm or body counts as one of the block around it |
| Errors.ArmDeclarationLeaks | src/examples/CPP/backend.ts:320-325 | a declaration that is the whole arm of an `if` is still visible after it |
| Backend.FunctionContext.Lookup | src/examples/wasm-codegen.ts:318-325 | the scan from the end finds the innermost open binding |
| Backend.FunctionContext.DeclareLocal | src/examples/wasm-codegen.ts:410-420 | the scope becomes the specified one, or nothing changes where the original throws |
| Backend.FunctionContext.CloseScope | src/examples/wasm-codegen.ts:360-372 | the loop over the scope's declarations closes and frees exactly those it should |
| Backend.FunctionContext.Temp | src/examples/wasm-codegen.ts:396-408 | a visible name of the same type is reused, one of another type refused |
| Backend.EmitExpression | src/examples/CPP/backend.ts:185-270 | appends exactly the specified code, or reports failure where the original throws |
| Backend.EmitStatement | src/examples/CPP/backend.ts:284-357 | appends exactly the specified code and leaves exactly the specified scope and labels |
| Backend.CompileFunction | src/examples/CPP/backend.ts:364-373 | parameters in the first slots, the body as a block, a trailing `unreachable`: the code `FunctionCorrect` is about |
| Folding.ConvertIs | src/examples/CPP/walker.ts:82-85 | a conversion gives the one value of the type that is congruent modulo its number of values |
| Folding.CommonIsUsual | src/examples/CPP/walker.ts:111-114 | the common type has the width and signedness of the usual arithmetic conversions |
| Folding.NamedExactly | src/examples/CPP/walker.ts:111-114 | and its name, but for pairs of a `bool` on the right with `bool` or `int`, and of 64-bit types of different rank in the wrong order |
| Folding.LowBits | src/examples/CPP/walker.ts:105-108 | numbers are congruent modulo a power of two if and only if their low bits are the same |
| Folding.CalcInIs | src/examples/CPP/walker.ts:152-175 | in one type, a value is folded to if and only if it is what the operator computes there and a JavaScript number holds it |
| Folding.FoldsExactly | src/examples/CPP/walker.ts:118-178 | for integers of any kinds in range, a binary operator folds to a value if and only if that is its value in C++, operands converted, and within 2^53 - 1: never for signed overflow, division by zero or a count out of range; for shifts, where the common type is that of the left operand |
| Folding.TypedExactly | src/examples/CPP/walker.ts:118-178 | what is folded has the type and the value C++ gives it if and only if the operator is no shift or the common type is that of the left operand |
| Folding.MixedShifts | src/examples/CPP/walker.ts:169-171 | `-1 >> 1u` and `1 << 40L` fold to what they are not |
| Folding.UnaryExactly | src/examples/CPP/walker.ts:180-191 | a unary operator folds to a value if and only if that is its value in C++ and can be written |
| Folding.ReadBackExactly | src/examples/CPP/walker.ts:194-226 | a folded scalar is read back from its spelling as it was if and only if it is no `bool` |
| Folding.SumPrintedTrue | src/examples/CPP/walker.ts:111-114 | `3 + (1 && 2)` folds to 4, which is printed as `true` |
| FoldedPrograms.FoldKeeps | src/examples/CPP/vsdg.ts:129-151 | folding every operator on literals in an expression keeps its type, its value, its assignments, and whether it has a value |
| FoldedPrograms.FoldedCode | src/examples/CPP/backend.ts:185-270 | the code of the folded expression pushes the same and leaves the same in every variable's slot as that of the expression |

## Left out

- LookaheadTheory.LookaheadsExact: states the equality for grammars in which every symbol vanishes or begins with a terminal; for the others the two bounds of `LookaheadsBetween` are what holds, and `ExactlyWhen` says when they meet.
- Parsing.RunParser: takes fuel; `Build.EnoughFuel` and `Termination.ReadingRunsEnd` say when some amount suffices, for parsers without conflict entries. A run with forks that exhausts it says nothing.
- Termination.RunsEnd: is for grammars whose every symbol vanishes or begins with a terminal, and gives no formula for the bound; for other tables `Endless.EndlessExactly` says when there is one.
- Witnesses.PrefixStopsBehind: leaves open that the budget of 50,000 steps is spent, as nothing is proved about how many steps a fork takes.
- Witnesses.BarrenRecordsMore: gives a table at which no pass of propagation changes anything and which is least among such; which of those tables a run ends at depends on the order of items.
- Build.ForksMissNothing: says nothing about a run that exceeds the budget of 50,000 steps or the fuel.
- Glr.Explore: takes the live frames in any order, where the original uses a map's insertion order.
- Agreement.BackEndsAgree: is for operators with distinct tokens, left- or right-associative levels, one right-associative level of prefix operators above the binary ones, one kind of parentheses and single-token operands; without `nonassoc`, whose raised floor also skips weaker operators (src/peg.ts:478-488).
- PegMatcher.MatchNonTerminal: gives a lexer the offset and the kind and place of the token before; one that looks at more of that token could make the memo key too coarse.
- Lexing: tokens are an abstract sequence, or for PEG a function of the place; terminal callbacks, skipped text and the row-restricted choice of terminals are not modelled. A token whose entry is `ignore` never reaches the parser.
- PEG: the recursion depth limit, "expected" sets and positions of errors, warnings about shadowed alternatives, and the texts of problems.
- Error recovery, stuck counters and error messages.
- User-supplied `merge` combiners and `forkCtx`; `sameValue` (equal values are kept twice by `Both`).
- The bottom stack entry carries no value; the original stores `undefined` there.
- Predicates in LR grammars: `buildLALR` rejects them before anything modelled here.
- TableCodec.SerializeTables: numbers terminals and nonterminals by maps it is given; `>>` on entry codes is a division, which is the same below 2^30 terminals.
- TableCache.LoadTables: takes the bytes as they were read; a stamp is eight opaque bytes and a number, and `grammarDigest`, file access and the search for a source file are not modelled.
- Macros.ExpandAll: is the expansion of one list of tokens; directives, `#if` expressions, comments, the tokenizer and includes are not modelled. A parameter named like a property of the JavaScript object prototype (`constructor`, say) makes the lookup in the cache of expanded arguments (src/examples/CPP/preprocessor.ts:314) find something that is no argument and throw; the model's map does not show this.
- Printing.TextReadsBack: takes no part of a text for a comment. Without spaces a division by a dereference is printed `/*`, which the lexer takes for a comment only where a `*/` follows (src/examples/CPP/c-parser.ts:574), and none does in an expression.
- Printing.TextParses: is for identifiers and integers as operands, prefix and binary operators; the other forms of expressions, statements and declarations are not modelled. The lexer is the longest token that is allowed where an operand is to come, or after one.
- Folding.FoldsExactly: is about integers; floating point, and how a literal's text becomes a number, are not modelled.
- FoldedPrograms.Fold: folds literals of type `int` in the expressions of the back end, where the original folds in a graph of values, constant branches included.
- Compiler.FunctionCorrect: claims nothing about programs with undefined behaviour (division by zero, out-of-range shifts); signed overflow wraps, as the emitted code does; nor about those in which a declaration is a whole arm or body, or the left operand of a shift is not of the common type, for which `Errors.EmitsExactly` and `Shifting.OperatorExactly` say what differs.
- Backend: floating point, `void` functions and empty `return`, calls, and literals outside `int`; a declaration of several names is a sequence of declarations.
- Function context: types other than the four integer scalars, closures, holders, `finally` guards, and the binary encoding of the module.
- The walkers, the value graph, and the other example languages.
