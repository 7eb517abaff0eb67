# Mewa: a verified model of its table builder, driver and type database

Mewa generates LALR(1) compilers. This project models its four cores in Dafny and proves what they promise.

* **Table builder** (`src/automaton.cpp`). Grammars, parse trees and derivations are defined in `Grammar`. Nullable and FIRST sets, follow handles,
  LR(0) and LR(1) closures, state enumeration, merging and the filling of the tables are methods proved against inductive definitions over trees
  (`FirstSets`, `Items`, `FollowMap`, `Closure`, `States`, `Lalr`, `LalrProperties`, `ActionTable`, `StateActions`, `Conflicts`, `Entries`, `TableBuilder`,
  `AutomatonBuild`). `Entries` says what an entry holds where acceptance, a shift and reductions compete, and what is reported.
  `LookaheadBounds` says what the lookaheads are in terms of the grammar, `PackingLimits` when the items fit their packed form;
  `EndMarkers`, `EndMarkerCost` and `PackingOverflow` hold the grammars for which less is true than one would expect.
* **Driver** (`src/lua_run_compiler.cpp`). `Driver` is one step on values, `CompilerContext` the program's stack of ranges into one Lua stack.
  `ParserSoundness` and `ParserCompleteness` relate whole runs to the grammar, `EmittedScopes` states what every step keeps, and `TreeTranslation`
  that the AST is a translation of the parse tree.
* **Scope-bound maps** (`src/scope.hpp`, `src/tree.hpp`). `ScopeForest` and `InvTree` are the rewired uplinks, `ScopedMaps`, `RelationMap`, `ScopeTrees`
  and `Trees` the containers; `ScopeRuns` connects them to the scopes the driver hands out.
* **Type database** (`src/typedb.cpp`). `ReductionPaths` defines walks over reductions, `TypeSearch` the frontier of the best-first search,
  `TypeRecords` the lists of overloads, `TypeDatabases` the definition, derivation and resolving of types.

Two smaller ones follow: the indentation tokens of the lexer (`Indentation`) and the printed form of errors with its parser (`ErrorText`).

What the grammar parser checks is the precondition `Grammar.WellFormed`: the start symbol is nonterminal 1, it heads production 0 only and stands on no
right side, every symbol is resolved, no production occurs twice (`src/automaton_parser.cpp:620-704`). `MergeOk` collects what enumeration and merging
guarantee. Predicates with a `Look` guard unfold only where `Look` is mentioned; they state the same as their bodies.

Findings where the code and its description part:

* Acceptance sets the element count of the bottom state to one more than there are elements (`src/lua_run_compiler.cpp:474-475`), so the ranges tile the
  Lua stack after every step but this one (`CompilerContexts.CompilerContext.FeedLexem`).
* The parameter an error gives out is whatever follows the first colon and space in its message (`src/error.hpp:179`). The description of the scope
  hierarchy error holds one (`ErrorText.ScopeHierarchyErrorLosesParameter`); `ErrorText.ArgIsParameter` is the exact condition. `parseError` is not affected.
* Too many productions are reported with the code for too many states (`src/automaton.cpp:1284-1288`, `AutomatonBuild.CheckComplexity`).
* FIRST sets copy the end marker along with the rest (`src/automaton.cpp:757-764`), so nonterminals that cannot vanish have it
  (`EndMarkers.StrayFirst`), and it becomes a lookahead where no sentential form ends (`EndMarkers.EndMarkerOutsideFollow`).
  `LookaheadBounds.EndLookaheadsExact` and `EndReductionsExact` give the exact condition for this not to happen. Builds that are clean (no warning,
  no conflict decided) still accept exactly the derivable strings. What it costs is clean builds: the grammar `EndMarkerCost.Costly` has no conflict with
  the lookaheads of LALR(1) (`CostlyIsLalr1`), but no build of it is clean (`NeverConflictFree`), because the reduction of a nonterminal that never ends
  a sentential form meets the acceptance. If priorities decide for this reduction, without any warning, the accept entry is gone and the tables accept
  nothing at all (`AcceptLostExactly`, `CostlyAcceptsNothing`).
* The complexity boundaries do not keep follow handles within the ten bits an item has for them (`src/automaton_structs.hpp:292-311`): a
  well-formed grammar with 203 productions passes them and has too many follow sets (`PackingOverflow.BoundariesDoNotSuffice`).
  `AutomatonBuild.Build` gives the exact condition `FollowSetsFit`.
* An overload defined for an alias is put behind the overloads of the original name as well (`src/typedb.cpp:233-245`), which can then hold the same
  signature twice (`TypeDatabases.OverloadThroughAlias`). `TypeRecords.UnambiguousExactly` is the exact condition.

## Model

| member | source | states |
|---|---|---|
| `AutomatonBuild.Build` | src/automaton.cpp:1275-1407 | For every well-formed grammar, with the items of the states kept unpacked, which is what the program does where `FollowSetsFit` holds. Errors: those of the boundaries, at least 4096 states, or too many follow sets; no logic error and no missing accept state. The driver on the built tables accepts only derivable strings (reductions = post-order of a parse tree), delivers the translation of that parse tree as its AST, and fails only on an unexpected token or a bad character. Each entry is what acceptance, the shift and the reductions of all follow handles make of it: the first reduction that beats what stands there, in the order of the handles, or else what stands there; where the items call for one shift and one reduction, `Decide` on the priority of the first item shifting and that of the production fixes the entry, or a warning was raised and the shift stays. Each kind of warning, and decided conflicts, are there if and only if the items of some state say so. There is none at all if and only if no terminal calls for two actions in a state and shift priorities and reductions of one handle agree, and then every derivable string is accepted in finitely many steps. There is an accept entry if and only if no reduction displaces it. The items of all states fit their packed form if and only if `FollowSetsFit`, that is if the follow sets behind the nonterminals of reachable productions are among the first 1024 |
| `AutomatonBuild.CheckComplexity` | src/automaton.cpp:1284-1303 | Passes exactly the grammars inside the four complexity boundaries; otherwise the first one violated, in the order number of productions, number of terminals, productions one by one, decides the error |
| `AutomatonBuild.FilledTablesAreSound` | src/automaton.cpp:1332-1391 | The filled action and goto tables only shift, go to and reduce where the items of the states say so |
| `AutomatonBuild.FilledTablesAreComplete` | src/automaton.cpp:1332-1391 | Without warnings and decided conflicts they also serve every item with every lookahead it has |
| `AutomatonBuild.FillTables` | src/automaton.cpp:1332-1391 | Every state is covered: all shifts, gotos and reductions of its items are in the tables or a conflict was reported or decided |
| `AutomatonBuild.FilledExactly` | src/automaton.cpp:1338-1387 | Every entry of the filled tables is resolved as the items say, and exactly what the items say was reported |
| `Entries.ShiftsAreDecided` | src/automaton.cpp:885-959 | Where the items of a state call for one shift and for one reduction over all handles, the stronger priority has the entry, at equal priority left associativity reduces and right associativity shifts; otherwise a shift/reduce warning was raised and the shift stays |
| `Entries.EntryAfterStep` | src/automaton.cpp:1376-1387 | One more follow handle, behind all others: its reduction takes the entry exactly if nothing stands there, or an action that was there before all reductions and that it beats |
| `Entries.SettledUnique` | src/automaton.cpp:1338-1387 | What an entry is resolved to is unique |
| `TableBuilder.HandleReported` | src/automaton.cpp:885-959 | The reduction chosen for a handle reports exactly what its rivals with the same handle and the entries it meets say |
| `AutomatonBuild.CleanExactly` | src/automaton.cpp:1332-1391 | The filled tables come without warnings and decided conflicts if and only if in no state a terminal calls for two actions, no terminal is shifted with different priorities and the reductions of one follow handle have one definition |
| `AutomatonBuild.AcceptExactly` | src/automaton.cpp:1342-1387 | An accept entry is left if and only if in some accept state no reduction chosen for a follow set with the end marker beats the priority of the start production |
| `AutomatonBuild.NothingAccepted` | src/lua_run_compiler.cpp:417-500 | Without an accept entry no run of the driver accepts |
| `FirstSets.GetNullableNonterminalSet` | src/automaton.cpp:719-735 | The result is exactly the set of nonterminals that derive the empty string |
| `FirstSets.GetNonTerminalFirstSetMap` | src/automaton.cpp:737-789 | A terminal is in FIRST of a nonterminal exactly if a derivation starts with it; the end marker exactly if a nonterminal that can vanish is reached from it over elements behind vanishing ones only; the cross-check never fails |
| `EndMarkers.StrayFirst` | src/automaton.cpp:755-764 | A nonterminal that cannot vanish with the end marker in FIRST |
| `FollowSets.GetLr1FirstSet` | src/automaton.cpp:32-65 | Exactly the FIRST set, end marker included, of what stands behind a position, and whether all of it can vanish |
| `FollowSets.FollowMap.constructor` | src/automaton.cpp:85-106 | Every nonterminal in a right side has a handle of exactly the set that can follow inside the production; the sets are numbered in the order in which the positions first need them, and there are as many as the grammar has different ones |
| `FollowSets.CollectNode` | src/automaton.cpp:92-101 | The handle of one position; the logic error for a key that is there already never occurs |
| `FollowSets.HandleBelow` | src/automaton.cpp:85-106 | A handle is below a limit exactly if its set is among that many first ones of the grammar |
| `FollowSets.FollowMap.Join` | src/automaton.cpp:146-156 | The handle of the union of two contents, or the complexity error; known handles keep their content |
| `FollowSets.IntSetHandleMap.Get` | src/automaton_structs.hpp:684-697 | The one handle of a set, new or known |
| `FollowSets.IntSetHandleMap.Join` | src/automaton_structs.hpp:704-710 | The handle of the union of the contents of two handles |
| `FollowSets.IntSetHandleMap.HandlesAreSets` | src/automaton_structs.hpp:684-711 | Handles and sets are in bijection: equal contents have equal handles |
| `Items.PackingIsOrderIsomorphic` | src/automaton_structs.hpp:292-311 | Within the limits unpacking inverts packing and the packed numbers are ordered like (production, position, follow); `PackingLimits.PackableExactly` says when the items of a build are within them |
| `PackingLimits.PackableExactly` | src/automaton_structs.hpp:292-311 | The items of all LR(0), LR(1) and merged states of a build are within the limits if and only if the sets behind the nonterminals of reachable productions are among the first 1024 |
| `PackingLimits.CountDecides` | src/automaton.cpp:85-106 | They are if the grammar has at most 1024 such sets, and where all productions are reachable only then |
| `PackingOverflow.BoundariesDoNotSuffice` | src/automaton.cpp:1284-1303 | A well-formed grammar inside the complexity boundaries whose sets are not |
| `Items.CollectStartNonterminals` | src/automaton.cpp:67-81 | Adds exactly the nonterminals reachable over leading nonterminals |
| `Items.GetLr0TransitionStateClosure` | src/automaton.cpp:211-240 | The items are the least set containing the kernel and closed under expanding nonterminals behind a dot |
| `Items.ClosureUnique` | src/automaton.cpp:211-240 | This least closed set is unique |
| `Closure.GetLr1TransitionStateClosure` | src/automaton.cpp:242-333 | The cores are the LR(0) closure and the lookaheads of the added items are the least solution of the inheritance equations; each core has one follow handle; the fixpoint loop ends because a changed handle has a larger content |
| `Closure.InheritPass` | src/automaton.cpp:286-322 | One pass keeps below the least solution, only adds, and adds something or leaves a solution |
| `Closure.InheritUntilStable` | src/automaton.cpp:286-322 | The passes end with a solution |
| `States.GetGotoState` | src/automaton.cpp:651-671 | The successor state over a symbol: the closure of the items with the dot moved over it |
| `States.GetAutomatonStateAssignments` | src/automaton.cpp:673-704 | The numbered states start with the start state, are distinct, closed under successors and each reached from an earlier one; the growing worklist is worked off |
| `Lalr.Lr1StateHasLr0State` | src/automaton.cpp:368-377 | Dropping the follow handles maps every LR(1) state onto an enumerated LR(0) state with the same successors |
| `Lalr.Lr0StateIsHit` | src/automaton.cpp:368-377 | Every LR(0) state is the image of an LR(1) state |
| `Lalr.MergeTransitionStateFollow` | src/automaton.cpp:335-358 | One item per core, whose lookaheads are the union of those of all items of this core |
| `Lalr.CalculateLalr1StateMap` | src/automaton.cpp:791-804 | Each LR(0) state number maps to a state with its cores, one item per core, and exactly the lookaheads of the LR(1) states mapped onto it |
| `LalrProperties.KernelsDiffer` | src/automaton.cpp:806-825 | States with the same kernel are the same state |
| `LalrProperties.MergedGoto` | src/automaton.cpp:791-804 | In merged states, moving the dot over a symbol leads to the successor state and keeps every lookahead |
| `LalrProperties.MergedClosure` | src/automaton.cpp:791-804 | In merged states, a nonterminal behind the dot brings in its productions with every terminal that can follow there, the end marker included |
| `LalrProperties.MergedStartFollow` | src/automaton.cpp:791-804 | Items of the start production have the end marker as their only lookahead handle |
| `StateActions.CalculateLalr1TransitionItemGotoMap` | src/automaton.cpp:806-825 | Every state is found by its kernel, and no kernel occurs twice |
| `StateActions.GetShiftNodes` | src/automaton.cpp:510-569 | Exactly one entry per symbol behind a dot, with the state found by the successor kernel and, for a terminal, the priority of the first item shifting it; a priority warning exactly if two items shift a terminal with different priorities; the lookup never fails when all kernels are mapped |
| `TableFacts.ShiftTarget` | src/automaton.cpp:550-568 | The kernel-keyed lookup always succeeds and yields the LR(0) successor |
| `StateActions.GetReductionDef` | src/automaton.cpp:602-649 | The least production with a complete item for the follow handle; each kind of warning exactly if another one differs in head, length or call, or in its priority only |
| `TableFacts.CompleteItemsDiffer` | src/automaton.cpp:602-649 | Complete items of different productions in a state are different cores |
| `TableBuilder.FillShifts` | src/automaton.cpp:1354-1375 | All shifts and gotos of a state are entered, leading where the LR(0) automaton does; each shift has the priority of the first item that shifts its terminal; what is reported are differing priorities |
| `TableBuilder.FillReductions` | src/automaton.cpp:1376-1387 | All complete items of a state are entered for all terminals of their follow sets, the accept entry first; every entry then is as the handles below and the new one make of it, and exactly what they meet is reported |
| `ActionTables.ActionTable.InsertAction` | src/automaton.cpp:885-959 | The new state of tables, warnings and decided conflicts for every combination of entry, type, priority and associativity |
| `ActionTables.ConflictOutcomeIgnoresOrder` | src/automaton.cpp:885-959 | Which of two conflicting shift and reduce actions wins does not depend on the order of insertion |
| `ActionTables.InsertLater` | src/automaton.cpp:885-959 | An insertion never drops an entry without reporting or deciding a conflict |
| `LookaheadBounds.CanonicalLookaheadsKept` | src/automaton.cpp:242-333 | Every canonical LR(1) lookahead of an item for a viable prefix is a lookahead of it in the merged state the prefix leads to |
| `LookaheadBounds.LeadsToOne` | src/automaton.cpp:673-704 | A viable prefix leads to one state at most |
| `LookaheadBounds.MergedLookaheadsInFollow` | src/automaton.cpp:791-804 | Every lookahead of an item in a merged state can follow the head of its production in a sentential form; for the end marker, as far as FIRST of a rest has it or the head can stand last |
| `LookaheadBounds.LookaheadsAreFollow` | src/automaton.cpp:791-804 | Over all states together, the lookaheads of a production, the end marker included, are exactly these |
| `LookaheadBounds.EndLookaheadsExact` | src/automaton.cpp:242-333 | The end marker is a lookahead of exactly the productions whose heads can end a sentential form, if and only if FIRST of a rest in a reachable production has it only behind such nonterminals |
| `LookaheadBounds.EndReductionsExact` | src/automaton.cpp:1376-1387 | All reductions on the end marker, and so all conflicts on it, are of productions whose heads can end a sentential form, under exactly this condition on the grammar |
| `LookaheadBounds.CanonicalEnds` | src/automaton.cpp:242-333 | Canonical LR(1) has the end marker only for such productions |
| `EndMarkers.EndMarkerOutsideFollow` | src/automaton.cpp:92-101 | In every build of this grammar the end marker is a lookahead of a production whose head cannot end a sentential form |
| `EndMarkerCost.NeverConflictFree` | src/automaton.cpp:92-101 | A grammar with a conflict on the end marker in every build |
| `EndMarkerCost.CostlyIsLalr1` | src/automaton.cpp:242-333 | With the lookaheads of LALR(1) it has none |
| `EndMarkerCost.AcceptLostExactly` | src/automaton.cpp:899-959 | Its accept entry is displaced exactly if the priority of the stray reduction beats that of the start production |
| `EndMarkerCost.CostlyAcceptsNothing` | src/automaton.cpp:899-959 | Then its tables accept nothing, although a string can be derived |
| `LookaheadBounds.AcceptStateExists` | src/automaton.cpp:706-717 | Some state holds the complete start item |
| `ParserSoundness.StackSpellsItem` | src/lua_run_compiler.cpp:417-500 | The symbols of the stack end with what stands left of the dot of each item of the top state |
| `ParserSoundness.AcceptedIsDerivable` | src/lua_run_compiler.cpp:417-500 | An accepting run has shifted the frontier of a parse tree of the start production, its reductions are the post-order of the tree |
| `Grammar.TreeIsRightmostDerivation` | src/lua_run_compiler.cpp:443-496 | The post-order of a parse tree read backwards is a rightmost derivation of its frontier |
| `ParserSoundness.RunFailsOnlyOnInput` | src/lua_run_compiler.cpp:417-500 | On sound tables a run ends in failure only by an unexpected token or a bad character; corrupted automaton, missing goto and unexpected accept do not occur |
| `ParserSoundness.NoBadCharacter` | src/lua_run_compiler.cpp:603-608 | Without bad characters among the lexems none is reported |
| `ParserCompleteness.ParseTree` | src/lua_run_compiler.cpp:417-500 | On complete tables reading the frontier of a tree takes finitely many steps, moves the dot of an item over its root and reduces in post-order |
| `ParserCompleteness.ParseForest` | src/lua_run_compiler.cpp:417-500 | The same for a row of trees up to the end of a right side |
| `ParserCompleteness.DerivableIsAccepted` | src/lua_run_compiler.cpp:417-500 | Every derivable string is accepted by a finite run with the reductions in post-order |
| `CompilerContexts.CompilerContext.constructor` | src/lua_run_compiler.cpp:172-177 | The initial stack is that of the abstract driver |
| `CompilerContexts.GetNextLuaStackIndex` | src/lua_run_compiler.cpp:115-132 | One behind all elements owned by the states |
| `CompilerContexts.GetLuaStackReductionSize` | src/lua_run_compiler.cpp:134-147 | The number of elements owned by the topmost states |
| `CompilerContexts.ReductionRange` | src/lua_run_compiler.cpp:205-225 | The range found by the two loops of the structure builder spans exactly the elements of the topmost states |
| `CompilerContexts.CompilerContext.LuaReduceStruct` | src/lua_run_compiler.cpp:201-274 | The elements of the topmost states are replaced by one structure over them with the step or scope of the reduction |
| `CompilerContexts.CompilerContext.FeedLexem` | src/lua_run_compiler.cpp:417-500 | One step does what the abstract step does; a shift puts a token with name, value and line of the lexem on the Lua stack, and nothing for a keyword; which failure occurs when; every step but acceptance keeps the ranges tiling the Lua stack, acceptance never does (it counts one element too many) |
| `CompilerContexts.CompilerContext.LuaRunCompiler` | src/lua_run_compiler.cpp:601-635 | The token loop ends as the abstract run does, so the check of the stack top against the ranges never raises the logic error |
| `CompilerContexts.PopFacts` | src/lua_run_compiler.cpp:443-465 | Popping states pops exactly the elements they own, and the scope start is the counter of the first of them |
| `EmittedScopes.StepNested` | src/lua_run_compiler.cpp:443-496 | Every step keeps: counters on the stack are non-decreasing and at most the scope step, and what nodes record lies between the counters, inside of scoped nodes strictly nested |
| `EmittedScopes.RowEmitsNested` | src/lua_run_compiler.cpp:238-260 | The scopes attached to the nodes of a row are non-empty, pairwise nested or disjoint, with strictly increasing ends |
| `EmittedScopes.EmittedScopesAreHierarchical` | src/lua_run_compiler.cpp:238-260 | They meet the precondition of the scope-bound maps |
| `EmittedScopes.BelowScopedNode` | src/lua_run_compiler.cpp:238-260 | Every step below a scoped node is covered by its scope, every scope below is contained in it |
| `EmittedScopes.StepKeepsTokens` | src/lua_run_compiler.cpp:417-500 | The tokens in the AST forest after a step are those before and the lexem shifted, keywords apart |
| `EmittedScopes.FinishedRunKeepsTokens` | src/lua_run_compiler.cpp:601-635 | The tokens in the AST of an accepted run are exactly the lexems that are no keywords, in their order, with their names, values and lines |
| `EmittedScopes.FinishedRunNests` | src/lua_run_compiler.cpp:601-635 | Everything recorded in the AST of an accepted run nests between 0 and the final counter |
| `TreeTranslation.FinishedRunIsTranslated` | src/lua_run_compiler.cpp:417-635 | Every run accepted on sound tables delivers the translation of a parse tree of its lexems, whose post-order are the reductions: tokens for the leaves that are no keywords, for a production with a call one structure of what its elements left, with the line of the last token and the step counted or the scope from its first element on |
| `TreeTranslation.RowBuilt` | src/lua_run_compiler.cpp:443-465 | The topmost entries hold the translation of their trees, one behind the other |
| `TreeTranslation.ReducedBuilt` | src/lua_run_compiler.cpp:443-496 | What a reduction leaves is the translation of the node it makes |
| `Scopes.OverlapIsNested` | src/scope.hpp:51-58 | Scopes of a hierarchy that share a step are nested |
| `ScopeForest.ChainIsEnclosing` | src/scope.hpp:114-165 | The uplink chain from a scope on is exactly the defined scopes containing it, inner to outer |
| `InvTree.ScopedUpValueInvTree.GetInnerValue` | src/scope.hpp:128-137 | The value of the innermost scope covering the step |
| `InvTree.ScopedUpValueInvTree.First` | src/scope.hpp:167-177 | The innermost scope covering the step, -1 exactly if there is none |
| `InvTree.ScopedUpValueInvTree.FindUpValue` | src/scope.hpp:194-214 | The value of exactly the given scope |
| `InvTree.ScopedUpValueInvTree.InsertUpValue` | src/scope.hpp:216-270 | A known scope is reported, or the new one linked at its place among those with the same end; the hierarchy error does not occur for nested or disjoint scopes |
| `InvTree.ScopedUpValueInvTree.RightNeighborUpLink` | src/scope.hpp:272-290 | The smallest enclosing scope among those with a larger end |
| `InvTree.ScopedUpValueInvTree.LinkLeftNeighbours` | src/scope.hpp:292-320 | The link of the outermost scope inside the new one on this chain leads to the new one afterwards |
| `InvTree.ScopedUpValueInvTree.Define` | src/scope.hpp:429-453 | After inserting, every element again links to the smallest enclosing scope and every end to its innermost scope; no error occurs |
| `ScopedMaps.LookupIsInnermost` | src/scope.hpp:455-464 | The reference lookup finds the one innermost covering scope, if any scope covers the step |
| `ScopedMaps.ScopedInstance.Set` | src/scope.hpp:429-453 | The contents gain the definition, the last one of a scope counts |
| `ScopedMaps.ScopedInstance.Get` | src/scope.hpp:455-464 | The value of the scope around the step that lies inside all others around it, else the null value |
| `ScopedMaps.ScopedInstance.GetThis` | src/scope.hpp:466-475 | The value of exactly this scope, else the null value |
| `ScopedMaps.ScopedMap.Set` | src/scope.hpp:606-639 | The contents of the key gain the definition if the scope is new, the first one counts; other keys keep theirs |
| `ScopedMaps.ScopedMap.GetOrSet` | src/scope.hpp:641-673 | The earlier value of the scope, or the null value and the new definition |
| `ScopedMaps.ScopedMap.Get` | src/scope.hpp:675-685 | The value of the innermost scope of the key around the step, else the null value |
| `ScopedMaps.ScopedMap.GetDef` | src/scope.hpp:687-698 | The value of exactly this scope for the key |
| `ScopedMaps.ScopedMap.MatchRange` | src/scope.hpp:702-712 | The innermost covering definition, where the chain of the outer ones begins |
| `ScopeRuns.SetAll` | src/scope.hpp:429-453 | Any sequence of definitions with nested or disjoint scopes is taken; the contents are those of the last definition of each scope |
| `ScopeRuns.SetAllForKey` | src/scope.hpp:606-639 | The same for a keyed map with the first definition of each scope |
| `ScopeRuns.OrderDoesNotMatter` | src/scope.hpp:216-320 | Definitions of different scopes give the same contents in any order |
| `ScopeRuns.LastDefinitionCounts` | src/scope.hpp:429-453 | The value of a scope is that of its last definition |
| `ScopeRuns.FirstDefinitionCounts` | src/scope.hpp:606-639 | The value of a scope is that of its first definition |
| `ScopeRuns.RunScopesCanBeSet` | src/lua_run_compiler.cpp:238-260 | The scopes attached by an accepted run of the driver can be defined in any order |
| `RelationMap.Checked` | src/scope.hpp:863-864 | Accepts exactly tags from 1 to 32 and weights that are not negative |
| `RelationMap.ScopedRelationMap.Set` | src/scope.hpp:861-892 | The relations of the scope gain the new one unless there is one with the same right side and tag; a different value is refused, a bad tag or weight changes nothing; other left sides keep theirs |
| `RelationMap.ScopedRelationMap.Get` | src/scope.hpp:894-921 | Exactly one relation for each right side with a selected tag in a covering scope: the first one defined in the innermost such scope |
| `RelationMap.ChosenUnique` | src/scope.hpp:894-921 | The relation chosen for a right side is unique |
| `RelationMap.SelectionUnique` | src/scope.hpp:894-921 | Two results of a lookup hold the same relations |
| `ScopeTrees.GetTree` | src/scope.hpp:479-488 | The tree holds each defined scope exactly once, below the node of the innermost defined scope around it or else the root, with its value; no logic error occurs |
| `ScopeTrees.ScopeHierarchyTreeBuilder.Insert` | src/scope.hpp:365-399 | Puts exactly the scopes of a chain into the tree that were not there yet |
| `Trees.Tree.AddChild` | src/tree.hpp:179-194 | The node becomes the last child; all other children and items stay |
| `Trees.Tree.AddSibling` | src/tree.hpp:159-177 | Behind a first child the node becomes the last sibling; elsewhere the logic error is raised after the array has grown |
| `Trees.DepthFirstIterator.Skip` | src/tree.hpp:105-133 | What is left to visit from a node on is this node and what is left from the next one on |
| `Trees.Walk` | src/tree.hpp:75-133 | A whole walk visits the nodes in pre-order and reaches the end |
| `Trees.WalkIsComplete` | src/tree.hpp:105-133 | The pre-order from the root holds every node exactly once |
| `Trees.Translate` | src/tree.hpp:205-227 | The copy has the same shape with all items translated |
| `TypeDatabases.TypeDatabase.DefineReduction` | src/typedb.cpp:256-267 | Accepted exactly if handles and direction are valid, the tag is from 1 to 32, the weight is not negative, and no relation of this scope with the same types and tag has another constructor; the error names what failed; the relations of the scope gain the new one at their end unless there is one with the same types and tag; others keep theirs |
| `RelationMap.ScopedRelationMap.TagsAlwaysDiffer` | src/scope.hpp:861-892 | No two relations of a scope have the same left side, right side and tag |
| `TypeDatabases.TypeDatabase.GetReduction` | src/typedb.cpp:469-500 | Defined exactly if a visible, selected reduction leads to the type, with its weight and constructor; the ambiguity error is never raised |
| `TypeDatabases.TypeDatabase.DeriveType` | src/typedb.cpp:522-589 | Invalid handles and boundary are the only errors; a result is defined exactly if some walk within the counted length exists, and otherwise reductions, conflict path and weight are empty; it is a simple walk of the weight given, step by step, no walk with or without cycles is lighter, and the conflict path is non-empty exactly if another simple walk is as light within 2 to the power of -23 |
| `TypeDatabases.TypeDatabase.ResolveType` | src/typedb.cpp:614-686 | There is a context type exactly if a walk from one of those given leads to a type where the name is visible, and otherwise nothing is set; then a lightest such walk, the number of the first occurrence of its start, all overloads of the type record found, and a conflict type exactly if another simple walk is as light within 2 to the power of -23 |
| `TypeDatabases.TypeDatabase.DefineType` | src/typedb.cpp:209-246 | Checks on parameters and handles; the new record gets the name, or the place behind the overloads the name stands for in this scope and behind all lists with the same end, or -1 comes back exactly if one of these overloads has the parameter types; all other names keep theirs; no logic error |
| `TypeDatabases.TypeDatabase.DefineTypeAs` | src/typedb.cpp:248-254 | The name stands for the type in this scope if it did not stand for one |
| `TypeDatabases.TypeDatabase.GetType` | src/typedb.cpp:185-192 | The first overload with these parameter types of what the name stands for in exactly this scope |
| `TypeDatabases.TypeDatabase.GetTypes` | src/typedb.cpp:194-207 | All its overloads |
| `TypeRecords.FindTypeWithSignature` | src/typedb.cpp:137-183 | The first overload with the signature; otherwise 0 and the last overload |
| `TypeRecords.UnambiguousExactly` | src/typedb.cpp:209-246 | A definition keeps the signatures in a list of overloads different exactly if the list does not end where the definition is added, or has no such signature, or the name defined knows the signature already |
| `TypeRecords.DefinedNameUnambiguous` | src/typedb.cpp:209-246 | The overloads of the name defined keep different signatures |
| `TypeDatabases.OverloadThroughAlias` | src/typedb.cpp:209-254 | Two overloads of a name, an alias of the second, and an overload of the alias: the name has the same signature twice |
| `TypeSearch.ReduStack.PushNonDuplicateStart` | src/typedb.cpp:291-302 | A start is pushed exactly if its type has none yet |
| `TypeSearch.ReduStack.PushIfNew` | src/typedb.cpp:303-317 | An element is pushed exactly if the path up to its predecessor does not visit its type |
| `TypeSearch.ReduStack.CollectResult` | src/typedb.cpp:326-338 | The reductions on the path in their order |
| `TypeSearch.ReduStack.CollectResultWithRootIndex` | src/typedb.cpp:340-356 | The reductions in their order, and the number kept with the start of the path |
| `TypeSearch.ReduStack.CollectConflictPath` | src/typedb.cpp:374-386 | The types on the path in their order |
| `TypeSearch.PutFollowElements` | src/typedb.cpp:568-586 | Extends a path by exactly the reductions that lead on to a simple walk within the limit |
| `TypeSearch.Follow` | src/typedb.cpp:537-586 | One step of the search keeps: known paths are different simple walks, every simple walk is known or goes on from an open path; what open paths may still cost decreases |
| `TypeSearch.OthersAreHeavier` | src/typedb.cpp:537-543 | A simple walk not finished when the lightest open path is taken is not lighter than it |
| `TypeSearch.BestIsLightestWalk` | src/typedb.cpp:545-557 | A lightest simple walk is not heavier than any walk |
| `ReductionPaths.SimpleWalkExists` | src/typedb.cpp:303-317 | For every walk within the limit there is a simple one to the same type within the limit that is not heavier |
| `ReductionPaths.SimpleWalkLength` | src/typedb.cpp:303-317 | A simple walk has at most as many steps as there are types |
| `Indentation.Scanner.IndentCount` | src/lexer.cpp:243-253 | With nothing but blanks between the begin of the line and the position, the tab size for each tab and 1 for each other one of them; otherwise -1 |
| `Indentation.Scanner.GetIndentToken` | src/lexer.cpp:255-296 | The step of the indentation machine; the indent stack stays strictly increasing and positive, opens minus closes stays its depth |
| `Indentation.Scanner.GetEofIndentToken` | src/lexer.cpp:298-309 | Closes one open block, if there is one |
| `Indentation.Scanner.NextLexem` | src/lexer.cpp:545-627 | Which token comes at the next position and what happens to the indent stack; at the end of input all blocks have been closed |
| `Indentation.Scanner.NextConsumed` | src/lexer.cpp:545-627 | Before the first lexem of a line come the closing of all deeper blocks, an opening if no block has this indentation, and a new line, before the end of input the closing of all; at most two tokens more than there are open blocks |
| `Indentation.LineRun` | src/lexer.cpp:255-296 | Repeated calls at one position deliver exactly these tokens and leave the indentation of the line on top |
| `ErrorText.ParseError` | src/error.cpp:27-166 | The state machine computes the reference parse of the message; nothing for the empty message, a runtime error with the whole message as parameter for one that begins neither with a number nor with a place, or with what stands behind its leading colon and space |
| `ErrorText.ErrorRoundTrip` | src/error.cpp:330-382 | Parsing a printed error gives back code, parameter and, if it was printed, line and file name |
| `ErrorText.PrintedForm` | src/error.cpp:330-382 | The printed form of every error, with the message before the parameter cut at 255 characters |
| `ErrorText.PlaceReads` | src/error.cpp:27-166 | A message that begins with a place is a runtime error there, with at most 79 characters of the file name and the parameter behind it |
| `ErrorText.LargeNumberReads` | src/error.cpp:48-53 | A number larger than 32767 makes the whole message the parameter of a runtime error |
| `ErrorText.ParseInteger` | src/error.cpp:168-176 | The number read and the position behind its digits |
| `ErrorText.DecimalDigits` | src/error.cpp:338-365 | Numbers are printed in decimal digits |
| `ErrorText.ParseString` | src/error.cpp:178-186 | The quoted string and the position behind it |
| `ErrorText.SkipUntil` | src/error.cpp:193-197 | The position of the first such character, and whether there is one |
| `ErrorText.ArgIsParameter` | src/error.hpp:179 | The parameter taken from a message is the one passed, none if it is empty, exactly if the message before it holds no colon followed by a space |
| `ErrorText.ScopeHierarchyErrorLosesParameter` | src/error.cpp:256 | The description of the scope hierarchy error holds one, so its parameter is never given out as passed |

## Left out

- parseLanguageDef: its token state machine is not part of this model, only what its final checks guarantee; the check for equal productions is on head, right side and priority.
- FlatSet and TransitionState: sets of values; the order of a sorted vector is the order in which the loops take elements. Hashing, reserve sizes and memory resources have no counterpart.
- TransitionItem packing: items are kept unpacked in states. Where they do not fit (`PackingLimits.PackableExactly`), the packed numbers of the program mix up fields; the states and tables it gets then are not modelled.
- Iteration over std::unordered_map and equal_range: any order.
- SolvedConflictMap: a counter of decided conflicts; warnings keep their kind and not their text.
- Calls, call tables, language headers and all printing of the automaton: no hard property.
- Lua: calls of node functions and foreign values; the Lua stack is a sequence of AST nodes.
- CompilerContexts.GetNextLuaStackIndex: does not model the adjustment of the counters at the largest 32-bit number; indices are taken as small.
- CompilerContexts.CompilerContext.LuaRunCompiler: runs that end; the driver may reduce forever on some grammars, a run that does so has no outcome.
- Driver.Run: the fuel only bounds the steps looked at, completeness states that enough of it exists.
- Lexer: regular expressions are an abstract match.
- Indentation.Scanner.NextLexem: does not model comments, ignored lexems and a source without a final line end after a comment.
- Indentation.Scanner.NextConsumed: the same, it is about repeated calls of `NextLexem`.
- Scope steps: mathematical integers; an empty scope and scopes that overlap without nesting are outside of what the maps are for, and the result of defining one is not modelled.
- ScopedKey ordering: the next end of the same key, which is what an upper bound in the order by key and end followed by the comparison of the key gives.
- TagMask: a set of tag values in place of a 32-bit word.
- ScopeListMap and the trees of keyed maps: built from the same tree and `Trees.Translate`.
- Weights: real numbers; the rounding of floating point is not modelled, epsilon is the constant it has there.
- TypeDatabases.TypeDatabase.ResolveType: names come as numbers, 0 for an unknown one.
- Object instances, type names and type printing of the type database: they would only add easy members.
- ErrorText.ErrorRoundTrip: messages that fit the buffer of 255 characters; the texts are a parameter, those of the system's own error numbers are not part of this model. Numbers do not overflow.
- Error code table: no hard property.
