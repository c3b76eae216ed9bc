# CPAchecker core: refinement, CFA edits, automata and front-end tables in Dafny

This project models some self-contained parts of CPAchecker, the configurable
program-analysis tool for C programs. Each one is stated over abstract formulas and
oracles, and proved:

- **Greedy inductive weakening** (`InductiveWeakening`, `inductive_weakening.dfy`).
  - Preprocessing turns atoms with intermediate variables into `true`.
  - Every conjunct is guarded with a fresh selector.
  - A one-pass loop on a push/pop solver stack drops every conjunct whose removal keeps
    the inductiveness query unsatisfiable.
  - The selectors are then substituted with `true`/`false`.
- **The formula-slicing domain** (`FormulaSlicing`): transfer, join with its
  `mergedInto` links, coverage and strengthening at loop heads.
- **Value-analysis path interpolation** (`ValuePathInterpolation`): the interpolant
  loop, the restart offset, the precision increment filtered by the assignment
  threshold, and the refinement root.
- **Element-testing symbolic edge interpolation** (`SymbolicEdgeInterpolation`): the
  greedy forget/re-check/remember reduction under three strategies, and the early exits.
- **The solver-based precondition refiner** (`PreconditionRefiner`): prefix
  interpolants, the reverse trace walk and the global precision.
- **CFA graph edits**:
  - `Cfa`: `AbstractCFAEdge.addToCFA` with jump edges and dead code, and edge
    `equals`/`hashCode`.
  - `InverseLocation`: the backward location transfer.
  - `CpaChecker`: the splice of global declarations after the entry node, the verdict
    rule, the algorithm wrapper order and every outcome of `run`.
- **Small rule engines**:
  - `ObserverTransition`: three-valued trigger and assertion checks, follow-state
    binding and action order.
  - `ProgressPrecision`: the component-wise precision adjustment of the progress
    product automaton.
- **The symbol table of the solver view** (`SymbolEncoding`): insert-once `put`,
  `getType`'s SSA-index stripping and sign lookup, `Type` equality and hashing, and the
  tab-separated dump/read line format with its round trip.
- **C front-end tables** (`AstConverter`):
  - integer literals, the part of section 6.4.4.1 of ISO/IEC 9899:1999 the converter
    handles (suffixes, radix, 32/64-bit masking, two's complement);
  - character literals, section 6.4.4.4 of the same standard (simple, octal and hex
    escapes up to 0xFF);
  - the binary/unary operator and storage-class tables;
  - declarator splitting and `void`-parameter dropping.

Design:
- SMT solving, interpolation, simplification and the other formula-manager services are
  function-typed parameters (oracles) over the `Formula` datatype of `formulas.dfy`.
- `Option` and `Result` live in `wrappers.dfy`.
- Java exceptions and failing Java `assert`s become `Failure` values.
- Code that updates objects in place is modelled as classes:
  - the CFA as `Cfa.Graph`, with leaving and entering edge lists per node;
  - slicing states, with their `mergedInto` field;
  - the interpolators with their counters and offsets;
  - the observer transition and its expression arguments;
  - the symbol table.
- Loops become methods with invariants, proved against reference functions.

## Model

| member | source | states |
|---|---|---|
| InductiveWeakening.DropIntermediateAtoms | src/org/sosy_lab/cpachecker/cpa/formulaslicing/InductiveWeakeningManager.java:207-214 | after preprocessing, the atoms left are exactly the input's atoms without a dead (intermediate) variable |
| InductiveWeakening.DropIntermediateIdentity | src/org/sosy_lab/cpachecker/cpa/formulaslicing/InductiveWeakeningManager.java:207-214 | an atom is replaced only when it has a dead variable: without any, preprocessing returns the formula unchanged |
| InductiveWeakening.IdsExactlyOnce | src/org/sosy_lab/cpachecker/cpa/formulaslicing/InductiveWeakeningManager.java:262-266 | the fresh selector ids drawn from the counter form a range in which every id occurs exactly once |
| InductiveWeakening.AnnotateCorrect | src/org/sosy_lab/cpachecker/cpa/formulaslicing/InductiveWeakeningManager.java:247-266 | the annotation guards every operand of every conjunction with a selector; stripping the guards gives the input back; on a selector-free formula it uses exactly the fresh ids `next .. r.1-1`, each once (pairwise-distinct selectors) |
| InductiveWeakening.AnnotateAllCorrect | src/org/sosy_lab/cpachecker/cpa/formulaslicing/InductiveWeakeningManager.java:247-266 | the same for a list of operands, annotated left to right from one counter |
| InductiveWeakening.SubstitutionWeakens | src/org/sosy_lab/cpachecker/cpa/formulaslicing/InductiveWeakeningManager.java:95-103 | replacing selectors by constants in an annotated formula gives a formula implied by the unannotated one: dropping conjuncts only weakens |
| InductiveWeakening.SubstitutionKeepingAll | src/org/sosy_lab/cpachecker/cpa/formulaslicing/InductiveWeakeningManager.java:95-103 | when every selector is replaced by `false` (no conjunct dropped) the result means the same as the unannotated formula |
| InductiveWeakening.AnnotatedSliceWeakens | src/org/sosy_lab/cpachecker/cpa/formulaslicing/InductiveWeakeningManager.java:84-105 | end to end: whatever the search drops, the sliced formula follows from the preprocessed input |
| InductiveWeakening.GreedyIsSubsequence | src/org/sosy_lab/cpachecker/cpa/formulaslicing/InductiveWeakeningManager.java:150-170 | the selection the search keeps is the kept prefix followed by an order-preserving subsequence of the selector list, so the returned set is a subset of `selectionVars` |
| InductiveWeakening.GreedyKeepsUnsat | src/org/sosy_lab/cpachecker/cpa/formulaslicing/InductiveWeakeningManager.java:160-177 | a selector is only dropped when the query stays unsatisfiable without it, so the final selection is unsatisfiable when the starting one is |
| InductiveWeakening.GreedyNecessary | src/org/sosy_lab/cpachecker/cpa/formulaslicing/InductiveWeakeningManager.java:150-170 | with a monotone solver, every selector the search leaves forced is necessary: no unsatisfiable selection within the list leaves it out |
| InductiveWeakening.GreedyLocallyMinimal | src/org/sosy_lab/cpachecker/cpa/formulaslicing/InductiveWeakeningManager.java:150-170 | releasing any single selector of the final selection makes the query satisfiable |
| InductiveWeakening.CheckSelection | src/org/sosy_lab/cpachecker/cpa/formulaslicing/InductiveWeakeningManager.java:160-169 | one probe does exactly one push and one pop: the stack is back to the query, and the answer is the oracle's on query plus selection |
| InductiveWeakening.SearchStep | src/org/sosy_lab/cpachecker/cpa/formulaslicing/InductiveWeakeningManager.java:150-170 | one iteration keeps the loop invariant: the selection is the kept selectors followed by `selectionVars[i+1..]` (so index `i - noRemoved` names selector `i`), it stays unsatisfiable, and the greedy result is unchanged |
| InductiveWeakening.SearchSlice | src/org/sosy_lab/cpachecker/cpa/formulaslicing/InductiveWeakeningManager.java:150-170 | the loop computes the greedy reference selection, leaves the stack at depth one (the query) and ends on an unsatisfiable selection |
| InductiveWeakening.FormulaSlicing | src/org/sosy_lab/cpachecker/cpa/formulaslicing/InductiveWeakeningManager.java:120-181 | fails exactly when the query with every selector forced is satisfiable (the check before the loop); otherwise returns the elements of the greedy selection, re-checked on the stack |
| InductiveWeakening.BuildReplacement | src/org/sosy_lab/cpachecker/cpa/formulaslicing/InductiveWeakeningManager.java:95-103 | every selector of `selectionVars` is substituted, by `true` when it is in the returned slice and by `false` otherwise, and nothing else is |
| InductiveWeakening.SelectorVars | src/org/sosy_lab/cpachecker/cpa/formulaslicing/InductiveWeakeningManager.java:262-266 | the selector list holds one selector per drawn id, in creation order |
| InductiveWeakening.Slice | src/org/sosy_lab/cpachecker/cpa/formulaslicing/InductiveWeakeningManager.java:50-109 | slice runs preprocessing, annotation, the search and the substitution in this order and yields the specified sliced formula, or the failure of the check before the loop |
| FormulaSlicing.StartPath | src/org/sosy_lab/cpachecker/cpa/formulaslicing/FormulaSlicingManager.java:206-214 | an abstracted state continues from the path formula `true` with its own SSA map and pointer target set, and length 0 |
| FormulaSlicing.AbstractStateToIntermediate | src/org/sosy_lab/cpachecker/cpa/formulaslicing/FormulaSlicingManager.java:206-214 | the new intermediate state starts from that path formula, keeps the abstracted state as its abstraction, and is not merged |
| FormulaSlicing.GetAbstractSuccessors | src/org/sosy_lab/cpachecker/cpa/formulaslicing/FormulaSlicingManager.java:48-65 | the transfer gives exactly one fresh intermediate successor: the path formula extended by the edge, with the predecessor's abstraction kept (an abstracted predecessor is converted first) |
| FormulaSlicing.Strengthen | src/org/sosy_lab/cpachecker/cpa/formulaslicing/FormulaSlicingManager.java:89-123 | away from loop heads the state is returned unchanged; at a loop head entered along the loop the result is empty; at one entered from outside it is a single abstracted state with the state's SSA map and pointer target set, whose abstraction is the inductive weakening of the path formula; only that case can fail, and it fails exactly when the weakening fails |
| FormulaSlicing.IsLessOrEqual | src/org/sosy_lab/cpachecker/cpa/formulaslicing/FormulaSlicingManager.java:131-155 | requires both states of the same kind; a covered intermediate state was merged into the covering one, and abstracted coverage is sound: wherever the first abstraction holds, the second holds |
| FormulaSlicing.JoinAbstractedStates | src/org/sosy_lab/cpachecker/cpa/formulaslicing/FormulaSlicingManager.java:183-202 | the joined abstraction holds exactly where one of the two abstractions holds; the SSA map is the first argument's |
| FormulaSlicing.JoinIntermediateStates | src/org/sosy_lab/cpachecker/cpa/formulaslicing/FormulaSlicingManager.java:157-180 | requires equal abstractions. If the first state is merged into the second, the second is returned; if the second is merged into the first, the first is; equal path formulas give the first. Otherwise a fresh state over the disjunction is returned, and both inputs' `mergedInto` is set to it, so both are covered by the result |
| FormulaSlicing.Join | src/org/sosy_lab/cpachecker/cpa/formulaslicing/FormulaSlicingManager.java:69-79 | both arguments must be of the same kind and, for intermediate states, have the same abstraction; the helpers receive them swapped (reached state first). Abstracted states give the disjunction with the reached state's SSA map. For intermediate states: reached merged into new gives the new state, new merged into reached or equal path formulas give the reached state, and in those cases neither input changes; otherwise the result is a fresh unmerged state over the disjunction of the path formulas with the reached state's abstraction, and both inputs are merged into it |
| FormulaSlicing.IntermediateState.SetMergedInto | src/org/sosy_lab/cpachecker/cpa/formulaslicing/FormulaSlicingManager.java:178-179 | the state's merge link is set to the given state |
| ValuePathInterpolation.FalseIsSticky | src/org/sosy_lab/cpachecker/cpa/value/refiner/ValueAnalysisPathInterpolator.java:140-142 | once the running interpolant is `false`, it is `false` at every later position |
| ValuePathInterpolation.OffsetIsFirstNonTrivial | src/org/sosy_lab/cpachecker/cpa/value/refiner/ValueAnalysisPathInterpolator.java:146-148 | the offset is the first position with a non-trivial interpolant; later non-trivial positions do not change it, and it is -1 exactly when every interpolant is trivial |
| ValuePathInterpolation.NoOffsetAfterFalseStart | src/org/sosy_lab/cpachecker/cpa/value/refiner/ValueAnalysisPathInterpolator.java:140-148 | when the first interpolant is already `false` no offset is ever found |
| ValuePathInterpolation.PutNewKey | src/org/sosy_lab/cpachecker/cpa/value/refiner/ValueAnalysisPathInterpolator.java:152 | putting a new key into the ordered interpolant map appends it, keeping the earlier entries |
| ValuePathInterpolation.RecordedInPathOrder | src/org/sosy_lab/cpachecker/cpa/value/refiner/ValueAnalysisPathInterpolator.java:136-153 | on a path of distinct states, exactly one interpolant is recorded per state at positions 1..k, in path order |
| ValuePathInterpolation.PathInterpolator.PerformInterpolation | src/org/sosy_lab/cpachecker/cpa/value/refiner/ValueAnalysisPathInterpolator.java:118-159 | the offset is reset and ends as the first non-trivial position; the result is the recorded interpolant map; it fails exactly when the interpolant at the last trace position is not `false` (the assertion at :154) |
| ValuePathInterpolation.PathInterpolator.AddToPrecisionIncrement | src/org/sosy_lab/cpachecker/cpa/value/refiner/ValueAnalysisPathInterpolator.java:185-193 | the increment at the node grows by the interpolant's memory locations that are not over the hard threshold (all of them without an assignment-counting state), and nothing else changes |
| ValuePathInterpolation.Kept | src/org/sosy_lab/cpachecker/cpa/value/refiner/ValueAnalysisPathInterpolator.java:185-193 | the kept locations are among the interpolant's, are all of them without an assignment state, and avoid every location over the threshold |
| ValuePathInterpolation.PathInterpolator.DeterminePrecisionIncrement | src/org/sosy_lab/cpachecker/cpa/value/refiner/ValueAnalysisPathInterpolator.java:161-183 | interpolates from the initial (`true`) interpolant and adds every recorded interpolant at its state's location, in order; fails exactly when interpolation fails |
| ValuePathInterpolation.IncrementContents | src/org/sosy_lab/cpachecker/cpa/value/refiner/ValueAnalysisPathInterpolator.java:161-193 | the increment at a location holds exactly the kept locations of the interpolants recorded for states at that location |
| ValuePathInterpolation.PathInterpolator.DetermineRefinementRoot | src/org/sosy_lab/cpachecker/cpa/value/refiner/ValueAnalysisPathInterpolator.java:204-220 | refinement fails exactly when no offset was found; otherwise the root is the path element at the offset under lazy abstraction and the second path element without it |
| SymbolicEdgeInterpolation.Suffix | src/org/sosy_lab/cpachecker/cpa/value/symbolic/refiner/ElementTestingSymbolicEdgeInterpolator.java:226-229 | the suffix is the rest of the path from position `locationInPath + 1` |
| SymbolicEdgeInterpolation.EdgeInterpolator.IsPathFeasible | src/org/sosy_lab/cpachecker/cpa/value/symbolic/refiner/ElementTestingSymbolicEdgeInterpolator.java:231-237 | each feasibility check asks the checker once and counts one interpolation query |
| SymbolicEdgeInterpolation.EdgeInterpolator.RemoveAllConstraints | src/org/sosy_lab/cpachecker/cpa/value/symbolic/refiner/ElementTestingSymbolicEdgeInterpolator.java:179-184 | a new state with the same values and definite assignments and no constraints |
| SymbolicEdgeInterpolation.EdgeInterpolator.ReduceConstraints | src/org/sosy_lab/cpachecker/cpa/value/symbolic/refiner/ElementTestingSymbolicEdgeInterpolator.java:186-203 | the loop visits every tracked constraint once, in some order, and its result is the `Reduce` fold over that order: each constraint is forgotten and remembered again exactly when the suffix became feasible without it; one check per constraint |
| SymbolicEdgeInterpolation.EdgeInterpolator.ReduceValues | src/org/sosy_lab/cpachecker/cpa/value/symbolic/refiner/ElementTestingSymbolicEdgeInterpolator.java:205-224 | the loop visits every tracked memory location once and its result is the `Reduce` fold: the value is forgotten and put back exactly when the suffix became feasible without it; one check per location |
| SymbolicEdgeInterpolation.EdgeInterpolator.ReduceToNecessaryState | src/org/sosy_lab/cpachecker/cpa/value/symbolic/refiner/ElementTestingSymbolicEdgeInterpolator.java:140-177 | with constraint avoidance the constraint-free state is kept when it already makes the suffix infeasible; then the result is `Necessary`: values after constraints (constraints skipped if they were avoided), constraints after values, or values only, which keeps the starting constraints. The result is part of the successor and keeps an infeasible suffix infeasible, and the number of checks is exact |
| SymbolicEdgeInterpolation.ReduceWithin | src/org/sosy_lab/cpachecker/cpa/value/symbolic/refiner/ElementTestingSymbolicEdgeInterpolator.java:186-224 | a reduction loop only forgets: its result is part of its input and keeps every fact it does not visit |
| SymbolicEdgeInterpolation.ReduceKeepsInfeasible | src/org/sosy_lab/cpachecker/cpa/value/symbolic/refiner/ElementTestingSymbolicEdgeInterpolator.java:186-224 | a reduction loop never makes an infeasible suffix feasible: a fact is dropped only when the suffix stays infeasible without it |
| SymbolicEdgeInterpolation.ReduceMinimal | src/org/sosy_lab/cpachecker/cpa/value/symbolic/refiner/ElementTestingSymbolicEdgeInterpolator.java:186-224 | with a monotone feasibility check, every visited fact the loop keeps is necessary: forgetting it from the result makes the suffix feasible |
| SymbolicEdgeInterpolation.NecessarySound | src/org/sosy_lab/cpachecker/cpa/value/symbolic/refiner/ElementTestingSymbolicEdgeInterpolator.java:158-176 | each strategy's result is part of the state it starts from and keeps an infeasible suffix infeasible; values only keeps every constraint |
| SymbolicEdgeInterpolation.NecessaryMinimal | src/org/sosy_lab/cpachecker/cpa/value/symbolic/refiner/ElementTestingSymbolicEdgeInterpolator.java:158-176 | with a monotone feasibility check, every fact of a strategy's result that either loop visited is necessary for the suffix's infeasibility |
| SymbolicEdgeInterpolation.EdgeInterpolator.DeriveInterpolant | src/org/sosy_lab/cpachecker/cpa/value/symbolic/refiner/ElementTestingSymbolicEdgeInterpolator.java:103-138 | with the counter reset, no successor gives the `false` interpolant, an unchanged successor gives the input interpolant, a suffix infeasible from the initial state gives `true`, and otherwise the interpolant is created from `Necessary` applied to the successor under the configured strategy, after exactly one check plus those of the reduction |
| SymbolicEdgeInterpolation.CompositeState.ForgetValue | src/org/sosy_lab/cpachecker/cpa/value/symbolic/refiner/ElementTestingSymbolicEdgeInterpolator.java:210-222 | forgetting a location removes exactly its value and hands it back so it can be remembered |
| PreconditionRefiner.GetInterpolants | src/org/sosy_lab/cpachecker/util/precondition/segkro/RefineSolverBasedItp.java:107-130 | empty when the pushed formulas are satisfiable together; otherwise exactly the interpolants of the proper non-empty prefixes, without repetition, so at most n-1 of them |
| PreconditionRefiner.AlterPf | src/org/sosy_lab/cpachecker/util/precondition/segkro/RefineSolverBasedItp.java:258-265 | a path formula over the given formula, with the SSA map of the given path formula, no pointer targets and length 1 |
| PreconditionRefiner.Pre | src/org/sosy_lab/cpachecker/util/precondition/segkro/RefineSolverBasedItp.java:147-161 | the instantiated precondition is the path formula up to the stop node with dead variables eliminated, under its SSA map |
| PreconditionRefiner.Interpolate | src/org/sosy_lab/cpachecker/util/precondition/segkro/RefineSolverBasedItp.java:132-145 | pushing the negated first condition and the trace formula yields the single prefix interpolant when they are unsatisfiable and none otherwise, so the result is the generalised condition of the reference definition |
| PreconditionRefiner.EnrichedPreconditions | src/org/sosy_lab/cpachecker/util/precondition/segkro/RefineSolverBasedItp.java:274-284 | each enriched precondition keeps the SSA map of its instantiated precondition and has length 1 |
| PreconditionRefiner.PutAllValues | src/org/sosy_lab/cpachecker/util/precondition/segkro/RefineSolverBasedItp.java:235 | putting values under a key of the multimap builder appends them to the values under that key, keeping the key grouping |
| PreconditionRefiner.PutAllGet | src/org/sosy_lab/cpachecker/util/precondition/segkro/RefineSolverBasedItp.java:235 | after putting values under one key, that key's values grow by them and every other key's values are unchanged |
| PreconditionRefiner.WalkKeys | src/org/sosy_lab/cpachecker/util/precondition/segkro/RefineSolverBasedItp.java:183-235 | every location that gets predicates is the successor of a non-blank edge at or after the first edge leaving the entry location (in reverse order): earlier edges are skipped, blank edges contribute nothing, literals are keyed by the successor |
| PreconditionRefiner.WalkWithoutEntry | src/org/sosy_lab/cpachecker/util/precondition/segkro/RefineSolverBasedItp.java:183-193 | a trace that never leaves the entry location yields no predicates |
| PreconditionRefiner.WalkStopsAtTrue | src/org/sosy_lab/cpachecker/util/precondition/segkro/RefineSolverBasedItp.java:212-214 | the walk stops at the first processed edge whose successor precondition is `true`, whatever follows |
| PreconditionRefiner.PredsFromTrace | src/org/sosy_lab/cpachecker/util/precondition/segkro/RefineSolverBasedItp.java:163-248 | the loop over the edges in reverse order builds exactly the multimap of the reference walk |
| PreconditionRefiner.PredicatesAsGlobalPrecision | src/org/sosy_lab/cpachecker/util/precondition/segkro/RefineSolverBasedItp.java:306-331 | the location-instance, local and function maps are empty; the global list holds every local predicate followed by every global predicate |
| PreconditionRefiner.Refine | src/org/sosy_lab/cpachecker/util/precondition/segkro/RefineSolverBasedItp.java:267-304 | both preconditions are enriched by interpolation, the violation one first; the precision's global list is exactly the predicates of both walks' local multimap (violation trace first) followed by the literals of both enriched preconditions, which as a multiset are all predicates of both walks plus those literals; the other maps are empty |
| PreconditionRefiner.CombinedPredicates | src/org/sosy_lab/cpachecker/util/precondition/segkro/RefineSolverBasedItp.java:297-303 | merging the two walks' multimaps loses and invents no predicate |
| PreconditionRefiner.MakePredicatesMultiset | src/org/sosy_lab/cpachecker/util/precondition/segkro/RefineSolverBasedItp.java:316-324 | predicates made from the same formulas, in any order, are the same predicates |
| Cfa.EdgeEqualsIsEquivalence | src/cfa/objectmodel/AbstractCFAEdge.java:129-142 | edge equality (same predecessor and successor, whatever the statement or line) is an equivalence |
| Cfa.HashConsistentWithEquals | src/cfa/objectmodel/AbstractCFAEdge.java:125-127 | equal edges have equal hash codes in 32-bit int arithmetic |
| Cfa.ToInt32 | src/cfa/objectmodel/AbstractCFAEdge.java:125-127 | Java int arithmetic: the result is in the signed 32-bit range and congruent to the exact value modulo 2^32 |
| Cfa.RemoveFirstLength | src/cfa/objectmodel/AbstractCFAEdge.java:84-85 | `List.remove` of an element of the list shortens it by exactly one |
| Cfa.CountAfterRemove | src/cfa/objectmodel/AbstractCFAEdge.java:84-85 | removing an element from a leaving list lowers the count of edges to its successor by one |
| Cfa.RemoveFirstEntering | src/cfa/objectmodel/AbstractCFAEdge.java:84-85 | in an entering list, removing an edge equal to one from `p` removes the first edge from `p` |
| Cfa.Graph.NewEdge | src/cfa/objectmodel/AbstractCFAEdge.java:44-56 | a new edge object between two existing nodes with the given statement and line; the graph's lists are untouched |
| Cfa.Graph.AddToCfa | src/cfa/objectmodel/AbstractCFAEdge.java:58-92 | with a jump edge already leaving the predecessor nothing changes; a non-jump edge is appended to the predecessor's leaving and the successor's entering list and nothing else changes; a jump edge first detaches every edge leaving the predecessor from both ends and is then the only leaving edge; the graph stays valid |
| Cfa.Graph.RemoveAllLeaving | src/cfa/objectmodel/AbstractCFAEdge.java:74-87 | the reverse index loop empties the leaving list and removes from each entering list as many edges from the predecessor as led there |
| Cfa.DetachAll | src/cfa/objectmodel/AbstractCFAEdge.java:74-87 | the entering lists after detaching, in terms of the lists before it: per node, the edges from `p` that led there are removed |
| Cfa.DetachStep | src/cfa/objectmodel/AbstractCFAEdge.java:84-85 | one iteration of the detaching loop keeps its invariant |
| Cfa.Graph.AppendEdge | src/cfa/objectmodel/AbstractCFAEdge.java:90-91 | the edge is appended to both lists and nothing else changes |
| Cfa.EnteringListsShrink | src/cfa/objectmodel/AbstractCFAEdge.java:84-85 | entering lists that only lose edges stay consistent with the graph |
| InverseLocation.GetAbstractSuccessor | src/cpa/location/InverseLocationTransferRelation.java:34-55 | the predecessor of the edge when it is one of the node's entering edges; otherwise the predecessor of the entering summary edge if there is one; otherwise bottom |
| InverseLocation.GetAllAbstractSuccessors | src/cpa/location/InverseLocationTransferRelation.java:57-71 | exactly one element per entering edge, in list order, each that edge's predecessor; the summary edge is excluded |
| InverseLocation.SuccessorIsAmongAll | src/cpa/location/InverseLocationTransferRelation.java:34-71 | the successor for an entering edge is among all successors and is a node of the CFA |
| CpaChecker.InsertGlobalDeclarations | src/cpa/common/CPAchecker.java:391-447 | an empty list leaves every field of the CFA unchanged; otherwise, for an entry with exactly one blank non-jump leaving edge and no summary edge, a head node and one node per declaration are chained by declaration edges in input order, the old first edge is removed from both ends, and blank edges link the entry to the head ("INIT GLOBAL VARS") and the last node to the old second node with the old statement and line; the head is on line 0 and each declaration node on its declaration's starting line, all new nodes carry the entry's function name, the older nodes keep their line numbers and function names, and both summary maps are unchanged |
| CpaChecker.AppendDeclarations | src/cpa/common/CPAchecker.java:398-426 | the declaration loop adds one node and one declaration edge per declaration, in order, each the only edge leaving its first node and entering its second; node `i + 1` is on the starting line of declaration `i` and carries the head's function name; the older nodes keep their edge lists, line numbers and function names, and both summary maps are unchanged |
| CpaChecker.AppendStep | src/cpa/common/CPAchecker.java:417-425 | one more declaration edge extends the chain and keeps the older lists |
| CpaChecker.SpliceFinish | src/cpa/common/CPAchecker.java:435-444 | the two blank edges complete the splice as specified |
| CpaChecker.DetachFirstEdge | src/cpa/common/CPAchecker.java:431-436 | the entry's single leaving edge is removed from the entry and from its successor; node count, edge count, line numbers, function names and both summary maps are unchanged |
| CpaChecker.VerdictOf | src/cpa/common/CPAchecker.java:461-467 | UNSAFE exactly when some reached element is an error, SAFE otherwise, never UNKNOWN |
| CpaChecker.CreateAlgorithm | src/cpa/common/CPAchecker.java:482-504 | the CPA algorithm wrapped by CEGAR, then assumption collection, then CBMC, each exactly when its option is on |
| CpaChecker.RequestedLayers | src/cpa/common/CPAchecker.java:486-498 | the requested wrappers appear at most once each, CEGAR innermost and CBMC outermost, each present exactly when its option is on |
| CpaChecker.LayersDetermineAlgorithm | src/cpa/common/CPAchecker.java:482-504 | two algorithms over the base CPA algorithm with the same layers are the same, so the options determine the algorithm `createAlgorithm` builds |
| CpaChecker.Run | src/cpa/common/CPAchecker.java:186-251 | no translation unit, no CFA, an exception while building the CFA, the CPA or the algorithm, or a requested stop give UNKNOWN with no reached set. Otherwise the algorithm the options request runs on the CFA: when it returns normally the verdict is UNSAFE exactly when a reached element is an error and SAFE otherwise; when it throws the verdict is UNKNOWN; either way the reached set is returned |
| ProgressPrecision.Prec | src/org/sosy_lab/cpachecker/cpa/guardededgeautomaton/progress/product/ProgressProductAutomatonPrecisionAdjustment.java:47-87 | component `i` is adjusted with precision component `i`, in order, giving as many components as the input; the action is BREAK exactly when the element is a target or some component answers BREAK; too few precision components make `get` fail |
| ObserverTransition.FirstNamed | src/org/sosy_lab/cpachecker/cpa/observeranalysis/ObserverTransition.java:80-85 | the position of the first state with the name, or none exactly when no state has it |
| ObserverTransition.RunAllAppend | src/org/sosy_lab/cpachecker/cpa/observeranalysis/ObserverTransition.java:131-133 | running two action lists in turn is running their concatenation: actions take effect strictly in list order |
| ObserverTransition.Transition.WithFollowState | src/org/sosy_lab/cpachecker/cpa/observeranalysis/ObserverTransition.java:65-73 | the follow state is set and the follow-state name is that state's name |
| ObserverTransition.Transition.SetFollowState | src/org/sosy_lab/cpachecker/cpa/observeranalysis/ObserverTransition.java:78-88 | a follow state already set is kept; otherwise the first state with the follow-state name is bound, and the automaton is invalid exactly when there is none |
| ObserverTransition.Transition.Match | src/org/sosy_lab/cpachecker/cpa/observeranalysis/ObserverTransition.java:100-111 | TRUE exactly when every trigger is TRUE (so with no trigger); otherwise the value of the first non-TRUE trigger, all earlier ones being TRUE |
| ObserverTransition.Transition.AssertionsHold | src/org/sosy_lab/cpachecker/cpa/observeranalysis/ObserverTransition.java:117-125 | the first MAYBE or FALSE assertion value, TRUE when every assertion is TRUE |
| ObserverTransition.Transition.ExecuteActions | src/org/sosy_lab/cpachecker/cpa/observeranalysis/ObserverTransition.java:130-138 | the actions run in list order on the arguments; a non-empty log message is logged once and then cleared |
| SymbolEncoding.Wrap32 | src/org/sosy_lab/cpachecker/util/predicates/interfaces/view/SymbolEncoding.java:273-275 | Java int overflow: the result is in the signed 32-bit range and congruent to the exact value modulo 2^32 |
| SymbolEncoding.StripIndexIsPrefix | src/org/sosy_lab/cpachecker/util/predicates/interfaces/view/SymbolEncoding.java:108 | the declaration name is the part of the symbol before the first `@`; it fails only for a non-empty symbol made of `@` only |
| SymbolEncoding.FirstFieldIsPrefix | src/org/sosy_lab/cpachecker/util/predicates/interfaces/view/SymbolEncoding.java:108 | the first field of a split is the part before the first separator |
| SymbolEncoding.AllFieldsEmpty | src/org/sosy_lab/cpachecker/util/predicates/interfaces/view/SymbolEncoding.java:108 | all fields are empty exactly when the string consists of separators only |
| SymbolEncoding.SplitJoin | src/org/sosy_lab/cpachecker/util/predicates/interfaces/view/SymbolEncoding.java:196-220 | splitting separator-free fields joined with the separator gives them back |
| SymbolEncoding.DumpLineSplits | src/org/sosy_lab/cpachecker/util/predicates/interfaces/view/SymbolEncoding.java:196-220 | a dumped line (symbol, TAB, return type, then TAB and each parameter type) splits at tabs into exactly those fields |
| SymbolEncoding.ReadDumpedLine | src/org/sosy_lab/cpachecker/util/predicates/interfaces/view/SymbolEncoding.java:196-220 | a dumped line of a tab-free symbol reads back as the symbol and its type, signed, when the type names read back as their types |
| SymbolEncoding.ReadDump | src/org/sosy_lab/cpachecker/util/predicates/interfaces/view/SymbolEncoding.java:191-225 | reading a whole dump rebuilds the table, with every sign reset to the default |
| SymbolEncoding.NoSimpleDeclarationKeepsSign | src/org/sosy_lab/cpachecker/util/predicates/interfaces/view/SymbolEncoding.java:109-122 | without a simple declaration of the name the sign flag stays as it was |
| SymbolEncoding.LastSimpleDeclarationDecides | src/org/sosy_lab/cpachecker/util/predicates/interfaces/view/SymbolEncoding.java:109-122 | the last simple declaration of the name decides the sign flag |
| SymbolEncoding.SymbolEncoding.Put | src/org/sosy_lab/cpachecker/util/predicates/interfaces/view/SymbolEncoding.java:83-93 | a new symbol is entered; a known symbol keeps its stored type, and the assertion fails when the new type is not equal to it; afterwards the symbol is contained |
| SymbolEncoding.SymbolEncoding.GetType | src/org/sosy_lab/cpachecker/util/predicates/interfaces/view/SymbolEncoding.java:99-155 | an absent symbol fails; a `.def_` helper symbol's type is returned untouched; otherwise the SSA index is stripped, and the sign comes from the last simple declaration of the name, else from the member lookup, else stays; the stored type object is the one updated |
| SymbolEncoding.ReadSymbolEncoding | src/org/sosy_lab/cpachecker/util/predicates/interfaces/view/SymbolEncoding.java:208-225 | the line loop reads exactly the table of the reference fold over the lines, and fails with the error of the first bad line or conflicting re-put |
| AstConverter.ToChar | src/org/sosy_lab/cpachecker/cfa/parser/eclipse/ASTConverter.java:270 | the `(char)` cast keeps the value modulo 2^16, in 0..0xFFFF |
| AstConverter.SimpleEscapeInverse | src/org/sosy_lab/cpachecker/cfa/parser/eclipse/ASTConverter.java:288-298 | the simple-escape table is a bijection between the letters b t n f r " ' \ and their codes |
| AstConverter.CharacterLiteralBound | src/org/sosy_lab/cpachecker/cfa/parser/eclipse/ASTConverter.java:249-298 | a parsed character literal is either its single quoted character or an escape value in 0..0xFF |
| AstConverter.OctalEscapeRoundTrip | src/org/sosy_lab/cpachecker/cfa/parser/eclipse/ASTConverter.java:276-284 | every code up to 0xFF written as a three-digit octal escape parses back to itself |
| AstConverter.HexEscapeRoundTrip | src/org/sosy_lab/cpachecker/cfa/parser/eclipse/ASTConverter.java:265-274 | every code up to 0xFF written as a two-digit hex escape parses back to itself |
| AstConverter.SimpleEscapeRoundTrip | src/org/sosy_lab/cpachecker/cfa/parser/eclipse/ASTConverter.java:286-298 | every code with a simple escape, written with it, parses back to itself |
| AstConverter.ToWidth | src/org/sosy_lab/cpachecker/cfa/parser/eclipse/ASTConverter.java:345-358 | masking and two's complement give a value in the signed or unsigned range of the width, congruent to the magnitude modulo 2^bits, and equal to it when it already fits |
| AstConverter.IntegerLiteralRange | src/org/sosy_lab/cpachecker/cfa/parser/eclipse/ASTConverter.java:305-361 | a parsed integer literal has width 32 or 64, lies in its type's range, and is congruent to the written magnitude modulo 2^bits |
| AstConverter.NoNumberAfterNonDigit | src/org/sosy_lab/cpachecker/cfa/parser/eclipse/ASTConverter.java:327-341 | a string ending in a character that is no digit of the radix is no number |
| AstConverter.LongThenUnsignedRejected | src/org/sosy_lab/cpachecker/cfa/parser/eclipse/ASTConverter.java:307-341 | suffixes are stripped in the order L, L, U only, so a literal ending in `LU` is an invalid number |
| AstConverter.DecimalStringValue | src/org/sosy_lab/cpachecker/cfa/parser/eclipse/ASTConverter.java:327-341 | the decimal writing of `v` is made of decimal digits, starts with `0` only for zero, and reads back as `v` |
| AstConverter.DecimalMagnitude | src/org/sosy_lab/cpachecker/cfa/parser/eclipse/ASTConverter.java:327-341 | the radix choice reads the decimal writing of `v` as `v` (octal for `0` alone) |
| AstConverter.StripSuffixesAfterDigit | src/org/sosy_lab/cpachecker/cfa/parser/eclipse/ASTConverter.java:307-324 | digits followed by one of the accepted suffixes give the digits back, with 64 bits exactly for two L's and unsigned exactly for U |
| AstConverter.DecimalLiteralRoundTrip | src/org/sosy_lab/cpachecker/cfa/parser/eclipse/ASTConverter.java:305-361 | every value in the range its suffix selects, written in decimal with that suffix, parses back as itself |
| AstConverter.BinarySourceConverts | src/org/sosy_lab/cpachecker/cfa/parser/eclipse/ASTConverter.java:131-194 | every binary operator of the converted tree is the conversion of its CDT operator |
| AstConverter.BinaryConvertedHasSource | src/org/sosy_lab/cpachecker/cfa/parser/eclipse/ASTConverter.java:131-194 | every converted CDT operator is the source of its conversion |
| AstConverter.BinaryOperatorTable | src/org/sosy_lab/cpachecker/cfa/parser/eclipse/ASTConverter.java:131-194 | the binary table is a bijection between the known CDT operators and the converted operators, and exactly the unknown operators are rejected |
| AstConverter.UnaryOperatorTable | src/org/sosy_lab/cpachecker/cfa/parser/eclipse/ASTConverter.java:371-398 | the unary table is a bijection between the known CDT operators and the converted ones; parentheses and unknown operators are rejected |
| AstConverter.UnaryExpressionOperatorCases | src/org/sosy_lab/cpachecker/cfa/parser/eclipse/ASTConverter.java:363-369 | parentheses yield the operand itself, every other known operator goes through the table, and unknown ones are rejected |
| AstConverter.StorageClassTable | src/org/sosy_lab/cpachecker/cfa/parser/eclipse/ASTConverter.java:630-649 | unspecified, `auto` and `register` give AUTO; `static`, `extern` and `typedef` map one to one; every other storage class is rejected |
| AstConverter.ConvertSimpleDeclaration | src/org/sosy_lab/cpachecker/cfa/parser/eclipse/ASTConverter.java:456-485 | a storage-class error is passed on; zero or one declarator gives one declaration with the original text; `n` declarators give `n` declarations in order, each with the text `specifier + " " + declarator + ";"` |
| AstConverter.ConvertParameters | src/org/sosy_lab/cpachecker/cfa/parser/eclipse/ASTConverter.java:751-777 | the parameter loop computes the reference conversion of the parameter list |
| AstConverter.ParameterFailureSticks | src/org/sosy_lab/cpachecker/cfa/parser/eclipse/ASTConverter.java:751-763 | once a parameter fails, the conversion of every longer prefix fails the same way |
| AstConverter.ConvertedParametersAccepted | src/org/sosy_lab/cpachecker/cfa/parser/eclipse/ASTConverter.java:751-777 | the conversion succeeds exactly when every parameter has storage class AUTO and no initializer and a `void` stands alone, and then yields the non-`void` parameters in order |
| AstConverter.SoleVoidDropped | src/org/sosy_lab/cpachecker/cfa/parser/eclipse/ASTConverter.java:755-760 | `f(void)` declares no parameter |
| AstConverter.VoidAmongSeveralRejected | src/org/sosy_lab/cpachecker/cfa/parser/eclipse/ASTConverter.java:755-760 | a `void` among several parameters fails the assertion |

## Left out

- SMT semantics (satisfiability, interpolation, simplification, NNF, instantiation, dead-variable detection, `makeAnd`/`makeOr` of path formulas) are oracle parameters over an abstract formula type, because their implementations are foreign.
- The visitor cache of the formula visitors in InductiveWeakeningManager.java is not modelled: the base visitor is not part of this model. The traversal is taken to be bottom-up, left to right.
- InductiveWeakening.FormulaSlicing: the selector list is in creation order. The source keeps it in a `HashSet`, whose order is unspecified.
- InductiveWeakening.GreedyNecessary and GreedyLocallyMinimal assume a monotone solver oracle; the source assumes nothing about the oracle.
- SymbolicEdgeInterpolation.ReduceMinimal and NecessaryMinimal assume a monotone feasibility check (forgetting facts never makes a feasible suffix infeasible); the source assumes nothing about the checker.
- The loop-transition finder, feasibility checkers, strongest post, error-path classifier, edge interpolator, interpolation with candidates and precondition helper are parameters, because none of them is part of this model.
- FormulaSlicing.IntermediateState.IsMergedInto compares references (Dafny object identity), as the source does.
- ValuePathInterpolation.PathInterpolator.PerformInterpolation: the Java `assert` at :154 is modelled as a `Failure`, as if assertions were enabled. The same holds for every other Java `assert` turned into `AssertionFailed`.
- ValuePathInterpolation: an interpolant is `false` or a set of memory locations; the values it assigns are not modelled, because the increment only uses the locations.
- SymbolicEdgeInterpolation.EdgeInterpolator.RemoveAllConstraints builds a new state; the sharing of the value state between the old and new objects is not modelled, because the successor is not used afterwards.
- SymbolicEdgeInterpolation: the iteration order over constraint and location sets is unspecified (hash sets), so it is left open.
- SymbolicEdgeInterpolation.EdgeInterpolator.DeriveInterpolant: the reconstruction of a state from an interpolant is an oracle parameter.
- PreconditionRefiner.Pre: only the instantiated form of `pre` is modelled, because that is the only one the refiner uses.
- PreconditionRefiner: the multimap builders are association lists grouped by key, in key insertion order, as `ImmutableMultimap` iterates them.
- PreconditionRefiner.PredsFromTrace and Cfa.Graph.NewEdge: null checks are not modelled, because Dafny values are never null.
- The CFA is an arena: nodes are numbers and edges are values with an identity number. The CFA-label-node test and the dead-code log messages of `addToCFA` are not modelled, because they only decide what is logged.
- FormulaSlicing.Strengthen, FormulaSlicing.IsLessOrEqual, FormulaSlicing.JoinIntermediateStates and FormulaSlicing.Join: the `Preconditions.checkState` calls at FormulaSlicingManager.java:93, :134, :160-161 and :71 are preconditions; the `IllegalStateException` they throw on a violation is not modelled.
- CpaChecker.InsertGlobalDeclarations: the Java `assert`s at CPAchecker.java:429-432 on the entry node are preconditions, not failures.
- Cfa.Graph.AddToCfa: the Java `assert` at AbstractCFAEdge.java:63 (a leaving jump edge is the only leaving edge) is not checked.
- CpaChecker.Run: parsing, CFA construction, CPA creation, the exception thrown while constructing the algorithm wrappers, and the algorithm run are stage parameters. Exceptions other than the four caught kinds are not modelled. Logging, statistics and the shutdown flag are left out, because they are I/O and cross-thread cancellation; a requested stop is an input.
- CpaChecker: the CFA simplifier, topological sort, DOT export and configuration injection are left out, because they are I/O or foreign.
- ProgressPrecision.Prec: the component precision adjustment is an oracle parameter, because it is not part of this model.
- ObserverTransition: the evaluation of trigger, assertion and action expressions is a parameter. `writeTransitionToDotFile`, `getFollowState` and `toString` are left out, because they are output or plain getters.
- SymbolEncoding: file I/O in `dump` and `readSymbolEncoding` is left out; the lines are a sequence. The dump's key order (a hash map's) is a parameter.
- SymbolEncoding: `FormulaType.toString`/`fromString` are parameters, because they are foreign.
- SymbolEncoding.SymbolEncoding.GetType: the walk through CFA types for `->` member symbols is a parameter (`memberSign`). The declaration list of `withCFA` is given as a sequence; the CFA walk that collects it is not modelled.
- SymbolEncoding: the `put(symbol, length)` and three-argument `put` overloads are left out; they only build the type before the same insertion.
- AstConverter: the conversion of CDT expressions, declarators and types is left out, including binding resolution, file locations and the raw-signature checks at :236/:240, because it walks foreign Eclipse CDT nodes. `createDeclaration` keeps the declarator unconverted.
- AstConverter: `Character.isDigit`, `Character.digit` and `BigInteger` are modelled for ASCII digits only, so an escape with a non-ASCII digit (which Java sends to the octal branch) is reported as an unknown character literal.
- AstConverter.CharacterLiteral: characters outside the Basic Multilingual Plane are not modelled.
- AstConverter: an unknown declaration specifier kind is left out, because it is decided by the CDT node class.
