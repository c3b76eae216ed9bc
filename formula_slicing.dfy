/** The formula-slicing abstract domain (FormulaSlicingManager): a state is either
    intermediate (a path formula since the last abstraction, plus that abstraction) or
    abstracted (a formula, with the SSA map and pointer target set it was taken at).
    Intermediate states are objects; a join records on both inputs which state they
    were merged into. Path formula construction, the loop structure and the loop
    transition are parameters. */
module FormulaSlicing {
  import opened Formulas
  import opened Wrappers
  import InductiveWeakening

  type Node = nat

  /** A CFA edge as far as this domain sees it: its endpoints and its identity. */
  datatype Edge = Edge(id: nat, predecessor: Node, successor: Node)

  datatype AbstractedState = AbstractedState(abstraction: Formula, ssa: SsaMap, pts: PointerTargetSet)

  class IntermediateState {
    const pathFormula: PathFormula
    const abstraction: AbstractedState
    var mergedInto: IntermediateState?

    constructor (pathFormula: PathFormula, abstraction: AbstractedState)
      ensures this.pathFormula == pathFormula && this.abstraction == abstraction
      ensures mergedInto == null
    {
      this.pathFormula := pathFormula;
      this.abstraction := abstraction;
      mergedInto := null;
    }

    predicate IsMergedInto(other: IntermediateState)
      reads this
    {
      mergedInto == other
    }

    method SetMergedInto(other: IntermediateState)
      modifies this
      ensures mergedInto == other
    {
      mergedInto := other;
    }
  }

  datatype SlicingState =
    | Intermediate(state: IntermediateState)
    | Abstracted(abs: AbstractedState)

  /** The collaborators of the manager. */
  datatype Environment = Environment(
    makeAnd: (PathFormula, Edge) -> PathFormula,
    makeOr: (PathFormula, PathFormula) -> PathFormula,
    loopHeads: set<Node>,
    edgesInLoop: Node -> set<Edge>,
    loopTransition: Node -> PathFormula,
    ops: InductiveWeakening.FormulaOps,
    unsat: seq<Formula> -> bool)

  /** The path formula an abstracted state continues from: `true`, with the state's
      SSA map and pointer target set, and length 0. */
  function StartPath(a: AbstractedState): (r: PathFormula)
    ensures r.formula == Bool(true) && r.ssa == a.ssa && r.pts == a.pts && r.length == 0
  {
    PathFormula(Bool(true), a.ssa, a.pts, 0)
  }

  method AbstractStateToIntermediate(a: AbstractedState) returns (s: IntermediateState)
    ensures fresh(s) && s.pathFormula == StartPath(a) && s.abstraction == a && s.mergedInto == null
  {
    s := new IntermediateState(StartPath(a), a);
  }

  /** The transfer relation: one successor, which keeps the abstraction. */
  method GetAbstractSuccessors(oldState: SlicingState, edge: Edge, env: Environment)
    returns (r: seq<SlicingState>)
    ensures |r| == 1 && r[0].Intermediate? && fresh(r[0].state) && r[0].state.mergedInto == null
    ensures oldState.Abstracted? ==>
      r[0].state.pathFormula == env.makeAnd(StartPath(oldState.abs), edge) &&
      r[0].state.abstraction == oldState.abs
    ensures oldState.Intermediate? ==>
      r[0].state.pathFormula == env.makeAnd(oldState.state.pathFormula, edge) &&
      r[0].state.abstraction == oldState.state.abstraction
  {
    var iOldState: IntermediateState;
    if oldState.Abstracted? {
      iOldState := AbstractStateToIntermediate(oldState.abs);
    } else {
      iOldState := oldState.state;
    }
    var outPath := env.makeAnd(iOldState.pathFormula, edge);
    var out := new IntermediateState(outPath, iOldState.abstraction);
    r := [Intermediate(out)];
  }

  predicate ShouldPerformAbstraction(node: Node, env: Environment)
  {
    node in env.loopHeads
  }

  /** Slicing happens at a loop head reached by an edge from outside the loop. */
  predicate ShouldPerformSlicing(edge: Edge, env: Environment)
  {
    ShouldPerformAbstraction(edge.successor, env) && edge !in env.edgesInLoop(edge.successor)
  }

  /** strengthen: the state is kept away from loop heads, replaced by its inductive
      weakening at a loop head entered from outside, and dropped (bottom) at a loop
      head entered along the loop. A failed solver check of the weakening is passed on. */
  function Strengthen(state: SlicingState, edge: Edge, env: Environment)
    : (r: Result<seq<SlicingState>, InductiveWeakening.SliceError>)
    requires !state.Abstracted?
    ensures r.Success? ==> |r.value| <= 1
    ensures !ShouldPerformAbstraction(edge.successor, env) ==> r == Success([state])
    ensures r.Success? && r.value == [] <==>
      ShouldPerformAbstraction(edge.successor, env) && !ShouldPerformSlicing(edge, env)
    ensures r.Failure? ==> ShouldPerformSlicing(edge, env)
    // at a loop head entered from outside, it fails exactly when the weakening fails
    ensures ShouldPerformSlicing(edge, env) ==>
      (r.Failure? <==>
       InductiveWeakening.SliceSpec(state.state.pathFormula, env.loopTransition(edge.successor), env.ops, env.unsat).Failure?)
    ensures r.Success? && |r.value| == 1 && ShouldPerformAbstraction(edge.successor, env) ==>
      var pf := state.state.pathFormula;
      && ShouldPerformSlicing(edge, env)
      && r.value[0].Abstracted?
      && r.value[0].abs.ssa == pf.ssa && r.value[0].abs.pts == pf.pts
      && Success(r.value[0].abs.abstraction) ==
         InductiveWeakening.SliceSpec(pf, env.loopTransition(edge.successor), env.ops, env.unsat)
  {
    var successor := edge.successor;
    if ShouldPerformAbstraction(successor, env) then
      if ShouldPerformSlicing(edge, env) then
        var pf := state.state.pathFormula;
        var weakening := InductiveWeakening.SliceSpec(pf, env.loopTransition(successor), env.ops, env.unsat);
        if weakening.Failure? then Failure(weakening.error)
        else Success([Abstracted(AbstractedState(weakening.value, pf.ssa, pf.pts))])
      else Success([])
    else Success([state])
  }

  predicate SameKind(s1: SlicingState, s2: SlicingState)
  {
    s1.Abstracted? == s2.Abstracted?
  }

  /** The coverage relation: an intermediate state is covered by the state it was
      merged into when both continue from the same abstraction; an abstracted state
      only when its abstraction is syntactically `false`, which is sound: a `false`
      abstraction entails any other. */
  predicate IsLessOrEqual(s1: SlicingState, s2: SlicingState): (r: bool)
    requires SameKind(s1, s2)
    reads if s1.Intermediate? then {s1.state} else {}
    ensures r && s1.Intermediate? ==> s1.state.mergedInto == s2.state
    ensures r && s1.Abstracted? ==>
      forall atoms: nat -> bool, sels: nat -> bool ::
        Eval(s1.abs.abstraction, atoms, sels) ==> Eval(s2.abs.abstraction, atoms, sels)
  {
    if s1.Intermediate? then
      s1.state.IsMergedInto(s2.state) && s1.state.abstraction == s2.state.abstraction
    else
      s1.abs.abstraction == Bool(false)
  }

  /** joinAbstractedStates, in its own parameter naming: the disjunction of the two
      abstractions, the first state's SSA map, and the pointer target set of the merged
      path formulas. */
  function JoinAbstractedStates(newState: AbstractedState, oldState: AbstractedState, env: Environment)
    : (r: AbstractedState)
    ensures r.ssa == newState.ssa
    ensures forall atoms, sels :: Eval(r.abstraction, atoms, sels) <==>
      Eval(newState.abstraction, atoms, sels) || Eval(oldState.abstraction, atoms, sels)
  {
    var merged := env.makeOr(StartPath(newState), StartPath(oldState)).pts;
    var r := AbstractedState(Or([newState.abstraction, oldState.abstraction]), newState.ssa, merged);
    assert forall atoms, sels :: Eval(r.abstraction, atoms, sels) <==>
      Eval(r.abstraction.args[0], atoms, sels) || Eval(r.abstraction.args[1], atoms, sels);
    r
  }

  /** joinIntermediateStates, in its own parameter naming (newState, oldState). */
  method JoinIntermediateStates(newState: IntermediateState, oldState: IntermediateState, env: Environment)
    returns (r: IntermediateState)
    requires newState.abstraction == oldState.abstraction
    modifies newState, oldState
    ensures old(newState.IsMergedInto(oldState)) ==>
      r == oldState && unchanged(newState, oldState)
    ensures !old(newState.IsMergedInto(oldState)) && old(oldState.IsMergedInto(newState)) ==>
      r == newState && unchanged(newState, oldState)
    ensures (!old(newState.IsMergedInto(oldState)) && !old(oldState.IsMergedInto(newState)) &&
             oldState.pathFormula == newState.pathFormula) ==>
      r == newState && unchanged(newState, oldState)
    ensures (!old(newState.IsMergedInto(oldState)) && !old(oldState.IsMergedInto(newState)) &&
             oldState.pathFormula != newState.pathFormula) ==>
      && fresh(r) && r.mergedInto == null
      && r.pathFormula == env.makeOr(newState.pathFormula, oldState.pathFormula)
      && r.abstraction == oldState.abstraction
      && newState.mergedInto == r && oldState.mergedInto == r
    // a fresh merge covers both inputs; returning the reached state covers the new one
    ensures fresh(r) ==>
      IsLessOrEqual(Intermediate(newState), Intermediate(r)) && IsLessOrEqual(Intermediate(oldState), Intermediate(r))
    ensures r == oldState && newState != oldState ==> IsLessOrEqual(Intermediate(newState), Intermediate(r))
  {
    if newState.IsMergedInto(oldState) {
      return oldState;
    } else if oldState.IsMergedInto(newState) {
      return newState;
    }
    if oldState.pathFormula == newState.pathFormula {
      return newState;
    }
    var mergedPath := env.makeOr(newState.pathFormula, oldState.pathFormula);
    var out := new IntermediateState(mergedPath, oldState.abstraction);
    newState.SetMergedInto(out);
    oldState.SetMergedInto(out);
    return out;
  }

  /** join(newState, oldState): the helpers receive the reached state first, so their
      `newState` is the old one and the other way round. */
  method Join(newState: SlicingState, oldState: SlicingState, env: Environment) returns (r: SlicingState)
    requires SameKind(newState, oldState)
    requires newState.Intermediate? ==> newState.state.abstraction == oldState.state.abstraction
    modifies if newState.Intermediate? then {newState.state, oldState.state} else {}
    ensures oldState.Abstracted? ==>
      r == Abstracted(JoinAbstractedStates(oldState.abs, newState.abs, env)) && r.abs.ssa == oldState.abs.ssa
    ensures oldState.Intermediate? ==>
      var o, n := oldState.state, newState.state;
      var oInN, nInO := old(o.IsMergedInto(n)), old(n.IsMergedInto(o));
      && r.Intermediate?
      && (oInN ==> r == newState && unchanged(o, n))
      && (!oInN && nInO ==> r == oldState && unchanged(o, n))
      && (!oInN && !nInO && o.pathFormula == n.pathFormula ==> r == oldState && unchanged(o, n))
      && (!oInN && !nInO && o.pathFormula != n.pathFormula ==>
            && fresh(r.state) && r.state.mergedInto == null
            && r.state.pathFormula == env.makeOr(o.pathFormula, n.pathFormula)
            && r.state.abstraction == o.abstraction
            && o.mergedInto == r.state && n.mergedInto == r.state)
  {
    if oldState.Abstracted? {
      r := Abstracted(JoinAbstractedStates(oldState.abs, newState.abs, env));
    } else {
      var out := JoinIntermediateStates(oldState.state, newState.state, env);
      r := Intermediate(out);
    }
  }
}
