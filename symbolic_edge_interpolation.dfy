/** Edge interpolation for symbolic value analysis (ElementTestingSymbolicEdgeInterpolator):
    the successor of the input interpolant's state is reduced, fact by fact, to what
    keeps the rest of the error path infeasible. A fact (a constraint or a memory
    location's value) is forgotten, and remembered again when the path suffix became
    feasible without it. The strongest post, the feasibility check and the
    reconstruction of a state from an interpolant are parameters. */
module SymbolicEdgeInterpolation {
  import opened Wrappers

  type MemoryLocation = string
  type Constraint = nat
  type Identifier = nat
  type Value = int
  type Edge = nat

  /** The contents of a composite state: value assignment, tracked constraints and the
      definite assignment of the constraints state. */
  datatype StateValue = StateValue(
    values: map<MemoryLocation, Value>,
    constraints: set<Constraint>,
    definiteAssignment: map<Identifier, Value>)

  const InitialState: StateValue := StateValue(map[], {}, map[])

  /** The state with every constraint removed, definite assignments kept. */
  function WithoutConstraints(s: StateValue): StateValue
  {
    s.(constraints := {})
  }

  /** `s` keeps a part of the facts of `t`. */
  predicate Within(s: StateValue, t: StateValue)
  {
    && s.constraints <= t.constraints
    && s.values.Keys <= t.values.Keys
    && (forall l | l in s.values :: s.values[l] == t.values[l])
    && s.definiteAssignment == t.definiteAssignment
  }

  /** A state that can forget and remember single facts in place. */
  class CompositeState {
    var values: map<MemoryLocation, Value>
    var constraints: set<Constraint>
    const definiteAssignment: map<Identifier, Value>

    constructor (s: StateValue)
      ensures Content() == s
    {
      values := s.values;
      constraints := s.constraints;
      definiteAssignment := s.definiteAssignment;
    }

    function Content(): StateValue
      reads this
    {
      StateValue(values, constraints, definiteAssignment)
    }

    method ForgetConstraint(c: Constraint)
      modifies this
      ensures Content() == old(Content()).(constraints := old(constraints) - {c})
    {
      constraints := constraints - {c};
    }

    method RememberConstraint(c: Constraint)
      modifies this
      ensures Content() == old(Content()).(constraints := old(constraints) + {c})
    {
      constraints := constraints + {c};
    }

    /** Removes the value of `l` and hands it back. */
    method ForgetValue(l: MemoryLocation) returns (info: Option<Value>)
      modifies this
      ensures Content() == old(Content()).(values := old(values) - {l})
      ensures info == if l in old(values) then Some(old(values)[l]) else None
    {
      info := if l in values then Some(values[l]) else None;
      values := values - {l};
    }

    method RememberValue(l: MemoryLocation, info: Option<Value>)
      modifies this
      ensures Content() == old(Content()).(values := if info.Some? then old(values)[l := info.value] else old(values))
    {
      if info.Some? {
        values := values[l := info.value];
      }
    }
  }

  datatype RefinementStrategy = ConstraintsFirst | ValuesFirst | ValuesOnly

  /** SymbolicInterpolant as far as this interpolator builds it: the `false` and `true`
      interpolants, and one created from a state. */
  datatype SymbolicInterpolant = FalseInterpolant | TrueInterpolant | Created(state: StateValue)

  /** `suffix(path, k)`: the rest of the error path after position `k`. */
  function Suffix(path: seq<Edge>, locationInPath: nat): (r: seq<Edge>)
    requires locationInPath < |path|
    ensures |r| == |path| - locationInPath - 1
    ensures forall i | 0 <= i < |r| :: r[i] == path[locationInPath + 1 + i]
  {
    path[locationInPath + 1..]
  }

  /** A single fact of a state: a tracked constraint or the value of a memory location. */
  datatype Fact = ConstraintFact(c: Constraint) | ValueFact(l: MemoryLocation)

  predicate Holds(s: StateValue, f: Fact)
  {
    match f
    case ConstraintFact(c) => c in s.constraints
    case ValueFact(l) => l in s.values
  }

  /** `forget`: the state without the fact, every other fact kept. */
  function Forget(s: StateValue, f: Fact): (r: StateValue)
    ensures Within(r, s) && !Holds(r, f)
    ensures forall g | g != f :: Holds(r, g) == Holds(s, g)
  {
    match f
    case ConstraintFact(c) => s.(constraints := s.constraints - {c})
    case ValueFact(l) => s.(values := s.values - {l})
  }

  /** `remember` after `forget`: the constraint is added back, or the value the location
      had in `s`, if it had one. */
  function Remember(forgotten: StateValue, f: Fact, s: StateValue): StateValue
  {
    match f
    case ConstraintFact(c) => forgotten.(constraints := forgotten.constraints + {c})
    case ValueFact(l) =>
      if l in s.values then forgotten.(values := forgotten.values[l := s.values[l]]) else forgotten
  }

  /** One iteration of a reduction loop: forget `f`, and remember it again exactly when
      the suffix became feasible without it. */
  function Step(f: Fact, s: StateValue, suffix: seq<Edge>, isFeasible: (seq<Edge>, StateValue) -> bool): StateValue
  {
    var forgotten := Forget(s, f);
    if isFeasible(suffix, forgotten) then Remember(forgotten, f, s) else forgotten
  }

  /** Reference definition of a reduction loop that visits the facts of `order` in turn. */
  function Reduce(order: seq<Fact>, s: StateValue, suffix: seq<Edge>, isFeasible: (seq<Edge>, StateValue) -> bool): StateValue
    decreases |order|
  {
    if order == [] then s
    else Step(order[|order| - 1], Reduce(order[..|order| - 1], s, suffix, isFeasible), suffix, isFeasible)
  }

  predicate Distinct(order: seq<Fact>)
  {
    forall i, j | 0 <= i < j < |order| :: order[i] != order[j]
  }

  /** `order` visits each tracked constraint of `s` once, and nothing else. */
  predicate IsConstraintOrder(order: seq<Fact>, s: StateValue)
  {
    && Distinct(order)
    && (forall f | f in order :: f.ConstraintFact? && f.c in s.constraints)
    && (forall c | c in s.constraints :: ConstraintFact(c) in order)
  }

  /** `order` visits each tracked memory location of `s` once, and nothing else. */
  predicate IsValueOrder(order: seq<Fact>, s: StateValue)
  {
    && Distinct(order)
    && (forall f | f in order :: f.ValueFact? && f.l in s.values)
    && (forall l | l in s.values :: ValueFact(l) in order)
  }

  /** `order` visits distinct facts that `s` holds. */
  predicate VisitsHeld(order: seq<Fact>, s: StateValue)
  {
    Distinct(order) && forall f | f in order :: Holds(s, f)
  }

  /** A fact that the state holds and gives back unchanged. */
  lemma RememberRestores(s: StateValue, f: Fact)
    requires Holds(s, f)
    ensures Remember(Forget(s, f), f, s) == s
  {
    match f
    case ConstraintFact(c) =>
      assert (s.constraints - {c}) + {c} == s.constraints;
    case ValueFact(l) =>
      assert (s.values - {l})[l := s.values[l]] == s.values;
  }

  /** The reduction only forgets: its result keeps a part of the facts of `s`, and every
      fact of `s` it does not visit. */
  lemma {:induction false} ReduceWithin(order: seq<Fact>, s: StateValue, suffix: seq<Edge>, isFeasible: (seq<Edge>, StateValue) -> bool)
    requires VisitsHeld(order, s)
    ensures Within(Reduce(order, s, suffix, isFeasible), s)
    ensures forall g | Holds(s, g) && g !in order :: Holds(Reduce(order, s, suffix, isFeasible), g)
    decreases |order|
  {
    if order != [] {
      var init, f := order[..|order| - 1], order[|order| - 1];
      assert order == init + [f];
      ReduceWithin(init, s, suffix, isFeasible);
      var x := Reduce(init, s, suffix, isFeasible);
      assert Holds(x, f);
      RememberRestores(x, f);
    }
  }

  /** The reduction keeps an infeasible suffix infeasible. */
  lemma {:induction false} ReduceKeepsInfeasible(order: seq<Fact>, s: StateValue, suffix: seq<Edge>, isFeasible: (seq<Edge>, StateValue) -> bool)
    requires VisitsHeld(order, s) && !isFeasible(suffix, s)
    ensures !isFeasible(suffix, Reduce(order, s, suffix, isFeasible))
    decreases |order|
  {
    if order != [] {
      var init, f := order[..|order| - 1], order[|order| - 1];
      assert order == init + [f];
      ReduceWithin(init, s, suffix, isFeasible);
      ReduceKeepsInfeasible(init, s, suffix, isFeasible);
      RememberRestores(Reduce(init, s, suffix, isFeasible), f);
    }
  }

  /** The feasibility check is monotone: forgetting facts never turns a feasible suffix
      infeasible. */
  ghost predicate Monotone(suffix: seq<Edge>, isFeasible: (seq<Edge>, StateValue) -> bool)
  {
    forall a: StateValue, b: StateValue :: Within(a, b) && isFeasible(suffix, b) ==> isFeasible(suffix, a)
  }

  /** A visited fact that the state still holds is necessary: the suffix is feasible
      without it. */
  ghost predicate VisitedNecessary(order: seq<Fact>, r: StateValue, suffix: seq<Edge>, isFeasible: (seq<Edge>, StateValue) -> bool)
  {
    forall f | f in order && Holds(r, f) :: isFeasible(suffix, Forget(r, f))
  }

  lemma ForgetWithin(a: StateValue, b: StateValue, f: Fact)
    requires Within(a, b)
    ensures Within(Forget(a, f), Forget(b, f))
  {
  }

  /** Necessity survives further forgetting, when the check is monotone. */
  lemma NecessaryPersists(order: seq<Fact>, a: StateValue, b: StateValue, suffix: seq<Edge>, isFeasible: (seq<Edge>, StateValue) -> bool)
    requires Monotone(suffix, isFeasible) && Within(a, b)
    requires VisitedNecessary(order, b, suffix, isFeasible)
    ensures VisitedNecessary(order, a, suffix, isFeasible)
  {
    forall f | f in order && Holds(a, f)
      ensures isFeasible(suffix, Forget(a, f))
    {
      ForgetWithin(a, b, f);
    }
  }

  /** Local minimality: with a monotone check, every visited fact the reduction keeps is
      necessary for the suffix's infeasibility. */
  lemma {:induction false} ReduceMinimal(order: seq<Fact>, s: StateValue, suffix: seq<Edge>, isFeasible: (seq<Edge>, StateValue) -> bool)
    requires VisitsHeld(order, s) && Monotone(suffix, isFeasible)
    ensures VisitedNecessary(order, Reduce(order, s, suffix, isFeasible), suffix, isFeasible)
    decreases |order|
  {
    if order != [] {
      var init, f := order[..|order| - 1], order[|order| - 1];
      assert order == init + [f];
      ReduceWithin(init, s, suffix, isFeasible);
      ReduceMinimal(init, s, suffix, isFeasible);
      var x := Reduce(init, s, suffix, isFeasible);
      var r := Reduce(order, s, suffix, isFeasible);
      RememberRestores(x, f);
      NecessaryPersists(init, r, x, suffix, isFeasible);
    }
  }

  /** A reduction over constraints leaves the values alone, one over values the
      constraints. */
  lemma {:induction false} ReduceTouchesItsKind(order: seq<Fact>, s: StateValue, suffix: seq<Edge>, isFeasible: (seq<Edge>, StateValue) -> bool)
    ensures (forall f | f in order :: f.ConstraintFact?) ==> Reduce(order, s, suffix, isFeasible).values == s.values
    ensures (forall f | f in order :: f.ValueFact?) ==> Reduce(order, s, suffix, isFeasible).constraints == s.constraints
    decreases |order|
  {
    if order != [] {
      var init, f := order[..|order| - 1], order[|order| - 1];
      assert order == init + [f];
      ReduceTouchesItsKind(init, s, suffix, isFeasible);
    }
  }

  /** Whether the constraint-free state is kept: avoiding constraints is allowed and the
      suffix is infeasible without them. */
  predicate Avoided(avoidConstraints: bool, s: StateValue, suffix: seq<Edge>, isFeasible: (seq<Edge>, StateValue) -> bool)
  {
    avoidConstraints && !isFeasible(suffix, WithoutConstraints(s))
  }

  /** The state the strategy's reductions start from. */
  function Start(avoided: bool, s: StateValue): StateValue
  {
    if avoided then WithoutConstraints(s) else s
  }

  /** The visit orders of the strategy's loops: every location once, and every
      constraint of the starting state once when the strategy reduces constraints. */
  predicate Visits(strategy: RefinementStrategy, avoided: bool, start: StateValue, cOrder: seq<Fact>, vOrder: seq<Fact>)
  {
    && IsValueOrder(vOrder, start)
    && if strategy == ValuesOnly || (strategy == ConstraintsFirst && avoided) then cOrder == []
       else IsConstraintOrder(cOrder, start)
  }

  /** The strategy's reductions in its order: values after constraints, constraints after
      values, or values only. */
  function Necessary(strategy: RefinementStrategy, start: StateValue, cOrder: seq<Fact>, vOrder: seq<Fact>,
                     suffix: seq<Edge>, isFeasible: (seq<Edge>, StateValue) -> bool): StateValue
  {
    match strategy
    case ConstraintsFirst => Reduce(vOrder, Reduce(cOrder, start, suffix, isFeasible), suffix, isFeasible)
    case ValuesFirst => Reduce(cOrder, Reduce(vOrder, start, suffix, isFeasible), suffix, isFeasible)
    case ValuesOnly => Reduce(vOrder, start, suffix, isFeasible)
  }

  /** The number of feasibility checks reduceToNecessaryState makes. */
  function Checks(avoidConstraints: bool, strategy: RefinementStrategy, s: StateValue, suffix: seq<Edge>,
                  isFeasible: (seq<Edge>, StateValue) -> bool): nat
  {
    (if avoidConstraints then 1 else 0) + |s.values.Keys|
    + (if strategy == ValuesOnly || Avoided(avoidConstraints, s, suffix, isFeasible) then 0 else |s.constraints|)
  }

  /** The strategy's result keeps a part of the starting facts and keeps an infeasible
      suffix infeasible; values only keeps every constraint. */
  lemma NecessarySound(strategy: RefinementStrategy, avoided: bool, start: StateValue, cOrder: seq<Fact>, vOrder: seq<Fact>,
                       suffix: seq<Edge>, isFeasible: (seq<Edge>, StateValue) -> bool)
    requires Visits(strategy, avoided, start, cOrder, vOrder)
    ensures var r := Necessary(strategy, start, cOrder, vOrder, suffix, isFeasible);
      && Within(r, start)
      && (!isFeasible(suffix, start) ==> !isFeasible(suffix, r))
      && (strategy == ValuesOnly ==> r.constraints == start.constraints)
  {
    var c1 := Reduce(cOrder, start, suffix, isFeasible);
    var v1 := Reduce(vOrder, start, suffix, isFeasible);
    ReduceTouchesItsKind(cOrder, start, suffix, isFeasible);
    ReduceTouchesItsKind(vOrder, start, suffix, isFeasible);
    ReduceWithin(cOrder, start, suffix, isFeasible);
    ReduceWithin(vOrder, start, suffix, isFeasible);
    if !isFeasible(suffix, start) {
      ReduceKeepsInfeasible(cOrder, start, suffix, isFeasible);
      ReduceKeepsInfeasible(vOrder, start, suffix, isFeasible);
    }
    match strategy
    case ConstraintsFirst =>
      assert VisitsHeld(vOrder, c1);
      ReduceWithin(vOrder, c1, suffix, isFeasible);
      if !isFeasible(suffix, start) {
        ReduceKeepsInfeasible(vOrder, c1, suffix, isFeasible);
      }
    case ValuesFirst =>
      assert VisitsHeld(cOrder, v1);
      ReduceWithin(cOrder, v1, suffix, isFeasible);
      if !isFeasible(suffix, start) {
        ReduceKeepsInfeasible(cOrder, v1, suffix, isFeasible);
      }
    case ValuesOnly =>
  }

  /** With a monotone check, every fact of the result that a loop visited is necessary:
      forgetting it makes the suffix feasible. */
  lemma NecessaryMinimal(strategy: RefinementStrategy, avoided: bool, start: StateValue, cOrder: seq<Fact>, vOrder: seq<Fact>,
                         suffix: seq<Edge>, isFeasible: (seq<Edge>, StateValue) -> bool)
    requires Visits(strategy, avoided, start, cOrder, vOrder) && Monotone(suffix, isFeasible)
    ensures var r := Necessary(strategy, start, cOrder, vOrder, suffix, isFeasible);
      VisitedNecessary(cOrder + vOrder, r, suffix, isFeasible)
  {
    var r := Necessary(strategy, start, cOrder, vOrder, suffix, isFeasible);
    var c1 := Reduce(cOrder, start, suffix, isFeasible);
    var v1 := Reduce(vOrder, start, suffix, isFeasible);
    ReduceTouchesItsKind(cOrder, start, suffix, isFeasible);
    ReduceTouchesItsKind(vOrder, start, suffix, isFeasible);
    match strategy
    case ConstraintsFirst =>
      ReduceMinimal(cOrder, start, suffix, isFeasible);
      assert VisitsHeld(vOrder, c1);
      ReduceWithin(vOrder, c1, suffix, isFeasible);
      ReduceMinimal(vOrder, c1, suffix, isFeasible);
      NecessaryPersists(cOrder, r, c1, suffix, isFeasible);
    case ValuesFirst =>
      ReduceMinimal(vOrder, start, suffix, isFeasible);
      assert VisitsHeld(cOrder, v1);
      ReduceWithin(cOrder, v1, suffix, isFeasible);
      ReduceMinimal(cOrder, v1, suffix, isFeasible);
      NecessaryPersists(vOrder, r, v1, suffix, isFeasible);
    case ValuesOnly =>
      ReduceMinimal(vOrder, start, suffix, isFeasible);
  }

  class EdgeInterpolator {
    /** The number of feasibility checks since the last interpolation started. */
    var interpolationQueries: nat
    const avoidConstraints: bool
    const strategy: RefinementStrategy
    const isFeasible: (seq<Edge>, StateValue) -> bool
    const strongestPost: (StateValue, Edge) -> Option<StateValue>
    const reconstruct: SymbolicInterpolant -> StateValue

    constructor (avoidConstraints: bool, strategy: RefinementStrategy,
                 isFeasible: (seq<Edge>, StateValue) -> bool,
                 strongestPost: (StateValue, Edge) -> Option<StateValue>,
                 reconstruct: SymbolicInterpolant -> StateValue)
      ensures interpolationQueries == 0
      ensures this.avoidConstraints == avoidConstraints && this.strategy == strategy
      ensures this.isFeasible == isFeasible && this.strongestPost == strongestPost
      ensures this.reconstruct == reconstruct
    {
      interpolationQueries := 0;
      this.avoidConstraints := avoidConstraints;
      this.strategy := strategy;
      this.isFeasible := isFeasible;
      this.strongestPost := strongestPost;
      this.reconstruct := reconstruct;
    }

    method IsPathFeasible(suffix: seq<Edge>, state: StateValue) returns (b: bool)
      modifies this
      ensures interpolationQueries == old(interpolationQueries) + 1
      ensures b == isFeasible(suffix, state)
    {
      interpolationQueries := interpolationQueries + 1;
      b := isFeasible(suffix, state);
    }

    method RemoveAllConstraints(state: CompositeState) returns (r: CompositeState)
      ensures fresh(r) && r.Content() == WithoutConstraints(state.Content())
    {
      r := new CompositeState(StateValue(state.values, {}, state.definiteAssignment));
    }

      /** reduceConstraintsToNecessaryState: each tracked constraint in turn is forgotten
        and remembered again when the suffix became feasible without it. The set's
        iteration order is unspecified; `order` is the one taken. */
    method ReduceConstraints(state: CompositeState, suffix: seq<Edge>) returns (ghost order: seq<Fact>)
      modifies this, state
      ensures IsConstraintOrder(order, old(state.Content()))
      ensures state.Content() == Reduce(order, old(state.Content()), suffix, isFeasible)
      ensures interpolationQueries == old(interpolationQueries) + |old(state.constraints)|
    {
      var todo := state.constraints;
      order := [];
      while todo != {}
        invariant todo <= old(state.constraints) && Distinct(order)
        invariant forall f | f in order :: f.ConstraintFact? && f.c in old(state.constraints) && f.c !in todo
        invariant forall c | c in old(state.constraints) :: c in todo || ConstraintFact(c) in order
        invariant |order| + |todo| == |old(state.constraints)|
        invariant state.Content() == Reduce(order, old(state.Content()), suffix, isFeasible)
        invariant interpolationQueries == old(interpolationQueries) + |order|
        decreases todo
      {
        var c :| c in todo;
        ghost var before := state.Content();
        state.ForgetConstraint(c);
        var feasible := IsPathFeasible(suffix, state.Content());
        if feasible {
          state.RememberConstraint(c);
        }
        assert state.Content() == Step(ConstraintFact(c), before, suffix, isFeasible);
        assert (order + [ConstraintFact(c)])[..|order|] == order;
        order := order + [ConstraintFact(c)];
        todo := todo - {c};
      }
    }

    /** reduceValuesToNecessaryState: the same for the tracked memory locations; the
        forgotten value is put back when it was necessary. */
    method ReduceValues(state: CompositeState, suffix: seq<Edge>) returns (ghost order: seq<Fact>)
      modifies this, state
      ensures IsValueOrder(order, old(state.Content()))
      ensures state.Content() == Reduce(order, old(state.Content()), suffix, isFeasible)
      ensures interpolationQueries == old(interpolationQueries) + |old(state.values).Keys|
    {
      var todo := state.values.Keys;
      order := [];
      while todo != {}
        invariant todo <= old(state.values).Keys && Distinct(order)
        invariant forall f | f in order :: f.ValueFact? && f.l in old(state.values) && f.l !in todo
        invariant forall l | l in old(state.values) :: l in todo || ValueFact(l) in order
        invariant |order| + |todo| == |old(state.values).Keys|
        invariant state.Content() == Reduce(order, old(state.Content()), suffix, isFeasible)
        invariant interpolationQueries == old(interpolationQueries) + |order|
        decreases todo
      {
        var l :| l in todo;
        ghost var before := state.Content();
        var forgottenInfo := state.ForgetValue(l);
        var feasible := IsPathFeasible(suffix, state.Content());
        if feasible {
          state.RememberValue(l, forgottenInfo);
        }
        assert state.Content() == Step(ValueFact(l), before, suffix, isFeasible);
        assert (order + [ValueFact(l)])[..|order|] == order;
        order := order + [ValueFact(l)];
        todo := todo - {l};
      }
    }

    /** reduceToNecessaryState: first, optionally, try without any constraint; then
        reduce in the order the strategy names. */
    method ReduceToNecessaryState(successor: CompositeState, suffix: seq<Edge>)
      returns (reduced: CompositeState, ghost cOrder: seq<Fact>, ghost vOrder: seq<Fact>)
      modifies this, successor
      ensures var s := old(successor.Content());
        var avoided := Avoided(avoidConstraints, s, suffix, isFeasible);
        var start := Start(avoided, s);
        && Visits(strategy, avoided, start, cOrder, vOrder)
        && reduced.Content() == Necessary(strategy, start, cOrder, vOrder, suffix, isFeasible)
      ensures Within(reduced.Content(), old(successor.Content()))
      ensures !isFeasible(suffix, old(successor.Content())) ==> !isFeasible(suffix, reduced.Content())
      // the constraint-free state is kept when it already makes the suffix infeasible
      ensures Avoided(avoidConstraints, old(successor.Content()), suffix, isFeasible) ==>
        reduced.constraints == {} && !isFeasible(suffix, reduced.Content())
      // values only: the constraints of the starting state are all kept
      ensures strategy == ValuesOnly ==>
        reduced.constraints == Start(Avoided(avoidConstraints, old(successor.Content()), suffix, isFeasible), old(successor.Content())).constraints
      ensures interpolationQueries == old(interpolationQueries) + Checks(avoidConstraints, strategy, old(successor.Content()), suffix, isFeasible)
    {
      ghost var s := successor.Content();
      ghost var avoided := Avoided(avoidConstraints, s, suffix, isFeasible);
      ghost var start := Start(avoided, s);
      reduced := successor;
      var reduceConstraints := true;
      if avoidConstraints {
        reduced := RemoveAllConstraints(successor);
        var feasible := IsPathFeasible(suffix, reduced.Content());
        if feasible {
          reduced := successor;
        } else {
          reduceConstraints := false;
        }
      }
      assert reduced.Content() == start && reduceConstraints == !avoided;
      cOrder := [];
      match strategy {
        case ConstraintsFirst =>
          if reduceConstraints {
            cOrder := ReduceConstraints(reduced, suffix);
          }
          ReduceTouchesItsKind(cOrder, start, suffix, isFeasible);
          vOrder := ReduceValues(reduced, suffix);
        case ValuesOnly =>
          vOrder := ReduceValues(reduced, suffix);
          ReduceTouchesItsKind(vOrder, start, suffix, isFeasible);
        case ValuesFirst =>
          vOrder := ReduceValues(reduced, suffix);
          ReduceTouchesItsKind(vOrder, start, suffix, isFeasible);
          cOrder := ReduceConstraints(reduced, suffix);
      }
      NecessarySound(strategy, avoided, start, cOrder, vOrder, suffix, isFeasible);
    }

    /** deriveInterpolant for the edge at `locationInPath` of the error path. */
    method DeriveInterpolant(path: seq<Edge>, currentEdge: Edge, locationInPath: nat, input: SymbolicInterpolant)
      returns (r: SymbolicInterpolant, ghost cOrder: seq<Fact>, ghost vOrder: seq<Fact>)
      requires locationInPath < |path|
      modifies this
      ensures var origin := reconstruct(input);
        var post := strongestPost(origin, currentEdge);
        var suffix := Suffix(path, locationInPath);
        && (post.None? ==> r == FalseInterpolant && interpolationQueries == 0)
        && (post.Some? && post.value == origin ==> r == input && interpolationQueries == 0)
        && (post.Some? && post.value != origin && !isFeasible(suffix, InitialState) ==>
              r == TrueInterpolant && interpolationQueries == 1)
        && (post.Some? && post.value != origin && isFeasible(suffix, InitialState) ==>
              var avoided := Avoided(avoidConstraints, post.value, suffix, isFeasible);
              var start := Start(avoided, post.value);
              && Visits(strategy, avoided, start, cOrder, vOrder)
              && r == Created(Necessary(strategy, start, cOrder, vOrder, suffix, isFeasible))
              && Within(r.state, post.value)
              && (!isFeasible(suffix, post.value) ==> !isFeasible(suffix, r.state))
              && interpolationQueries == 1 + Checks(avoidConstraints, strategy, post.value, suffix, isFeasible))
    {
      interpolationQueries := 0;
      cOrder, vOrder := [], [];
      var originState := reconstruct(input);
      var maybeSuccessor := strongestPost(originState, currentEdge);
      if maybeSuccessor.None? {
        r := FalseInterpolant;
        return;
      }
      var successorState := maybeSuccessor.value;
      if originState == successorState {
        r := input;
        return;
      }
      var suffix := Suffix(path, locationInPath);
      var feasible := IsPathFeasible(suffix, InitialState);
      if !feasible {
        r := TrueInterpolant;
        return;
      }
      var successor := new CompositeState(successorState);
      var necessaryInfo;
      necessaryInfo, cOrder, vOrder := ReduceToNecessaryState(successor, suffix);
      r := Created(necessaryInfo.Content());
    }
  }
}
