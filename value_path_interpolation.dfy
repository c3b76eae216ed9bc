/** Path interpolation for the value analysis (ValueAnalysisPathInterpolator): one
    interpolant per position of an error path, derived edge by edge until the
    interpolant becomes `false`; the first position with new information is remembered
    as the restart offset, and the interpolants' memory locations become the precision
    increment. The edge interpolator and the choice of the infeasible prefix are
    parameters. */
module ValuePathInterpolation {
  import opened Wrappers

  type MemoryLocation = string
  type Node = nat
  type Edge = nat

  /** An ARG state, with the CFA location it belongs to. */
  datatype ArgState = ArgState(id: nat, location: Node)

  /** An element of an error path: a state and the edge leaving it. */
  datatype PathElement = PathElement(state: ArgState, edge: Edge)

  /** A value-analysis interpolant: `false`, or an assignment to memory locations
      (only the locations matter here). The empty assignment is `true`. */
  datatype Interpolant = FalseItp | Assignment(locations: set<MemoryLocation>)
  {
    predicate IsFalse() { this.FalseItp? }
    predicate IsTrue() { this.Assignment? && locations == {} }
    predicate IsTrivial() { IsFalse() || IsTrue() }
    function MemoryLocations(): set<MemoryLocation>
    {
      if this.FalseItp? then {} else locations
    }
  }

  const Initial: Interpolant := Assignment({})

  /** The edge interpolator: trace, position and the interpolant so far. */
  type EdgeInterpolator = (seq<Edge>, nat, Interpolant) -> Interpolant

  /** One position of the loop: a `false` interpolant is kept, anything else is passed
      to the edge interpolator. */
  function Step(derive: EdgeInterpolator, trace: seq<Edge>, i: nat, itp: Interpolant): Interpolant
  {
    if itp.IsFalse() then itp else derive(trace, i, itp)
  }

  /** One interpolation problem: the edge interpolator, the error trace and the
      interpolant to start from. */
  datatype Interpolation = Interpolation(derive: EdgeInterpolator, trace: seq<Edge>, start: Interpolant)
  {
    /** The interpolant after the first `k` positions; the one of position `k - 1`. */
    function Itp(k: nat): Interpolant
    {
      if k == 0 then start else Step(derive, trace, k - 1, Itp(k - 1))
    }

    /** The restart offset after `k` positions, as the loop maintains it: the first
        `j` whose interpolant `Itp(j)` is non-trivial, or -1. */
    function Offset(k: nat): int
    {
      if k == 0 then -1
      else
        var o := Offset(k - 1);
        if o == -1 && !Itp(k).IsTrivial() then k else o
    }

    /** The map the loop fills in `k` positions: the interpolant of position `i` under
        the state at path position `i + 1`. */
    function Recorded(path: seq<PathElement>, k: nat): seq<(ArgState, Interpolant)>
      requires k < |path| || k == 0
    {
      if k == 0 then [] else Put(Recorded(path, k - 1), path[k].state, Itp(k))
    }

    /** Whether the check at the last trace position fails within `k` positions. */
    predicate FailsWithin(k: nat)
    {
      1 <= |trace| <= k && !Itp(|trace|).IsFalse()
    }
  }

  /** Once the interpolant is `false` it stays `false` at every later position. */
  lemma {:induction false} FalseIsSticky(p: Interpolation, j: nat, l: nat)
    requires j <= l && p.Itp(j).IsFalse()
    ensures p.Itp(l).IsFalse()
    decreases l
  {
    if j < l {
      FalseIsSticky(p, j, l - 1);
    }
  }

  /** The offset names the first position with a non-trivial interpolant; it is -1
      only when every interpolant is trivial. */
  lemma {:induction false} OffsetIsFirstNonTrivial(p: Interpolation, k: nat)
    ensures p.Offset(k) == -1 ==> forall j: nat | 1 <= j <= k :: p.Itp(j).IsTrivial()
    ensures p.Offset(k) != -1 ==>
      1 <= p.Offset(k) <= k && !p.Itp(p.Offset(k)).IsTrivial() &&
      forall j: nat | 1 <= j < p.Offset(k) :: p.Itp(j).IsTrivial()
    decreases k
  {
    if k > 0 {
      OffsetIsFirstNonTrivial(p, k - 1);
      if p.Offset(k - 1) == -1 && p.Itp(k).IsTrivial() {
        forall j: nat | 1 <= j <= k ensures p.Itp(j).IsTrivial() {
          if j < k {
            assert 1 <= j <= k - 1;
          }
        }
      }
    }
  }

  /** A `false` interpolant is trivial, so when the first interpolant is already
      `false` there is no offset. */
  lemma {:induction false} NoOffsetAfterFalseStart(p: Interpolation, k: nat)
    requires p.start.IsFalse()
    ensures p.Offset(k) == -1
    decreases k
  {
    if k > 0 {
      NoOffsetAfterFalseStart(p, k - 1);
      FalseIsSticky(p, 0, k);
    }
  }

  /** LinkedHashMap.put: an existing key keeps its position and takes the new value,
      a new key is appended. */
  function Put<K(==), V>(m: seq<(K, V)>, k: K, v: V): seq<(K, V)>
  {
    if m == [] then [(k, v)]
    else if m[0].0 == k then [(k, v)] + m[1..]
    else [m[0]] + Put(m[1..], k, v)
  }

  function Keys<K, V>(m: seq<(K, V)>): seq<K>
  {
    seq(|m|, i requires 0 <= i < |m| => m[i].0)
  }

  lemma {:induction false} PutNewKey<K, V>(m: seq<(K, V)>, k: K, v: V)
    requires k !in Keys(m)
    ensures Put(m, k, v) == m + [(k, v)]
    decreases |m|
  {
    if m != [] {
      assert m[0].0 == Keys(m)[0];
      assert Keys(m[1..]) == Keys(m)[1..];
      PutNewKey(m[1..], k, v);
      assert m == [m[0]] + m[1..];
    }
  }

  predicate DistinctStates(path: seq<PathElement>)
  {
    forall i, j | 0 <= i < j < |path| :: path[i].state != path[j].state
  }

  /** On an ARG path, whose states are distinct, exactly one interpolant is recorded
      per state at positions 1 .. k, in path order. */
  lemma {:induction false} RecordedInPathOrder(p: Interpolation, path: seq<PathElement>, k: nat)
    requires k < |path| && DistinctStates(path)
    ensures var r := p.Recorded(path, k);
      |r| == k && forall i | 0 <= i < k :: r[i] == (path[i + 1].state, p.Itp(i + 1))
    decreases k
  {
    if k > 0 {
      RecordedInPathOrder(p, path, k - 1);
      var prev := p.Recorded(path, k - 1);
      assert path[k].state !in Keys(prev) by {
        forall i | 0 <= i < |prev| ensures Keys(prev)[i] != path[k].state {
          assert prev[i] == (path[i + 1].state, p.Itp(i + 1));
        }
      }
      PutNewKey(prev, path[k].state, p.Itp(k));
    }
  }

  datatype InterpolationError = FinalInterpolantNotFalse | RefinementFailed

  class PathInterpolator {
    /** The restart position of the last interpolation, -1 when there is none. */
    var interpolationOffset: int
    /** The locations over the hard assignment threshold, when an assignment-counting
        state is present on the path. */
    var assignments: Option<set<MemoryLocation>>
    const doLazyAbstraction: bool
    const interpolator: EdgeInterpolator

    ghost predicate Valid()
      reads this
    {
      interpolationOffset == -1 || interpolationOffset >= 1
    }

    constructor (doLazyAbstraction: bool, interpolator: EdgeInterpolator)
      ensures Valid() && interpolationOffset == -1 && assignments.None?
      ensures this.doLazyAbstraction == doLazyAbstraction && this.interpolator == interpolator
    {
      interpolationOffset := -1;
      assignments := None;
      this.doLazyAbstraction := doLazyAbstraction;
      this.interpolator := interpolator;
    }

    /** performInterpolation, on the error trace of the chosen prefix. With assertions
        enabled, a non-`false` interpolant at the last trace position is an error. */
    method PerformInterpolation(errorPath: seq<PathElement>, errorTrace: seq<Edge>, interpolant: Interpolant)
      returns (r: Result<seq<(ArgState, Interpolant)>, InterpolationError>)
      modifies this
      ensures Valid() && assignments == old(assignments)
      ensures var n := if |errorPath| == 0 then 0 else |errorPath| - 1;
        var p := Interpolation(interpolator, errorTrace, interpolant);
        && (r.Failure? <==> p.FailsWithin(n))
        && (r.Success? ==> r.value == p.Recorded(errorPath, n) && interpolationOffset == p.Offset(n))
    {
      ghost var p := Interpolation(interpolator, errorTrace, interpolant);
      interpolationOffset := -1;
      var n := if |errorPath| == 0 then 0 else |errorPath| - 1;
      var pathInterpolants: seq<(ArgState, Interpolant)> := [];
      var current := interpolant;
      var i := 0;
      while i < n
        invariant i <= n && assignments == old(assignments) && Valid()
        invariant current == p.Itp(i) && interpolationOffset == p.Offset(i)
        invariant pathInterpolants == p.Recorded(errorPath, i)
        invariant !p.FailsWithin(i)
      {
        if !current.IsFalse() {
          current := interpolator(errorTrace, i, current);
        }
        if !current.IsTrivial() && interpolationOffset == -1 {
          interpolationOffset := i + 1;
        }
        pathInterpolants := Put(pathInterpolants, errorPath[i + 1].state, current);
        if i == |errorTrace| - 1 && !current.IsFalse() {
          return Failure(FinalInterpolantNotFalse);
        }
        i := i + 1;
      }
      r := Success(pathInterpolants);
    }
    /** addToPrecisionIncrement: the interpolant's locations that are not over the hard
        threshold join the increment at `node`. */
    method AddToPrecisionIncrement(increment: map<Node, set<MemoryLocation>>, node: Node, itp: Interpolant)
      returns (r: map<Node, set<MemoryLocation>>)
      ensures var kept := Kept(itp, assignments);
        r == if kept == {} then increment else increment[node := Get(increment, node) + kept]
    {
      r := increment;
      var todo := itp.MemoryLocations();
      while todo != {}
        invariant todo <= itp.MemoryLocations()
        invariant var done := Kept(itp, assignments) - todo;
          r == if done == {} then increment else increment[node := Get(increment, node) + done]
        decreases todo
      {
        var memoryLocation :| memoryLocation in todo;
        ghost var done := Kept(itp, assignments) - todo;
        if assignments.None? || memoryLocation !in assignments.value {
          if done == {} {
            assert r == increment;
          } else {
            assert r == increment[node := Get(increment, node) + done];
          }
          assert Get(r, node) == Get(increment, node) + done;
          assert Get(r, node) + {memoryLocation} == Get(increment, node) + (done + {memoryLocation});
          assert r[node := Get(r, node) + {memoryLocation}]
              == increment[node := Get(increment, node) + (done + {memoryLocation})];
          r := r[node := Get(r, node) + {memoryLocation}];
          assert Kept(itp, assignments) - (todo - {memoryLocation}) == done + {memoryLocation};
        } else {
          assert Kept(itp, assignments) - (todo - {memoryLocation}) == done;
        }
        todo := todo - {memoryLocation};
      }
      assert Kept(itp, assignments) - todo == Kept(itp, assignments);
    }

    /** determinePrecisionIncrement: interpolate from the initial interpolant, then add
        every recorded interpolant at its state's location. */
    method DeterminePrecisionIncrement(errorPath: seq<PathElement>, errorTrace: seq<Edge>,
                                       lastAssignments: Option<set<MemoryLocation>>)
      returns (r: Result<map<Node, set<MemoryLocation>>, InterpolationError>)
      modifies this
      ensures Valid() && assignments == lastAssignments
      ensures var n := if |errorPath| == 0 then 0 else |errorPath| - 1;
        var p := Interpolation(interpolator, errorTrace, Initial);
        && (r.Failure? <==> p.FailsWithin(n))
        && (r.Success? ==> r.value == Increment(p.Recorded(errorPath, n), lastAssignments)
                           && interpolationOffset == p.Offset(n))
    {
      assignments := lastAssignments;
      var increment: map<Node, set<MemoryLocation>> := map[];
      var itps := PerformInterpolation(errorPath, errorTrace, Initial);
      if itps.Failure? {
        return Failure(itps.error);
      }
      var entries := itps.value;
      ghost var offset := interpolationOffset;
      var i := 0;
      while i < |entries|
        invariant 0 <= i <= |entries| && assignments == lastAssignments
        invariant interpolationOffset == offset
        invariant increment == Increment(entries[..i], assignments)
      {
        IncrementStep(entries, i, assignments);
        increment := AddToPrecisionIncrement(increment, entries[i].0.location, entries[i].1);
        i := i + 1;
      }
      assert entries[..i] == entries;
      r := Success(increment);
    }

    /** determineRefinementRoot: no offset means the refinement failed; otherwise the
        path element at the offset (lazy abstraction) or right after the root. */
    method DetermineRefinementRoot(errorPath: seq<PathElement>) returns (r: Result<PathElement, InterpolationError>)
      requires Valid() && interpolationOffset < |errorPath|
      ensures interpolationOffset == -1 <==> r == Failure(RefinementFailed)
      ensures interpolationOffset != -1 && doLazyAbstraction ==> r == Success(errorPath[interpolationOffset])
      ensures interpolationOffset != -1 && !doLazyAbstraction ==> r == Success(errorPath[1])
    {
      if interpolationOffset == -1 {
        return Failure(RefinementFailed);
      }
      if doLazyAbstraction {
        return Success(errorPath[interpolationOffset]);
      } else {
        return Success(errorPath[1]);
      }
    }
  }

  function Get(m: map<Node, set<MemoryLocation>>, node: Node): set<MemoryLocation>
  {
    if node in m then m[node] else {}
  }

  /** The locations of an interpolant that the increment keeps: all of them without an
      assignment-counting state, otherwise those not over the hard threshold. */
  function Kept(itp: Interpolant, assignments: Option<set<MemoryLocation>>): (r: set<MemoryLocation>)
    ensures r <= itp.MemoryLocations()
    ensures assignments.None? ==> r == itp.MemoryLocations()
    ensures assignments.Some? ==> r !! assignments.value
  {
    set l | l in itp.MemoryLocations() && (assignments.None? || l !in assignments.value)
  }

  /** The increment for a list of recorded interpolants, added in order. */
  function Increment(entries: seq<(ArgState, Interpolant)>, assignments: Option<set<MemoryLocation>>)
    : map<Node, set<MemoryLocation>>
  {
    if entries == [] then map[]
    else
      var prev := Increment(entries[..|entries| - 1], assignments);
      var e := entries[|entries| - 1];
      var kept := Kept(e.1, assignments);
      if kept == {} then prev else prev[e.0.location := Get(prev, e.0.location) + kept]
  }

  lemma IncrementStep(entries: seq<(ArgState, Interpolant)>, i: nat, assignments: Option<set<MemoryLocation>>)
    requires i < |entries|
    ensures var prev := Increment(entries[..i], assignments);
      var kept := Kept(entries[i].1, assignments);
      Increment(entries[..i + 1], assignments) ==
        if kept == {} then prev else prev[entries[i].0.location := Get(prev, entries[i].0.location) + kept]
  {
    assert entries[..i + 1][..i] == entries[..i];
  }

  /** The increment at a location holds exactly the kept locations of the interpolants
      recorded for states at that location. */
  lemma {:induction false} IncrementContents(entries: seq<(ArgState, Interpolant)>, assignments: Option<set<MemoryLocation>>,
                                             node: Node, l: MemoryLocation)
    ensures l in Get(Increment(entries, assignments), node) <==>
      exists i | 0 <= i < |entries| :: entries[i].0.location == node && l in Kept(entries[i].1, assignments)
    decreases |entries|
  {
    if entries != [] {
      var p := entries[..|entries| - 1];
      IncrementContents(p, assignments, node, l);
      assert forall i | 0 <= i < |p| :: p[i] == entries[i];
    }
  }
}
