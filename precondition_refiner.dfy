/** The control skeleton of the solver-based precondition refiner (RefineSolverBasedItp):
    interpolants over the prefixes of a pushed sequence of formulas, the reverse walk
    along a trace that derives predicates per location, and the assembly of a predicate
    precision whose global list holds every predicate found. Path formulas,
    interpolation with candidates, literal extraction and predicate creation are
    parameters; formulas are built with the shared connectives. */
module PreconditionRefiner {
  import opened Formulas

  type Node = nat

  /** A CFA edge of a trace: its endpoints and whether it is a blank edge. */
  datatype CfaEdge = CfaEdge(id: nat, predecessor: Node, successor: Node, blank: bool)

  /** An ARG path, as its list of edges. */
  type Trace = seq<CfaEdge>

  /** An abstraction predicate is an opaque handle of the abstraction manager. */
  type AbstractionPredicate = nat

  datatype Environment = Environment(
    // computePathformulaForArbitraryTrace, up to the stop node
    pathFormula: (Trace, Node) -> PathFormula,
    eliminateDeadVariables: (Formula, SsaMap) -> Formula,
    extractNewPreds: Formula -> seq<Formula>,
    // the forward path formula manager's makeAnd
    makeAnd: (PathFormula, CfaEdge) -> PathFormula,
    // interpolation with candidate predicates
    candidateInterpolant: (Formula, Formula, seq<Formula>, Node) -> Formula,
    instantiate: (Formula, SsaMap) -> Formula,
    // the literals of a formula, uninstantiated
    literals: Formula -> seq<Formula>,
    makePredicate: Formula -> AbstractionPredicate,
    unsat: seq<Formula> -> bool,
    // the interpolant for the first `i` pushed formulas
    interpolant: (seq<Formula>, nat) -> Formula)

  /** An interpolating prover: a solver stack whose formulas are pushed as groups,
      numbered in push order. */
  class InterpolatingProver {
    const prover: ProverEnvironment
    const interpolant: (seq<Formula>, nat) -> Formula

    constructor (unsat: seq<Formula> -> bool, interpolant: (seq<Formula>, nat) -> Formula)
      ensures fresh(prover) && prover.stack == [] && prover.unsat == unsat && this.interpolant == interpolant
    {
      prover := new ProverEnvironment(unsat);
      this.interpolant := interpolant;
    }

    method Push(f: Formula) returns (group: nat)
      modifies prover
      ensures prover.stack == old(prover.stack) + [f] && group == |old(prover.stack)|
    {
      group := |prover.stack|;
      prover.Push(f);
    }

    /** The interpolant for a prefix of the groups. */
    method GetInterpolant(groups: seq<nat>) returns (itp: Formula)
      requires |groups| <= |prover.stack| && forall k | 0 <= k < |groups| :: groups[k] == k
      ensures itp == interpolant(prover.stack, |groups|)
    {
      itp := interpolant(prover.stack, |groups|);
    }
  }

  /** The interpolants for the proper non-empty prefixes, without repetition. */
  ghost function PrefixInterpolants(env: Environment, formulas: seq<Formula>): set<Formula>
  {
    set i | 1 <= i < |formulas| :: env.interpolant(formulas, i)
  }

  /** The numbers 0 .. n-1, as a list of group handles. */
  function Groups(n: nat): (r: seq<nat>)
    ensures |r| == n && forall k | 0 <= k < n :: r[k] == k
  {
    seq(n, k => k)
  }

  /** getInterpolants: nothing when the formulas are satisfiable together; otherwise one
      interpolant per proper non-empty prefix, in prefix order, each kept once. */
  method GetInterpolants(env: Environment, formulas: seq<Formula>) returns (r: seq<Formula>)
    ensures !env.unsat(formulas) ==> r == []
    ensures env.unsat(formulas) ==> (set f | f in r) == PrefixInterpolants(env, formulas)
    ensures forall j, k | 0 <= j < k < |r| :: r[j] != r[k]
    ensures |formulas| >= 1 ==> |r| <= |formulas| - 1
  {
    var itpProver := new InterpolatingProver(env.unsat, env.interpolant);
    var itpGroups: seq<nat> := [];
    for i := 0 to |formulas|
      invariant itpProver.prover.stack == formulas[..i] && itpGroups == Groups(i)
    {
      var g := itpProver.Push(formulas[i]);
      itpGroups := itpGroups + [g];
    }
    assert formulas[..|formulas|] == formulas;
    var unsat := itpProver.prover.IsUnsat();
    if !unsat {
      return [];
    }
    r := [];
    var i := 1;
    while i < |itpGroups|
      invariant itpProver.prover.stack == formulas && itpGroups == Groups(|formulas|)
      invariant 1 <= i <= |itpGroups| || |itpGroups| == 0
      invariant (set f | f in r) == set k | 1 <= k < i && k < |formulas| :: env.interpolant(formulas, k)
      invariant forall j, k | 0 <= j < k < |r| :: r[j] != r[k]
      invariant |r| <= i - 1
    {
      var itp := itpProver.GetInterpolant(itpGroups[..i]);
      ghost var before := r;
      if itp !in r {
        r := r + [itp];
      }
      assert (set f | f in r) == (set f | f in before) + {env.interpolant(formulas, i)};
      assert (set k | 1 <= k < i + 1 && k < |formulas| :: env.interpolant(formulas, k))
          == (set k | 1 <= k < i && k < |formulas| :: env.interpolant(formulas, k)) + {env.interpolant(formulas, i)};
      i := i + 1;
    }
  }

  /** alterPf: a path formula over `f` with the SSA map of `pf`, no pointer targets and
      length 1. */
  function AlterPf(pf: PathFormula, f: Formula): (r: PathFormula)
    ensures r.formula == f && r.ssa == pf.ssa && r.pts == 0 && r.length == 1
  {
    PathFormula(f, pf.ssa, 0, 1)
  }

  /** pre, instantiated: the path formula up to `stopAt`, with dead variables eliminated. */
  function Pre(env: Environment, trace: Trace, stopAt: Node): (r: PathFormula)
    ensures var pf := env.pathFormula(trace, stopAt);
      r.ssa == pf.ssa && r.formula == env.eliminateDeadVariables(pf.formula, pf.ssa)
  {
    var pf := env.pathFormula(trace, stopAt);
    AlterPf(pf, env.eliminateDeadVariables(pf.formula, pf.ssa))
  }

  function InstantiateAll(env: Environment, fs: seq<Formula>, ssa: SsaMap): (r: seq<Formula>)
    ensures |r| == |fs| && forall i | 0 <= i < |fs| :: r[i] == env.instantiate(fs[i], ssa)
  {
    seq(|fs|, i requires 0 <= i < |fs| => env.instantiate(fs[i], ssa))
  }

  /** The precondition after edge `t`, from the one before it: an interpolant between the
      strengthened precondition of the successor and the counter condition over `t`. */
  function NextPrecondition(env: Environment, trace: Trace, t: CfaEdge, preAtK: PathFormula): PathFormula
  {
    var preAtKp1 := Pre(env, trace, t.successor);
    var predsNew := env.extractNewPreds(preAtKp1.formula);
    var strengthened := AlterPf(preAtKp1, And([preAtKp1.formula, And(predsNew)]));
    var transFromPreAtK := env.makeAnd(AlterPf(preAtK, Not(preAtK.formula)), t);
    var instantiateWith := transFromPreAtK.ssa;
    AlterPf(transFromPreAtK,
      env.candidateInterpolant(
        env.instantiate(strengthened.formula, instantiateWith),
        transFromPreAtK.formula,
        InstantiateAll(env, predsNew, instantiateWith),
        t.successor))
  }

  /** A multimap as its entries in key insertion order; each key once. */
  type Multimap = seq<(Node, seq<Formula>)>

  function Keys(mm: Multimap): seq<Node>
  {
    seq(|mm|, i requires 0 <= i < |mm| => mm[i].0)
  }

  predicate KeysDistinct(mm: Multimap)
  {
    forall i, j | 0 <= i < j < |mm| :: mm[i].0 != mm[j].0
  }

  /** All values, key by key. */
  function Values(mm: Multimap): seq<Formula>
  {
    if mm == [] then [] else mm[0].1 + Values(mm[1..])
  }

  /** The values under key `k`. */
  function Get(mm: Multimap, k: Node): seq<Formula>
  {
    if mm == [] then [] else if mm[0].0 == k then mm[0].1 else Get(mm[1..], k)
  }

  /** putAll(k, vs) of a multimap builder: the values are appended under `k`; a key
      without values is not created. */
  function PutAll(mm: Multimap, k: Node, vs: seq<Formula>): Multimap
  {
    if vs == [] then mm
    else if mm == [] then [(k, vs)]
    else if mm[0].0 == k then [(k, mm[0].1 + vs)] + mm[1..]
    else [mm[0]] + PutAll(mm[1..], k, vs)
  }

  lemma {:induction false} PutAllValues(mm: Multimap, k: Node, vs: seq<Formula>)
    ensures multiset(Values(PutAll(mm, k, vs))) == multiset(Values(mm)) + multiset(vs)
  {
    if vs == [] {
    } else if mm == [] {
      assert Values([(k, vs)]) == vs + Values([]);
    } else if mm[0].0 == k {
      var r := [(k, mm[0].1 + vs)] + mm[1..];
      assert r[1..] == mm[1..];
    } else {
      var r := [mm[0]] + PutAll(mm[1..], k, vs);
      assert r[1..] == PutAll(mm[1..], k, vs);
      PutAllValues(mm[1..], k, vs);
    }
  }

  lemma {:induction false} PutAllGet(mm: Multimap, k: Node, vs: seq<Formula>, k': Node)
    ensures Get(PutAll(mm, k, vs), k') == if k' == k then Get(mm, k) + vs else Get(mm, k')
  {
    if vs == [] {
      assert Get(mm, k) + vs == Get(mm, k);
    } else if mm == [] {
      assert PutAll(mm, k, vs)[1..] == [];
    } else if mm[0].0 == k {
      var r := [(k, mm[0].1 + vs)] + mm[1..];
      assert r[1..] == mm[1..];
    } else {
      var r := [mm[0]] + PutAll(mm[1..], k, vs);
      assert r[1..] == PutAll(mm[1..], k, vs);
      PutAllGet(mm[1..], k, vs, k');
    }
  }

  /** putAll of a whole multimap: its entries are put one by one. */
  function PutAllOf(mm: Multimap, entries: Multimap): Multimap
    decreases |entries|
  {
    if entries == [] then mm else PutAllOf(PutAll(mm, entries[0].0, entries[0].1), entries[1..])
  }

  lemma {:induction false} PutAllOfValues(mm: Multimap, entries: Multimap)
    ensures multiset(Values(PutAllOf(mm, entries))) == multiset(Values(mm)) + multiset(Values(entries))
    decreases |entries|
  {
    if entries != [] {
      PutAllValues(mm, entries[0].0, entries[0].1);
      PutAllOfValues(PutAll(mm, entries[0].0, entries[0].1), entries[1..]);
    }
  }

  /** Reference definition of the trace walk of predsFromTrace over the edges in walking
      order: the puts it makes, each a location and the literals found there. Edges are
      skipped until one leaves the entry location; blank edges add nothing; the walk ends
      at the first edge whose successor's precondition is `true`. */
  function Walk(env: Environment, trace: Trace, entry: Node, edges: seq<CfaEdge>,
                preAtK: PathFormula, skipped: bool): Multimap
  {
    if edges == [] then []
    else
      var t := edges[0];
      if !skipped && t.predecessor != entry then Walk(env, trace, entry, edges[1..], preAtK, false)
      else if t.blank then Walk(env, trace, entry, edges[1..], preAtK, true)
      else if Pre(env, trace, t.successor).formula == Bool(true) then []
      else
        var next := NextPrecondition(env, trace, t, preAtK);
        [(t.successor, env.literals(next.formula))] + Walk(env, trace, entry, edges[1..], next, true)
  }

  /** Every location the walk records predicates for is the successor of a non-blank
      edge at or after the first edge leaving the entry location. */
  lemma {:induction false} WalkKeys(env: Environment, trace: Trace, entry: Node, edges: seq<CfaEdge>,
                                    preAtK: PathFormula, skipped: bool, p: (Node, seq<Formula>))
    requires p in Walk(env, trace, entry, edges, preAtK, skipped)
    ensures exists j | 0 <= j < |edges| ::
      && !edges[j].blank && edges[j].successor == p.0
      && (skipped || exists j0 | 0 <= j0 <= j :: edges[j0].predecessor == entry)
  {
    var t := edges[0];
    if !skipped && t.predecessor != entry {
      WalkKeys(env, trace, entry, edges[1..], preAtK, false, p);
      var j :| 0 <= j < |edges[1..]| && !edges[1..][j].blank && edges[1..][j].successor == p.0
        && exists j0 | 0 <= j0 <= j :: edges[1..][j0].predecessor == entry;
      var j0 :| 0 <= j0 <= j && edges[1..][j0].predecessor == entry;
      assert edges[j0 + 1].predecessor == entry;
      assert !edges[j + 1].blank && edges[j + 1].successor == p.0;
    } else if t.blank {
      WalkKeys(env, trace, entry, edges[1..], preAtK, true, p);
      var j :| 0 <= j < |edges[1..]| && !edges[1..][j].blank && edges[1..][j].successor == p.0;
      assert !edges[j + 1].blank && edges[j + 1].successor == p.0;
      assert skipped || edges[0].predecessor == entry;
    } else {
      var next := NextPrecondition(env, trace, t, preAtK);
      if p != (t.successor, env.literals(next.formula)) {
        WalkKeys(env, trace, entry, edges[1..], next, true, p);
        var j :| 0 <= j < |edges[1..]| && !edges[1..][j].blank && edges[1..][j].successor == p.0;
        assert !edges[j + 1].blank && edges[j + 1].successor == p.0;
        assert skipped || edges[0].predecessor == entry;
      }
    }
  }

  /** A trace that never leaves the entry location gives no predicates. */
  lemma {:induction false} WalkWithoutEntry(env: Environment, trace: Trace, entry: Node, edges: seq<CfaEdge>,
                                            preAtK: PathFormula)
    requires forall j | 0 <= j < |edges| :: edges[j].predecessor != entry
    ensures Walk(env, trace, entry, edges, preAtK, false) == []
  {
    if edges != [] {
      WalkWithoutEntry(env, trace, entry, edges[1..], preAtK);
    }
  }

  /** Once skipping is over, the predicates of the walk are the literals of the
      preconditions it computes, keyed by the successors; the first edge whose successor
      has a `true` precondition ends it, whatever follows. */
  lemma {:induction false} WalkStopsAtTrue(env: Environment, trace: Trace, entry: Node, edges: seq<CfaEdge>,
                                           preAtK: PathFormula, j: nat)
    requires j < |edges| && !edges[j].blank && Pre(env, trace, edges[j].successor).formula == Bool(true)
    requires forall k | 0 <= k < j :: edges[k].blank
    ensures Walk(env, trace, entry, edges, preAtK, true) == []
  {
    if j > 0 {
      WalkStopsAtTrue(env, trace, entry, edges[1..], preAtK, j - 1);
    }
  }

  function Reverse(s: seq<CfaEdge>): (r: seq<CfaEdge>)
    ensures |r| == |s| && forall i | 0 <= i < |s| :: r[i] == s[|s| - 1 - i]
  {
    seq(|s|, i requires 0 <= i < |s| => s[|s| - 1 - i])
  }

  /** predsFromTrace: walks the trace's edges in reverse order, from the last one. */
  method PredsFromTrace(env: Environment, traceToEntryLocation: Trace,
                        instanciatedTracePrecond: PathFormula, entryWpLocation: Node)
    returns (result: Multimap)
    ensures result == PutAllOf([], Walk(env, traceToEntryLocation, entryWpLocation,
                                         Reverse(traceToEntryLocation), instanciatedTracePrecond, false))
  {
    result := [];
    var preAtK := instanciatedTracePrecond;
    var skippedUntilEntryWpLocation := false;
    var edgesStartingAtEntry := Reverse(traceToEntryLocation);
    ghost var walk := Walk(env, traceToEntryLocation, entryWpLocation, edgesStartingAtEntry, preAtK, false);
    var i := 0;
    while i < |edgesStartingAtEntry|
      invariant 0 <= i <= |edgesStartingAtEntry|
      invariant PutAllOf(result, Walk(env, traceToEntryLocation, entryWpLocation, edgesStartingAtEntry[i..],
                                      preAtK, skippedUntilEntryWpLocation)) == PutAllOf([], walk)
    {
      var t := edgesStartingAtEntry[i];
      assert edgesStartingAtEntry[i..][1..] == edgesStartingAtEntry[i + 1..];
      if !skippedUntilEntryWpLocation {
        if t.predecessor == entryWpLocation {
          skippedUntilEntryWpLocation := true;
        } else {
          i := i + 1;
          continue;
        }
      }
      if !t.blank {
        var preAtKp1 := Pre(env, traceToEntryLocation, t.successor);
        if preAtKp1.formula == Bool(true) {
          break;
        }
        var predsNew := env.extractNewPreds(preAtKp1.formula);
        preAtKp1 := AlterPf(preAtKp1, And([preAtKp1.formula, And(predsNew)]));
        var transFromPreAtK := env.makeAnd(AlterPf(preAtK, Not(preAtK.formula)), t);
        var instantiateWith := transFromPreAtK.ssa;
        preAtK := AlterPf(
          transFromPreAtK,
          env.candidateInterpolant(
            env.instantiate(preAtKp1.formula, instantiateWith),
            transFromPreAtK.formula,
            InstantiateAll(env, predsNew, instantiateWith),
            t.successor));
        result := PutAll(result, t.successor, env.literals(preAtK.formula));
      }
      i := i + 1;
    }
  }

  datatype PredicatePrecision = PredicatePrecision(
    locationInstancePredicates: map<(Node, int), set<AbstractionPredicate>>,
    localPredicates: map<Node, set<AbstractionPredicate>>,
    functionPredicates: map<string, set<AbstractionPredicate>>,
    globalPredicates: seq<AbstractionPredicate>)

  function MakePredicates(env: Environment, fs: seq<Formula>): (r: seq<AbstractionPredicate>)
    ensures |r| == |fs| && forall i | 0 <= i < |fs| :: r[i] == env.makePredicate(fs[i])
  {
    seq(|fs|, i requires 0 <= i < |fs| => env.makePredicate(fs[i]))
  }

  /** predicatesAsGlobalPrecision: every local predicate, then every global one, goes to
      the global list; the other predicate maps stay empty. */
  method PredicatesAsGlobalPrecision(env: Environment, globalPreds: seq<Formula>, localPreds: Multimap)
    returns (r: PredicatePrecision)
    ensures r.locationInstancePredicates == map[] && r.localPredicates == map[] && r.functionPredicates == map[]
    ensures r.globalPredicates == MakePredicates(env, Values(localPreds) + globalPreds)
  {
    var globalPredicates: seq<AbstractionPredicate> := [];
    var localValues := Values(localPreds);
    for i := 0 to |localValues|
      invariant globalPredicates == MakePredicates(env, localValues[..i])
    {
      globalPredicates := globalPredicates + [env.makePredicate(localValues[i])];
    }
    assert localValues[..|localValues|] == localValues;
    for i := 0 to |globalPreds|
      invariant globalPredicates == MakePredicates(env, localValues + globalPreds[..i])
    {
      globalPredicates := globalPredicates + [env.makePredicate(globalPreds[i])];
    }
    assert globalPreds[..|globalPreds|] == globalPreds;
    r := PredicatePrecision(map[], map[], map[], globalPredicates);
  }

  /** interpolate: the first condition strengthened by the interpolants between its
      negation and the trace's path formula, then generalised against the second. */
  method Interpolate(env: Environment, firstCond: Formula, secondCond: Formula,
                     pfViolationTrace: PathFormula, itpLocation: Node) returns (r: Formula)
    ensures r == Generalised(env, firstCond, secondCond, pfViolationTrace, itpLocation)
  {
    var itps := GetInterpolants(env, [Not(firstCond), pfViolationTrace.formula]);
    ghost var q := [Not(firstCond), pfViolationTrace.formula];
    if env.unsat(q) {
      var itp := env.interpolant(q, 1);
      assert itp in PrefixInterpolants(env, q);
      assert itp in (set f | f in itps);
      assert |itps| == 1;
      assert itps == [itp];
    }
    var f := And([firstCond, And(itps)]);
    r := env.candidateInterpolant(f, secondCond, itps, itpLocation);
  }

  /** The first condition strengthened by the interpolant between its negation and the
      trace's path formula (none when they are satisfiable together), then generalised
      against the second condition by interpolation with candidates. */
  function Generalised(env: Environment, firstCond: Formula, secondCond: Formula,
                       pfTrace: PathFormula, itpLocation: Node): Formula
  {
    var q := [Not(firstCond), pfTrace.formula];
    var itps := if env.unsat(q) then [env.interpolant(q, 1)] else [];
    env.candidateInterpolant(And([firstCond, And(itps)]), secondCond, itps, itpLocation)
  }

  /** The two preconditions of refine after enrichment: the violation one, generalised
      against the valid one, then the valid one, generalised against the enriched
      violation one. Each keeps the SSA map of its instantiated precondition. */
  function EnrichedPreconditions(env: Environment, traceFromViolation: Trace,
                                 traceFromValidTermination: Trace, wpLocation: Node)
    : (r: (PathFormula, PathFormula))
    ensures r.0.ssa == Pre(env, traceFromViolation, wpLocation).ssa
    ensures r.1.ssa == Pre(env, traceFromValidTermination, wpLocation).ssa
    ensures r.0.length == 1 && r.1.length == 1
  {
    var pcViolation := Pre(env, traceFromViolation, wpLocation);
    var pcValid := Pre(env, traceFromValidTermination, wpLocation);
    var enrichedViolation := AlterPf(pcViolation, Generalised(env, pcViolation.formula, pcValid.formula,
                                     env.pathFormula(traceFromViolation, wpLocation), wpLocation));
    var enrichedValid := AlterPf(pcValid, Generalised(env, pcValid.formula, enrichedViolation.formula,
                                 env.pathFormula(traceFromValidTermination, wpLocation), wpLocation));
    (enrichedViolation, enrichedValid)
  }

  /** refine: preconditions of both traces at the weakest-precondition location,
      enriched by interpolation, give the global predicates; the walks along both traces
      give the local ones; all of them end up in the global list, the local ones (those
      of the violation trace first) before the global ones. */
  method Refine(env: Environment, traceFromViolation: Trace, traceFromValidTermination: Trace, wpLocation: Node)
    returns (r: PredicatePrecision)
    ensures r.locationInstancePredicates == map[] && r.localPredicates == map[] && r.functionPredicates == map[]
    ensures var (pcViolation, pcValid) := EnrichedPreconditions(env, traceFromViolation, traceFromValidTermination,
                                                                wpLocation);
      var predsViolation := Walk(env, traceFromViolation, wpLocation, Reverse(traceFromViolation), pcViolation, false);
      var predsValid := Walk(env, traceFromValidTermination, wpLocation, Reverse(traceFromValidTermination),
                             pcValid, false);
      var globalPreds := env.literals(pcViolation.formula) + env.literals(pcValid.formula);
      && r.globalPredicates ==
           MakePredicates(env, Values(PutAllOf(PutAllOf([], PutAllOf([], predsViolation)), PutAllOf([], predsValid)))
                               + globalPreds)
      && multiset(r.globalPredicates) ==
           multiset(MakePredicates(env, Values(PutAllOf([], predsViolation)) + Values(PutAllOf([], predsValid))
                                        + globalPreds))
  {
    var pcViolation := Pre(env, traceFromViolation, wpLocation);
    var pcValid := Pre(env, traceFromValidTermination, wpLocation);
    var pfViolationTrace := env.pathFormula(traceFromViolation, wpLocation);
    var pfValidTrace := env.pathFormula(traceFromValidTermination, wpLocation);
    var itpViolation := Interpolate(env, pcViolation.formula, pcValid.formula, pfViolationTrace, wpLocation);
    pcViolation := AlterPf(pcViolation, itpViolation);
    var itpValid := Interpolate(env, pcValid.formula, pcViolation.formula, pfValidTrace, wpLocation);
    pcValid := AlterPf(pcValid, itpValid);
    var globalPreds := env.literals(pcViolation.formula) + env.literals(pcValid.formula);
    var predsViolation := PredsFromTrace(env, traceFromViolation, pcViolation, wpLocation);
    var localPreds := PutAllOf([], predsViolation);
    var predsFromValid := PredsFromTrace(env, traceFromValidTermination, pcValid, wpLocation);
    localPreds := PutAllOf(localPreds, predsFromValid);
    r := PredicatesAsGlobalPrecision(env, globalPreds, localPreds);
    CombinedPredicates(env, predsViolation, predsFromValid, globalPreds);
  }

  /** The global list built from both walks holds the predicates of both, plus the
      global ones. */
  lemma CombinedPredicates(env: Environment, predsViolation: Multimap, predsValid: Multimap, globalPreds: seq<Formula>)
    ensures multiset(MakePredicates(env, Values(PutAllOf(PutAllOf([], predsViolation), predsValid)) + globalPreds))
         == multiset(MakePredicates(env, Values(predsViolation) + Values(predsValid) + globalPreds))
  {
    var localPreds := PutAllOf(PutAllOf([], predsViolation), predsValid);
    PutAllOfValues([], predsViolation);
    PutAllOfValues(PutAllOf([], predsViolation), predsValid);
    assert Values([]) == [];
    assert multiset(Values(localPreds)) == multiset(Values(predsViolation)) + multiset(Values(predsValid));
    MakePredicatesMultiset(env, Values(localPreds) + globalPreds,
                           Values(predsViolation) + Values(predsValid) + globalPreds);
  }

  /** Predicates made from the same formulas, in any order, are the same predicates. */
  lemma {:induction false} MakePredicatesMultiset(env: Environment, a: seq<Formula>, b: seq<Formula>)
    requires multiset(a) == multiset(b)
    ensures multiset(MakePredicates(env, a)) == multiset(MakePredicates(env, b))
    decreases |a|
  {
    if a == [] {
      assert b == [];
    } else {
      var x := a[0];
      assert x in multiset(b);
      var k :| 0 <= k < |b| && b[k] == x;
      var b' := b[..k] + b[k + 1..];
      assert b == b[..k] + [x] + b[k + 1..];
      assert a == [x] + a[1..];
      assert multiset{x} + multiset(a[1..]) == multiset{x} + multiset(b');
      MultisetCancel(x, multiset(a[1..]), multiset(b'));
      MakePredicatesMultiset(env, a[1..], b');
      MakePredicatesAppend(env, [x], a[1..]);
      MakePredicatesAppend(env, b[..k] + [x], b[k + 1..]);
      MakePredicatesAppend(env, b[..k], [x]);
      MakePredicatesAppend(env, b[..k], b[k + 1..]);
    }
  }

  lemma MultisetCancel(x: Formula, m: multiset<Formula>, n: multiset<Formula>)
    requires multiset{x} + m == multiset{x} + n
    ensures m == n
  {
    forall e
      ensures m[e] == n[e]
    {
      assert (multiset{x} + m)[e] == (multiset{x} + n)[e];
    }
  }

  lemma MakePredicatesAppend(env: Environment, a: seq<Formula>, b: seq<Formula>)
    ensures MakePredicates(env, a + b) == MakePredicates(env, a) + MakePredicates(env, b)
  {
  }
}
