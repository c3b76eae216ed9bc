/** The inductive weakening of a path formula (InductiveWeakeningManager):
    atoms over intermediate SSA versions are replaced by `true`, every conjunct of every
    conjunction is guarded by a fresh selector, and a one-pass greedy search over the
    selectors, run against an incremental solver stack, decides which conjuncts may be
    dropped while the inductiveness query stays unsatisfiable. The solver and the
    formula manager's rewriting steps are parameters. */
module InductiveWeakening {
  import opened Formulas
  import opened Wrappers

  // ---------------------------------------------------------------------------
  // Step 1: SlicingPreprocessor.visitAtom

  /** Every atom for which `hasDead` reports a dead (intermediate) variable with
      respect to the final SSA map becomes `true`; everything else is rebuilt as is. */
  function DropIntermediate(f: Formula, ssa: SsaMap, hasDead: (nat, SsaMap) -> bool): Formula
  {
    match f
    case Atom(a) => if hasDead(a, ssa) then Bool(true) else f
    case Not(g) => Not(DropIntermediate(g, ssa, hasDead))
    case And(args) => And(seq(|args|, i requires 0 <= i < |args| => DropIntermediate(args[i], ssa, hasDead)))
    case Or(args) => Or(seq(|args|, i requires 0 <= i < |args| => DropIntermediate(args[i], ssa, hasDead)))
    case _ => f
  }

  /** The atoms left are exactly the input's atoms without a dead variable. */
  lemma {:induction false} DropIntermediateAtoms(f: Formula, ssa: SsaMap, hasDead: (nat, SsaMap) -> bool)
    ensures Atoms(DropIntermediate(f, ssa, hasDead)) == set a | a in Atoms(f) && !hasDead(a, ssa)
  {
    match f
    case Atom(a) =>
    case Bool(_) =>
    case Selector(_) =>
    case Not(g) => DropIntermediateAtoms(g, ssa, hasDead);
    case And(args) =>
      forall i | 0 <= i < |args| { DropIntermediateAtoms(args[i], ssa, hasDead); }
      DropIntermediateAtomsOf(f, ssa, hasDead);
    case Or(args) =>
      forall i | 0 <= i < |args| { DropIntermediateAtoms(args[i], ssa, hasDead); }
      DropIntermediateAtomsOf(f, ssa, hasDead);
  }

  lemma DropIntermediateAtomsOf(f: Formula, ssa: SsaMap, hasDead: (nat, SsaMap) -> bool)
    requires f.And? || f.Or?
    requires forall i | 0 <= i < |f.args| ::
      Atoms(DropIntermediate(f.args[i], ssa, hasDead)) == set a | a in Atoms(f.args[i]) && !hasDead(a, ssa)
    ensures Atoms(DropIntermediate(f, ssa, hasDead)) == set a | a in Atoms(f) && !hasDead(a, ssa)
  {
    var args := f.args;
    var r := DropIntermediate(f, ssa, hasDead).args;
    assert |r| == |args|;
    forall a | a in Atoms(DropIntermediate(f, ssa, hasDead))
      ensures a in Atoms(f) && !hasDead(a, ssa)
    {
      var i :| 0 <= i < |r| && a in Atoms(r[i]);
      assert r[i] == DropIntermediate(args[i], ssa, hasDead);
    }
    forall a | a in Atoms(f) && !hasDead(a, ssa)
      ensures a in Atoms(DropIntermediate(f, ssa, hasDead))
    {
      var i :| 0 <= i < |args| && a in Atoms(args[i]);
      assert r[i] == DropIntermediate(args[i], ssa, hasDead);
      assert a in Atoms(r[i]);
    }
  }

  /** Without dead variables the preprocessing step is the identity. */
  lemma {:induction false} DropIntermediateIdentity(f: Formula, ssa: SsaMap, hasDead: (nat, SsaMap) -> bool)
    requires forall a | a in Atoms(f) :: !hasDead(a, ssa)
    ensures DropIntermediate(f, ssa, hasDead) == f
  {
    match f
    case Atom(a) =>
    case Bool(_) =>
    case Selector(_) =>
    case Not(g) => DropIntermediateIdentity(g, ssa, hasDead);
    case And(args) =>
      forall i | 0 <= i < |args|
        ensures DropIntermediate(args[i], ssa, hasDead) == args[i]
      {
        assert Atoms(args[i]) <= Atoms(f);
        DropIntermediateIdentity(args[i], ssa, hasDead);
      }
    case Or(args) =>
      forall i | 0 <= i < |args|
        ensures DropIntermediate(args[i], ssa, hasDead) == args[i]
      {
        assert Atoms(args[i]) <= Atoms(f);
        DropIntermediateIdentity(args[i], ssa, hasDead);
      }
  }

  // ---------------------------------------------------------------------------
  // Step 2: ConjunctionAnnotator.visitAnd / makeFreshSelector

  /** `(or p a)` with `p` a selector variable. */
  predicate IsGuarded(a: Formula)
  {
    a.Or? && |a.args| == 2 && a.args[0].Selector?
  }

  /** Every operand of every conjunction is guarded by a selector. */
  predicate Annotated(g: Formula)
  {
    match g
    case Not(h) => Annotated(h)
    case And(args) => forall i | 0 <= i < |args| :: IsGuarded(args[i]) && Annotated(args[i].args[1])
    case Or(args) => forall i | 0 <= i < |args| :: Annotated(args[i])
    case _ => true
  }

  /** Removes the selector guards again: the inverse of the annotation. */
  function Strip(g: Formula): Formula
  {
    match g
    case Not(h) => Not(Strip(h))
    case And(args) =>
      And(seq(|args|, i requires 0 <= i < |args| =>
        if IsGuarded(args[i]) then Strip(args[i].args[1]) else Strip(args[i])))
    case Or(args) => Or(seq(|args|, i requires 0 <= i < |args| => Strip(args[i])))
    case _ => g
  }

  /** The selector ids occurring in a formula, with multiplicity. */
  function Selectors(g: Formula): multiset<nat>
    decreases g, 1
  {
    match g
    case Selector(k) => multiset{k}
    case Not(h) => Selectors(h)
    case And(args) => SelectorsOf(args)
    case Or(args) => SelectorsOf(args)
    case _ => multiset{}
  }

  function SelectorsOf(args: seq<Formula>): multiset<nat>
    decreases args, 0
  {
    if args == [] then multiset{} else Selectors(args[0]) + SelectorsOf(args[1..])
  }

  /** The ids `lo, lo + 1, ..., hi - 1`, drawn in this order from the id generator. */
  function Range(lo: nat, hi: nat): seq<nat>
    decreases hi - lo
  {
    if lo >= hi then [] else [lo] + Range(lo + 1, hi)
  }

  /** The ids `lo .. hi - 1`, each once, as a multiset. */
  function Ids(lo: nat, hi: nat): multiset<nat>
    decreases hi - lo
  {
    if lo >= hi then multiset{} else multiset{lo} + Ids(lo + 1, hi)
  }

  /** `Ids` holds exactly the ids in the range, each once. */
  lemma {:induction false} IdsExactlyOnce(lo: nat, hi: nat, x: nat)
    ensures Ids(lo, hi)[x] == if lo <= x < hi then 1 else 0
    decreases hi - lo
  {
    if lo < hi {
      IdsExactlyOnce(lo + 1, hi, x);
      var rest := Ids(lo + 1, hi);
      assert Ids(lo, hi) == multiset{lo} + rest;
    }
  }

  /** `Ids` is the multiset of `Range`. */
  lemma {:induction false} IdsOfRange(lo: nat, hi: nat)
    ensures Ids(lo, hi) == multiset(Range(lo, hi))
    decreases hi - lo
  {
    if lo < hi {
      IdsOfRange(lo + 1, hi);
      assert Range(lo, hi) == [lo] + Range(lo + 1, hi);
    }
  }

  lemma {:induction false} IdsSplit(lo: nat, mid: nat, hi: nat)
    requires lo <= mid <= hi
    ensures Ids(lo, hi) == Ids(lo, mid) + Ids(mid, hi)
    decreases mid - lo
  {
    if lo < mid {
      IdsSplit(lo + 1, mid, hi);
      AddFirst(multiset{lo}, Ids(lo + 1, mid), Ids(mid, hi), Ids(lo + 1, hi));
    }
  }

  lemma AddFirst(a: multiset<nat>, b: multiset<nat>, c: multiset<nat>, d: multiset<nat>)
    requires d == b + c
    ensures a + d == (a + b) + c
  {
  }

  /** Guards the already annotated operands with selectors `first, first + 1, ...`. */
  function Guard(args: seq<Formula>, first: nat): (r: seq<Formula>)
    ensures |r| == |args|
    decreases |args|
  {
    if args == [] then [] else [Or([Selector(first), args[0]])] + Guard(args[1..], first + 1)
  }

  lemma {:induction false} GuardAt(args: seq<Formula>, first: nat, i: nat)
    requires i < |args|
    ensures Guard(args, first)[i] == Or([Selector(first + i), args[i]])
    decreases i
  {
    if i > 0 {
      GuardAt(args[1..], first + 1, i - 1);
    }
  }

  /** A guarded operand carries its selector besides its own selectors. */
  lemma GuardedSelectors(first: nat, a: Formula)
    ensures Selectors(Or([Selector(first), a])) == multiset{first} + Selectors(a)
  {
    var pair := [Selector(first), a];
    assert pair[1..] == [a];
    assert [a][1..] == [];
    assert SelectorsOf([a]) == Selectors(a) + SelectorsOf([]);
    assert SelectorsOf(pair) == Selectors(Selector(first)) + SelectorsOf([a]);
  }

  lemma {:induction false} GuardSelectors(args: seq<Formula>, first: nat)
    ensures SelectorsOf(Guard(args, first)) == Ids(first, first + |args|) + SelectorsOf(args)
    decreases |args|
  {
    if args != [] {
      GuardSelectors(args[1..], first + 1);
      assert first + 1 + |args[1..]| == first + |args|;
      GuardedSelectors(first, args[0]);
      GuardSelectorsStep(Or([Selector(first), args[0]]), Guard(args[1..], first + 1), Selectors(args[0]),
                         SelectorsOf(args[1..]), first, Ids(first + 1, first + |args|));
    }
  }

  lemma GuardSelectorsStep(h: Formula, t: seq<Formula>, head: multiset<nat>, tail: multiset<nat>,
                           first: nat, rest: multiset<nat>)
    requires Selectors(h) == multiset{first} + head && SelectorsOf(t) == rest + tail
    ensures SelectorsOf([h] + t) == (multiset{first} + rest) + (head + tail)
  {
    assert ([h] + t)[0] == h;
    assert ([h] + t)[1..] == t;
  }

  lemma GuardAnnotated(hs: seq<Formula>, n: nat, args: seq<Formula>)
    requires |hs| == |args|
    requires forall i | 0 <= i < |args| :: Annotated(hs[i]) && Strip(hs[i]) == args[i]
    ensures Annotated(And(Guard(hs, n))) && Strip(And(Guard(hs, n))) == And(args)
  {
    var g := Guard(hs, n);
    forall i | 0 <= i < |g|
      ensures IsGuarded(g[i]) && g[i].args[1] == hs[i] && Annotated(g[i].args[1])
    {
      GuardAt(hs, n, i);
    }
    var sg := Strip(And(g)).args;
    forall i | 0 <= i < |g| ensures sg[i] == args[i] {
      assert IsGuarded(g[i]);
      assert sg[i] == Strip(g[i].args[1]);
    }
    assert sg == args;
  }

  lemma NotAnnotated(g: Formula, h: Formula, next: nat, n: nat)
    requires Annotated(h) && Strip(h) == g
    requires NoSelectors(g) ==> Selectors(h) == Ids(next, n)
    ensures Annotated(Not(h)) && Strip(Not(h)) == Not(g)
    ensures NoSelectors(Not(g)) ==> Selectors(Not(h)) == Ids(next, n)
  {
  }

  lemma OrAnnotated(hs: seq<Formula>, args: seq<Formula>, next: nat, n: nat)
    requires |hs| == |args|
    requires forall i | 0 <= i < |args| :: Annotated(hs[i]) && Strip(hs[i]) == args[i]
    requires AllWithoutSelectors(args) ==> SelectorsOf(hs) == Ids(next, n)
    ensures Annotated(Or(hs)) && Strip(Or(hs)) == Or(args)
    ensures NoSelectors(Or(args)) ==> Selectors(Or(hs)) == Ids(next, n)
  {
    assert Strip(Or(hs)).args == args;
  }

  predicate AllWithoutSelectors(args: seq<Formula>)
  {
    forall i | 0 <= i < |args| :: NoSelectors(args[i])
  }

  /** The selectors of a guarded conjunction: the fresh ones `n ..` and those of the
      operands, which came from `next .. n - 1`. */
  lemma GuardedConjunctionSelectors(hs: seq<Formula>, next: nat, n: nat)
    requires next <= n && SelectorsOf(hs) == Ids(next, n)
    ensures Selectors(And(Guard(hs, n))) == Ids(next, n + |hs|)
  {
    GuardSelectors(hs, n);
    IdsSplit(next, n, n + |hs|);
    ConjunctionSelectors(Guard(hs, n), Ids(n, n + |hs|), SelectorsOf(hs),
                         Ids(next, n), Ids(next, n + |hs|));
  }

  lemma ConjunctionSelectors(g: seq<Formula>, a: multiset<nat>, b: multiset<nat>, c: multiset<nat>, d: multiset<nat>)
    requires SelectorsOf(g) == a + b && b == c && d == c + a
    ensures Selectors(And(g)) == d
  {
  }

  /** The annotator, bottom up: operands first, then one fresh selector per operand of
      a conjunction. `next` is the id generator's state; the second component of the
      result is its state afterwards, which never goes back. */
  function Annotate(f: Formula, next: nat): (r: (Formula, nat))
    ensures next <= r.1
    decreases f, 1
  {
    match f
    case Not(g) =>
      var hn := Annotate(g, next);
      (Not(hn.0), hn.1)
    case And(args) =>
      var hsn := AnnotateAll(args, next);
      (And(Guard(hsn.0, hsn.1)), hsn.1 + |hsn.0|)
    case Or(args) =>
      var hsn := AnnotateAll(args, next);
      (Or(hsn.0), hsn.1)
    case Bool(_) => (f, next)
    case Atom(_) => (f, next)
    case Selector(_) => (f, next)
  }

  function AnnotateAll(args: seq<Formula>, next: nat): (r: (seq<Formula>, nat))
    ensures next <= r.1 && |r.0| == |args|
    decreases args, 0
  {
    if args == [] then ([], next)
    else
      var hn := Annotate(args[0], next);
      var tn := AnnotateAll(args[1..], hn.1);
      ([hn.0] + tn.0, tn.1)
  }

  /** The annotation is undone by `Strip`, guards every conjunct, and, on a formula of
      the program, draws exactly the selector ids `next .. r.1 - 1`, each once. */
  lemma {:induction false} AnnotateCorrect(f: Formula, next: nat)
    ensures var r := Annotate(f, next);
      && Annotated(r.0) && Strip(r.0) == f
      && (NoSelectors(f) ==> Selectors(r.0) == Ids(next, r.1))
    decreases f, 2
  {
    match f
    case Not(g) => AnnotateNotCorrect(g, next);
    case And(args) => AnnotateAndCorrect(args, next);
    case Or(args) => AnnotateOrCorrect(args, next);
    case Bool(_) =>
    case Atom(_) =>
    case Selector(_) =>
  }

  lemma {:induction false} AnnotateNotCorrect(g: Formula, next: nat)
    ensures var r := Annotate(Not(g), next);
      && Annotated(r.0) && Strip(r.0) == Not(g)
      && (NoSelectors(Not(g)) ==> Selectors(r.0) == Ids(next, r.1))
    decreases Not(g), 1
  {
    var hn := Annotate(g, next);
    AnnotateCorrect(g, next);
    NotAnnotated(g, hn.0, next, hn.1);
  }

  lemma {:induction false} AnnotateAndCorrect(args: seq<Formula>, next: nat)
    ensures var r := Annotate(And(args), next);
      && Annotated(r.0) && Strip(r.0) == And(args)
      && (NoSelectors(And(args)) ==> Selectors(r.0) == Ids(next, r.1))
    decreases And(args), 1
  {
    var hsn := AnnotateAll(args, next);
    var g := And(Guard(hsn.0, hsn.1));
    assert Annotate(And(args), next) == (g, hsn.1 + |hsn.0|);
    AnnotateAllCorrect(args, next);
    GuardAnnotated(hsn.0, hsn.1, args);
    if NoSelectors(And(args)) {
      assert AllWithoutSelectors(args);
      GuardedConjunctionSelectors(hsn.0, next, hsn.1);
      assert Selectors(g) == Ids(next, hsn.1 + |hsn.0|);
    }
  }

  lemma {:induction false} AnnotateOrCorrect(args: seq<Formula>, next: nat)
    ensures var r := Annotate(Or(args), next);
      && Annotated(r.0) && Strip(r.0) == Or(args)
      && (NoSelectors(Or(args)) ==> Selectors(r.0) == Ids(next, r.1))
    decreases Or(args), 1
  {
    var hsn := AnnotateAll(args, next);
    AnnotateAllCorrect(args, next);
    OrAnnotated(hsn.0, args, next, hsn.1);
  }

  lemma {:induction false} AnnotateAllCorrect(args: seq<Formula>, next: nat)
    ensures var r := AnnotateAll(args, next);
      && (forall i | 0 <= i < |args| :: Annotated(r.0[i]) && Strip(r.0[i]) == args[i])
      && (AllWithoutSelectors(args) ==> SelectorsOf(r.0) == Ids(next, r.1))
    decreases args, 0
  {
    if args != [] {
      var hn := Annotate(args[0], next);
      var tn := AnnotateAll(args[1..], hn.1);
      AnnotateCorrect(args[0], next);
      AnnotateAllCorrect(args[1..], hn.1);
      var r := AnnotateAll(args, next);
      assert r.0 == [hn.0] + tn.0;
      assert r.0[1..] == tn.0;
      forall i | 0 <= i < |args| ensures Annotated(r.0[i]) && Strip(r.0[i]) == args[i] {
        if i > 0 {
          assert r.0[i] == tn.0[i - 1] && args[i] == args[1..][i - 1];
        }
      }
      if AllWithoutSelectors(args) {
        assert AllWithoutSelectors(args[1..]) by {
          forall i | 0 <= i < |args[1..]| ensures NoSelectors(args[1..][i]) {
            assert args[1..][i] == args[i + 1];
          }
        }
        IdsSplit(next, hn.1, tn.1);
        assert SelectorsOf(r.0) == Selectors(hn.0) + SelectorsOf(tn.0);
      }
    }
  }

  /** Replacing the selectors by truth values. `m` is the replacement map of the
      slicer: selector formula to `true` or `false`; other subformulas stay. */
  function Substitute(g: Formula, m: map<Formula, Formula>): Formula
  {
    if g in m then m[g]
    else match g
      case Not(h) => Not(Substitute(h, m))
      case And(args) => And(seq(|args|, i requires 0 <= i < |args| => Substitute(args[i], m)))
      case Or(args) => Or(seq(|args|, i requires 0 <= i < |args| => Substitute(args[i], m)))
      case _ => g
  }

  /** A replacement map whose keys are selectors and whose values are constants. */
  predicate SelectorReplacement(m: map<Formula, Formula>)
  {
    forall x | x in m :: x.Selector? && m[x].Bool?
  }

  lemma {:induction false} SubstituteSelectorFree(f: Formula, m: map<Formula, Formula>)
    requires SelectorReplacement(m) && NoSelectors(f)
    ensures Substitute(f, m) == f
  {
    assert f !in m;
    match f
    case Not(h) => SubstituteSelectorFree(h, m);
    case And(args) =>
      forall i | 0 <= i < |args| ensures Substitute(args[i], m) == args[i] {
        SubstituteSelectorFree(args[i], m);
      }
    case Or(args) =>
      forall i | 0 <= i < |args| ensures Substitute(args[i], m) == args[i] {
        SubstituteSelectorFree(args[i], m);
      }
    case _ =>
  }

  lemma EvalSelectorFree(f: Formula, atoms: nat -> bool, s1: nat -> bool, s2: nat -> bool)
    requires NoSelectors(f)
    ensures Eval(f, atoms, s1) == Eval(f, atoms, s2)
  {
  }

  lemma StripAtom(h: Formula)
    requires Strip(h).Atom?
    ensures h == Strip(h)
  {
    match h
    case Not(_) =>
    case And(_) =>
    case Or(_) =>
    case _ =>
  }

  /** Substitution acts operand-wise on a conjunction or a disjunction. */
  lemma SubstituteArgs(g: Formula, m: map<Formula, Formula>, i: int)
    requires (g.And? || g.Or?) && g !in m && 0 <= i < |g.args|
    ensures Substitute(g, m).args[i] == Substitute(g.args[i], m)
    ensures |Substitute(g, m).args| == |g.args|
  {
  }

  /** Strip acts operand-wise on an annotated conjunction. */
  lemma StripAndArg(g: Formula, i: int)
    requires g.And? && Annotated(g) && 0 <= i < |g.args|
    ensures IsGuarded(g.args[i]) && Annotated(g.args[i].args[1])
    ensures Strip(g).args[i] == Strip(g.args[i].args[1]) && |Strip(g).args| == |g.args|
  {
  }

  lemma StripOrArg(g: Formula, i: int)
    requires g.Or? && Annotated(g) && 0 <= i < |g.args|
    ensures Annotated(g.args[i])
    ensures Strip(g).args[i] == Strip(g.args[i]) && |Strip(g).args| == |g.args|
  {
  }

  /** Soundness of the weakening: in negation normal form, whatever truth values the
      selectors receive, the sliced formula is implied by the formula it came from.
      Dropping conjuncts only ever weakens. */
  lemma {:induction false} SubstitutionWeakens(g: Formula, m: map<Formula, Formula>, atoms: nat -> bool, sels: nat -> bool)
    requires Annotated(g) && NoSelectors(Strip(g)) && IsNnf(Strip(g))
    requires SelectorReplacement(m)
    requires Eval(Strip(g), atoms, sels)
    ensures Eval(Substitute(g, m), atoms, sels)
  {
    assert g !in m by { assert !g.Selector?; }
    match g
    case Bool(_) =>
    case Atom(_) =>
    case Not(h) =>
      StripAtom(h);
      assert h !in m;
    case And(args) =>
      forall i | 0 <= i < |args| ensures Eval(Substitute(g, m).args[i], atoms, sels) {
        StripAndArg(g, i);
        SubstituteArgs(g, m, i);
        var a := args[i].args[1];
        SubstitutionWeakens(a, m, atoms, sels);
        assert args[i] !in m;
        SubstituteArgs(args[i], m, 1);
      }
      if |args| > 0 { SubstituteArgs(g, m, 0); }
    case Or(args) =>
      var sa := Strip(g).args;
      var k :| 0 <= k < |sa| && Eval(sa[k], atoms, sels);
      StripOrArg(g, k);
      SubstitutionWeakens(args[k], m, atoms, sels);
      SubstituteArgs(g, m, k);
  }

  /** Keeping every conjunct (all selectors `false`) gives back the original formula's
      meaning. */
  lemma {:induction false} SubstitutionKeepingAll(g: Formula, m: map<Formula, Formula>, atoms: nat -> bool, sels: nat -> bool)
    requires Annotated(g) && NoSelectors(Strip(g))
    requires forall x | x in m :: x.Selector? && m[x] == Bool(false)
    requires forall k :: !sels(k)
    ensures Eval(Substitute(g, m), atoms, sels) == Eval(Strip(g), atoms, sels)
    decreases g, 1
  {
    assert g !in m by { assert !g.Selector?; }
    match g
    case Bool(_) =>
    case Atom(_) =>
    case Not(h) =>
      SubstitutionKeepingAll(h, m, atoms, sels);
    case And(_) => KeepingAllAnd(g, m, atoms, sels);
    case Or(_) => KeepingAllOr(g, m, atoms, sels);
  }

  lemma {:induction false} KeepingAllAnd(g: Formula, m: map<Formula, Formula>, atoms: nat -> bool, sels: nat -> bool)
    requires g.And? && g !in m && Annotated(g) && NoSelectors(Strip(g))
    requires forall x | x in m :: x.Selector? && m[x] == Bool(false)
    requires forall k :: !sels(k)
    ensures Eval(Substitute(g, m), atoms, sels) == Eval(Strip(g), atoms, sels)
    decreases g, 0
  {
    var args := g.args;
    var sa := Strip(g).args;
    forall i | 0 <= i < |args|
      ensures Eval(Substitute(g, m).args[i], atoms, sels) == Eval(sa[i], atoms, sels)
    {
      StripAndArg(g, i);
      SubstituteArgs(g, m, i);
      var a := args[i].args[1];
      SubstitutionKeepingAll(a, m, atoms, sels);
      assert args[i] !in m;
      SubstituteArgs(args[i], m, 0);
      SubstituteArgs(args[i], m, 1);
      assert !Eval(Substitute(args[i], m).args[0], atoms, sels);
    }
    if |args| > 0 { SubstituteArgs(g, m, 0); StripAndArg(g, 0); }
    else { assert Strip(g).args == []; }
  }

  lemma {:induction false} KeepingAllOr(g: Formula, m: map<Formula, Formula>, atoms: nat -> bool, sels: nat -> bool)
    requires g.Or? && g !in m && Annotated(g) && NoSelectors(Strip(g))
    requires forall x | x in m :: x.Selector? && m[x] == Bool(false)
    requires forall k :: !sels(k)
    ensures Eval(Substitute(g, m), atoms, sels) == Eval(Strip(g), atoms, sels)
    decreases g, 0
  {
    var args := g.args;
    var sa := Strip(g).args;
    forall i | 0 <= i < |args|
      ensures Eval(Substitute(g, m).args[i], atoms, sels) == Eval(sa[i], atoms, sels)
    {
      StripOrArg(g, i);
      SubstituteArgs(g, m, i);
      SubstitutionKeepingAll(args[i], m, atoms, sels);
    }
    if |args| > 0 { SubstituteArgs(g, m, 0); StripOrArg(g, 0); }
  }

  /** End to end for steps 2 and 3: whichever conjuncts the search drops, the sliced
      formula follows from the preprocessed input. */
  lemma AnnotatedSliceWeakens(f: Formula, next: nat, m: map<Formula, Formula>, atoms: nat -> bool, sels: nat -> bool)
    requires NoSelectors(f) && IsNnf(f) && SelectorReplacement(m)
    requires Eval(f, atoms, sels)
    ensures Eval(Substitute(Annotate(f, next).0, m), atoms, sels)
  {
    AnnotateCorrect(f, next);
    SubstitutionWeakens(Annotate(f, next).0, m, atoms, sels);
  }

  // ---------------------------------------------------------------------------
  // Step 3: formulaSlicing, the greedy selector search

  /** The query stays unsatisfiable with exactly the selectors of `selection` forced. */
  predicate UnsatWith(unsat: seq<Formula> -> bool, query: Formula, selection: seq<Formula>)
  {
    unsat([query, And(selection)])
  }

  /** Reference definition of the one-pass search, without index arithmetic: each
      selector of `rest` in turn is released (its conjunct becomes mandatory) when the
      query stays unsatisfiable without it, and kept forced otherwise. */
  function Greedy(kept: seq<Formula>, rest: seq<Formula>, query: Formula, unsat: seq<Formula> -> bool): seq<Formula>
    decreases |rest|
  {
    if rest == [] then kept
    else if UnsatWith(unsat, query, kept + rest[1..]) then Greedy(kept, rest[1..], query, unsat)
    else Greedy(kept + [rest[0]], rest[1..], query, unsat)
  }

  /** The search keeps `kept` as a prefix and takes the rest from `rest`, in order. */
  lemma {:induction false} GreedyIsSubsequence(kept: seq<Formula>, rest: seq<Formula>, query: Formula, unsat: seq<Formula> -> bool)
    ensures var r := Greedy(kept, rest, query, unsat);
      |kept| <= |r| <= |kept| + |rest| && r[..|kept|] == kept &&
      multiset(r) <= multiset(kept) + multiset(rest)
    decreases |rest|
  {
    if rest != [] {
      assert rest == [rest[0]] + rest[1..];
      if UnsatWith(unsat, query, kept + rest[1..]) {
        GreedyIsSubsequence(kept, rest[1..], query, unsat);
      } else {
        GreedyIsSubsequence(kept + [rest[0]], rest[1..], query, unsat);
        var r := Greedy(kept, rest, query, unsat);
        assert r[..|kept|] == (kept + [rest[0]])[..|kept|];
      }
    }
  }

  /** The search never leaves an unsatisfiable query: the final selection is
      unsatisfiable whenever the starting one is. */
  lemma {:induction false} GreedyKeepsUnsat(kept: seq<Formula>, rest: seq<Formula>, query: Formula, unsat: seq<Formula> -> bool)
    requires UnsatWith(unsat, query, kept + rest)
    ensures UnsatWith(unsat, query, Greedy(kept, rest, query, unsat))
    decreases |rest|
  {
    if rest == [] {
      assert kept + rest == kept;
    } else {
      if UnsatWith(unsat, query, kept + rest[1..]) {
        GreedyKeepsUnsat(kept, rest[1..], query, unsat);
      } else {
        assert kept + rest == (kept + [rest[0]]) + rest[1..];
        GreedyKeepsUnsat(kept + [rest[0]], rest[1..], query, unsat);
      }
    }
  }

  /** The solver is monotone in the forced selectors: forcing more of them can only
      keep an unsatisfiable query unsatisfiable. */
  ghost predicate Monotone(unsat: seq<Formula> -> bool, query: Formula)
  {
    forall s: seq<Formula>, t: seq<Formula> ::
      Elems(s) <= Elems(t) && UnsatWith(unsat, query, s) ==> UnsatWith(unsat, query, t)
  }

  function Elems<T>(s: seq<T>): set<T>
  {
    set x | x in s
  }

  predicate Distinct<T(==)>(s: seq<T>)
  {
    forall i, j | 0 <= i < j < |s| :: s[i] != s[j]
  }

  /** Every forced selector of `kept` is necessary with respect to `kept + rest`:
      no selection within it that leaves that selector out is unsatisfiable. */
  ghost predicate Necessary(kept: seq<Formula>, rest: seq<Formula>, query: Formula, unsat: seq<Formula> -> bool)
  {
    forall y, s: seq<Formula> | y in kept && Elems(s) <= Elems(kept + rest) - {y} :: !UnsatWith(unsat, query, s)
  }

  lemma {:induction false} GreedyNecessary(kept: seq<Formula>, rest: seq<Formula>, query: Formula, unsat: seq<Formula> -> bool)
    requires Monotone(unsat, query) && Distinct(kept + rest)
    requires Necessary(kept, rest, query, unsat)
    ensures Necessary(Greedy(kept, rest, query, unsat), [], query, unsat)
    decreases |rest|
  {
    if rest == [] {
      assert kept + rest == kept;
    } else {
      var x := rest[0];
      var cand := kept + rest[1..];
      assert Elems(kept + rest) == Elems(cand) + {x};
      assert x !in cand by {
        forall j | 0 <= j < |cand| ensures cand[j] != x {
          if j < |kept| {
            assert (kept + rest)[j] == cand[j] && (kept + rest)[|kept|] == x;
          } else {
            assert (kept + rest)[j + 1] == cand[j] && (kept + rest)[|kept|] == x;
          }
        }
      }
      if UnsatWith(unsat, query, cand) {
        assert Distinct(kept + rest[1..]) by {
          forall i, j | 0 <= i < j < |cand| ensures cand[i] != cand[j] {
            var i' := if i < |kept| then i else i + 1;
            var j' := if j < |kept| then j else j + 1;
            assert cand[i] == (kept + rest)[i'];
            assert cand[j] == (kept + rest)[j'];
          }
        }
        assert Elems(kept + rest[1..]) <= Elems(kept + rest);
        GreedyNecessary(kept, rest[1..], query, unsat);
      } else {
        var k2 := kept + [x];
        assert k2 + rest[1..] == kept + rest;
        forall y, s: seq<Formula> | y in k2 && Elems(s) <= Elems(k2 + rest[1..]) - {y}
          ensures !UnsatWith(unsat, query, s)
        {
          if y == x {
            assert Elems(s) <= Elems(cand);
          }
        }
        GreedyNecessary(k2, rest[1..], query, unsat);
      }
    }
  }

  /** Local minimality of the result: with a monotone solver and distinct selectors,
      releasing any one selector the search left forced makes the query satisfiable. */
  lemma GreedyLocallyMinimal(vars: seq<Formula>, query: Formula, unsat: seq<Formula> -> bool, y: Formula, s: seq<Formula>)
    requires Monotone(unsat, query) && Distinct(vars)
    requires y in Greedy([], vars, query, unsat)
    requires Elems(s) <= Elems(Greedy([], vars, query, unsat)) - {y}
    ensures !UnsatWith(unsat, query, s)
  {
    assert [] + vars == vars;
    GreedyNecessary([], vars, query, unsat);
    var r := Greedy([], vars, query, unsat);
    assert r + [] == r;
  }

  /** `List.remove(int)`. */
  function RemoveAt<T>(s: seq<T>, k: nat): (r: seq<T>)
    requires k < |s|
    ensures |r| == |s| - 1
  {
    s[..k] + s[k + 1..]
  }

  lemma RemoveAtKept(kept: seq<Formula>, vars: seq<Formula>, i: nat)
    requires i < |vars|
    ensures (kept + vars[i..])[|kept|] == vars[i]
    ensures RemoveAt(kept + vars[i..], |kept|) == kept + vars[i + 1..]
  {
    var s := kept + vars[i..];
    assert s[..|kept|] == kept;
    assert s[|kept| + 1..] == vars[i + 1..];
  }

  lemma GreedyStep(kept: seq<Formula>, vars: seq<Formula>, i: nat, query: Formula, unsat: seq<Formula> -> bool)
    requires i < |vars|
    ensures Greedy(kept, vars[i..], query, unsat) ==
      if UnsatWith(unsat, query, kept + vars[i + 1..]) then Greedy(kept, vars[i + 1..], query, unsat)
      else Greedy(kept + [vars[i]], vars[i + 1..], query, unsat)
  {
    assert vars[i..][1..] == vars[i + 1..];
  }

  datatype SliceError = VerifyFailed

  /** One probe of the loop: push a candidate selection above the query, ask the
      solver, pop it again. */
  method CheckSelection(env: ProverEnvironment, query: Formula, selection: seq<Formula>) returns (b: bool)
    requires env.stack == [query]
    modifies env
    ensures env.stack == [query]
    ensures b == UnsatWith(env.unsat, query, selection)
  {
    env.Push(And(selection));
    assert env.stack == [query, And(selection)];
    b := env.IsUnsat();
    env.Pop();
    assert [query, And(selection)][..1] == [query];
  }

  /** formulaSlicing: the loop over the selector list, on one solver stack.
      Verify.verify failures are reported as `VerifyFailed`. */
  method FormulaSlicing(env: ProverEnvironment, selectionVars: seq<Formula>, query0: Formula, simplify: Formula -> Formula)
    returns (r: Result<set<Formula>, SliceError>)
    requires env.stack == []
    modifies env
    ensures var q := simplify(query0);
      && (r.Failure? <==> !env.unsat([q, And(selectionVars)]))
      && (r.Success? ==> r.value == Elems(Greedy([], selectionVars, q, env.unsat)))
      && (r.Success? ==> env.stack == [q, And(Greedy([], selectionVars, q, env.unsat))])
  {
    var query := simplify(query0);
    var selection := selectionVars;
    env.Push(query);
    env.Push(And(selection));
    assert env.stack == [query, And(selectionVars)];
    var ok := env.IsUnsat();
    if !ok {
      return Failure(VerifyFailed);
    }
    env.Pop();
    assert [query, And(selectionVars)][..1] == [query];

    selection := SearchSlice(env, query, selectionVars);

    env.Push(And(selection));
    assert env.stack == [query, And(selection)];
    ok := env.IsUnsat();
    assert ok;
    r := Success(Elems(selection));
  }

  /** The search loop of formulaSlicing: every selector in turn is dropped from the
      selection when the query stays unsatisfiable without it. */
  method SearchSlice(env: ProverEnvironment, query: Formula, selectionVars: seq<Formula>) returns (selection: seq<Formula>)
    requires env.stack == [query] && UnsatWith(env.unsat, query, selectionVars)
    modifies env
    ensures env.stack == [query]
    ensures selection == Greedy([], selectionVars, query, env.unsat)
    ensures UnsatWith(env.unsat, query, selection)
  {
    selection := selectionVars;
    var noRemoved := 0;
    var i := 0;
    ghost var kept: seq<Formula> := [];
    while i < |selectionVars|
      invariant 0 <= noRemoved <= i <= |selectionVars|
      invariant |kept| == i - noRemoved
      invariant selection == kept + selectionVars[i..]
      invariant Greedy(kept, selectionVars[i..], query, env.unsat) == Greedy([], selectionVars, query, env.unsat)
      invariant UnsatWith(env.unsat, query, selection)
      invariant env.stack == [query]
    {
      var removed;
      selection, removed, kept := SearchStep(env, query, selectionVars, i, noRemoved, selection, kept);
      if removed {
        noRemoved := noRemoved + 1;
      }
      i := i + 1;
    }
    assert selection == Greedy([], selectionVars, query, env.unsat) by {
      assert selectionVars[i..] == [];
      assert kept + [] == kept;
    }
  }

  /** One selector of the search: drop it from the selection when the query stays
      unsatisfiable without it, otherwise keep it. */
  method SearchStep(env: ProverEnvironment, query: Formula, selectionVars: seq<Formula>, i: nat, noRemoved: nat,
                    selection: seq<Formula>, ghost kept: seq<Formula>)
    returns (selection': seq<Formula>, removed: bool, ghost kept': seq<Formula>)
    requires i < |selectionVars| && noRemoved <= i && |kept| == i - noRemoved && env.stack == [query]
    requires selection == kept + selectionVars[i..] && UnsatWith(env.unsat, query, selection)
    modifies env
    ensures env.stack == [query]
    ensures kept' == if removed then kept else kept + [selectionVars[i]]
    ensures selection' == kept' + selectionVars[i + 1..] && UnsatWith(env.unsat, query, selection')
    ensures Greedy(kept', selectionVars[i + 1..], query, env.unsat) == Greedy(kept, selectionVars[i..], query, env.unsat)
  {
    RemoveAtKept(kept, selectionVars, i);
    GreedyStep(kept, selectionVars, i, query, env.unsat);
    var newSelection := RemoveAt(selection, i - noRemoved);
    removed := CheckSelection(env, query, newSelection);
    if removed {
      selection' := newSelection;
      kept' := kept;
    } else {
      selection' := selection;
      kept' := kept + [selectionVars[i]];
      assert selection == kept' + selectionVars[i + 1..];
    }
  }

  // ---------------------------------------------------------------------------
  // slice: the whole pipeline

  /** The replacement map of step 3: every selector maps to `true` if the search left
      it forced (its conjunct is dropped) and to `false` otherwise. */
  method BuildReplacement(selectionVars: seq<Formula>, inductiveSlice: set<Formula>)
    returns (m: map<Formula, Formula>)
    ensures m.Keys == Elems(selectionVars)
    ensures forall f | f in m :: m[f] == Bool(f in inductiveSlice)
  {
    m := map[];
    var i := 0;
    while i < |selectionVars|
      invariant 0 <= i <= |selectionVars|
      invariant m.Keys == Elems(selectionVars[..i])
      invariant forall f | f in m :: m[f] == Bool(f in inductiveSlice)
    {
      var f := selectionVars[i];
      if f in inductiveSlice {
        m := m[f := Bool(true)];
      } else {
        m := m[f := Bool(false)];
      }
      assert selectionVars[..i + 1] == selectionVars[..i] + [f];
      i := i + 1;
    }
    assert selectionVars[..i] == selectionVars;
  }

  /** The formula manager operations slice uses; all of them are foreign. */
  datatype FormulaOps = FormulaOps(
    simplify: Formula -> Formula,
    nnf: Formula -> Formula,
    hasDead: (nat, SsaMap) -> bool,
    uninstantiate: Formula -> Formula,
    instantiate: (Formula, SsaMap) -> Formula)

  function SelectorVars(lo: nat, hi: nat): (r: seq<Formula>)
    ensures |r| == |Range(lo, hi)|
    ensures forall i | 0 <= i < |r| :: r[i] == Selector(Range(lo, hi)[i])
  {
    var ids := Range(lo, hi);
    seq(|ids|, i requires 0 <= i < |ids| => Selector(ids[i]))
  }

  /** The inductiveness query: annotated /\ transition /\ not(annotated, primed). */
  function InductivenessQuery(annotated: Formula, transition: PathFormula, ops: FormulaOps): Formula
  {
    And([annotated, transition.formula, Not(ops.instantiate(ops.uninstantiate(annotated), transition.ssa))])
  }

  /** The replacement map of step 3 as a value. */
  function ReplacementFor(selectionVars: seq<Formula>, inductiveSlice: set<Formula>): map<Formula, Formula>
  {
    map f | f in Elems(selectionVars) :: Bool(f in inductiveSlice)
  }

  /** What slice computes: the input without intermediate atoms, in NNF, annotated
      from id 0 (a fresh generator), the selectors searched in the order they were
      drawn, and the annotated formula with the search's selectors set to `true` and
      all others to `false`. A satisfiable query with every selector forced fails. */
  function SliceSpec(input: PathFormula, transition: PathFormula, ops: FormulaOps, unsat: seq<Formula> -> bool)
    : Result<Formula, SliceError>
  {
    var pre := ops.nnf(ops.simplify(DropIntermediate(input.formula, input.ssa, ops.hasDead)));
    var an := Annotate(pre, 0);
    var vars := SelectorVars(0, an.1);
    var q := ops.simplify(InductivenessQuery(an.0, transition, ops));
    if !unsat([q, And(vars)]) then Failure(VerifyFailed)
    else
      var kept := Greedy([], vars, q, unsat);
      Success(ops.uninstantiate(ops.simplify(Substitute(an.0, ReplacementFor(vars, Elems(kept))))))
  }

  /** slice, step by step, on a fresh solver stack. */
  method Slice(input: PathFormula, transition: PathFormula, ops: FormulaOps, unsat: seq<Formula> -> bool)
    returns (r: Result<Formula, SliceError>)
    ensures r == SliceSpec(input, transition, ops, unsat)
  {
    var noIntermediate := ops.simplify(DropIntermediate(input.formula, input.ssa, ops.hasDead));
    var noIntermediateNnf := ops.nnf(noIntermediate);
    var an := Annotate(noIntermediateNnf, 0);
    var annotated := an.0;
    var selectionVars := SelectorVars(0, an.1);
    var query := InductivenessQuery(annotated, transition, ops);
    var env := new ProverEnvironment(unsat);
    var sliceResult := FormulaSlicing(env, selectionVars, query, ops.simplify);
    if sliceResult.Failure? {
      return Failure(VerifyFailed);
    }
    var replacement := BuildReplacement(selectionVars, sliceResult.value);
    assert replacement == ReplacementFor(selectionVars, sliceResult.value);
    var sliced := ops.simplify(Substitute(annotated, replacement));
    r := Success(ops.uninstantiate(sliced));
  }
}
