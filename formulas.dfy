/** Boolean formulas as the refinement code sees them through the formula manager:
    theory atoms are left uninterpreted (an atom is a number), selector variables are
    the fresh boolean variables the formula slicer introduces, and the connectives are
    the ones its visitors rebuild. A path formula carries the SSA map and the pointer
    target set alongside the formula. */
module Formulas {

  datatype Formula =
    | Bool(value: bool)
    | Atom(id: nat)
    | Selector(id: nat)
    | Not(arg: Formula)
    | And(args: seq<Formula>)
    | Or(args: seq<Formula>)

  /** Variable name to SSA index. */
  type SsaMap = map<string, nat>

  /** The pointer target set is an opaque token here. */
  type PointerTargetSet = nat

  datatype PathFormula = PathFormula(formula: Formula, ssa: SsaMap, pts: PointerTargetSet, length: nat)

  /** Truth of a formula under a valuation of atoms and of selectors. */
  predicate Eval(f: Formula, atoms: nat -> bool, sels: nat -> bool)
  {
    match f
    case Bool(b) => b
    case Atom(a) => atoms(a)
    case Selector(k) => sels(k)
    case Not(g) => !Eval(g, atoms, sels)
    case And(args) => forall i | 0 <= i < |args| :: Eval(args[i], atoms, sels)
    case Or(args) => exists i | 0 <= i < |args| :: Eval(args[i], atoms, sels)
  }

  /** Negation normal form: negation is applied to atoms only. */
  predicate IsNnf(f: Formula)
  {
    match f
    case Bool(_) => true
    case Atom(_) => true
    case Selector(_) => true
    case Not(g) => g.Atom?
    case And(args) => forall i | 0 <= i < |args| :: IsNnf(args[i])
    case Or(args) => forall i | 0 <= i < |args| :: IsNnf(args[i])
  }

  /** A program's path formula never mentions the slicer's reserved selector names. */
  predicate NoSelectors(f: Formula)
  {
    match f
    case Bool(_) => true
    case Atom(_) => true
    case Selector(_) => false
    case Not(g) => NoSelectors(g)
    case And(args) => forall i | 0 <= i < |args| :: NoSelectors(args[i])
    case Or(args) => forall i | 0 <= i < |args| :: NoSelectors(args[i])
  }

  /** The atoms occurring in a formula. */
  function Atoms(f: Formula): set<nat>
  {
    match f
    case Bool(_) => {}
    case Atom(a) => {a}
    case Selector(_) => {}
    case Not(g) => Atoms(g)
    case And(args) => set i, a | 0 <= i < |args| && a in Atoms(args[i]) :: a
    case Or(args) => set i, a | 0 <= i < |args| && a in Atoms(args[i]) :: a
  }

  /** An incremental solver stack: the verdict is a function of what is pushed. */
  class ProverEnvironment {
    var stack: seq<Formula>
    const unsat: seq<Formula> -> bool

    constructor (unsat: seq<Formula> -> bool)
      ensures stack == [] && this.unsat == unsat
    {
      stack := [];
      this.unsat := unsat;
    }

    method Push(f: Formula)
      modifies this
      ensures stack == old(stack) + [f]
    {
      stack := stack + [f];
    }

    method Pop()
      requires stack != []
      modifies this
      ensures stack == old(stack)[..|old(stack)| - 1]
    {
      stack := stack[..|stack| - 1];
    }

    method IsUnsat() returns (b: bool)
      ensures b == unsat(stack)
    {
      b := unsat(stack);
    }
  }
}
