/** The control-flow automaton as AbstractCFAEdge edits it: nodes with ordered lists of
    leaving and entering edges, and the registration of an edge (addToCFA), which
    drops dead code after a jump and lets a jump edge replace every other edge leaving
    its predecessor. Nodes are kept in an arena: a node is a number, and its edge lists
    are entries of maps owned by one graph object. */
module Cfa {

  type Node = nat

  /** The edge classes that matter here; a jump edge is one of the subclasses that
      override isJumpEdge. */
  datatype EdgeKind = Blank | Statement | Declaration | GlobalDeclaration | CallToReturn | Jump

  /** An edge object. `id` tells apart two objects with the same contents. */
  datatype CfaEdge = CfaEdge(
    id: nat,
    kind: EdgeKind,
    rawStatement: string,
    lineNumber: int,
    predecessor: Node,
    successor: Node)

  /** isJumpEdge: false for the base class and every kind except the jump edges. */
  predicate IsJumpEdge(e: CfaEdge)
  {
    e.kind == Jump
  }

  /** equals: the same predecessor and the same successor, whatever the statement or
      the line. */
  predicate EdgeEquals(a: CfaEdge, b: CfaEdge)
  {
    a.predecessor == b.predecessor && a.successor == b.successor
  }

  lemma EdgeEqualsIsEquivalence(a: CfaEdge, b: CfaEdge, c: CfaEdge)
    ensures EdgeEquals(a, a)
    ensures EdgeEquals(a, b) ==> EdgeEquals(b, a)
    ensures EdgeEquals(a, b) && EdgeEquals(b, c) ==> EdgeEquals(a, c)
  {
  }

  /** Java's int arithmetic: the value modulo 2^32, in the signed range. */
  function ToInt32(x: int): (r: int)
    ensures -0x8000_0000 <= r < 0x8000_0000 && (r - x) % 0x1_0000_0000 == 0
  {
    (x + 0x8000_0000) % 0x1_0000_0000 - 0x8000_0000
  }

  /** hashCode: `31 * hash(predecessor) + hash(successor)` in int arithmetic, for a given
      hash of nodes. */
  function EdgeHash(e: CfaEdge, nodeHash: Node -> int): int
  {
    ToInt32(31 * ToInt32(nodeHash(e.predecessor)) + ToInt32(nodeHash(e.successor)))
  }

  /** Equal edges have equal hash codes. */
  lemma HashConsistentWithEquals(a: CfaEdge, b: CfaEdge, nodeHash: Node -> int)
    requires EdgeEquals(a, b)
    ensures EdgeHash(a, nodeHash) == EdgeHash(b, nodeHash)
  {
  }

  /** List.remove(Object): the first element that equals `x` goes. */
  function RemoveFirst(s: seq<CfaEdge>, x: CfaEdge): seq<CfaEdge>
  {
    if s == [] then []
    else if EdgeEquals(s[0], x) then s[1..]
    else
      assert s == [s[0]] + s[1..];
      [s[0]] + RemoveFirst(s[1..], x)
  }

  /** List.remove of an element of the list shortens it by one. */
  lemma {:induction false} RemoveFirstLength(s: seq<CfaEdge>, x: CfaEdge)
    requires x in s
    ensures |RemoveFirst(s, x)| == |s| - 1
  {
    if !EdgeEquals(s[0], x) {
      assert x in s[1..];
      RemoveFirstLength(s[1..], x);
    }
  }

  /** The first `k` edges leaving `p` removed from a list. */
  function RemoveFrom(s: seq<CfaEdge>, p: Node, k: nat): seq<CfaEdge>
  {
    if s == [] || k == 0 then s
    else if s[0].predecessor == p then RemoveFrom(s[1..], p, k - 1)
    else
      assert s == [s[0]] + s[1..];
      [s[0]] + RemoveFrom(s[1..], p, k)
  }

  /** The number of edges of `s` that lead to `n`. */
  function CountTo(s: seq<CfaEdge>, n: Node): nat
  {
    if s == [] then 0 else (if s[0].successor == n then 1 else 0) + CountTo(s[1..], n)
  }

  /** In a list of edges entering `n`, removing an edge from `p` to `n` removes the
      first edge from `p`. */
  lemma {:induction false} RemoveFirstEntering(s: seq<CfaEdge>, x: CfaEdge, n: Node, k: nat)
    requires forall i | 0 <= i < |s| :: s[i].successor == n
    requires x.successor == n
    ensures RemoveFirst(RemoveFrom(s, x.predecessor, k), x) == RemoveFrom(s, x.predecessor, k + 1)
  {
    if s != [] {
      if s[0].predecessor == x.predecessor {
        if k > 0 {
          RemoveFirstEntering(s[1..], x, n, k - 1);
        }
      } else {
        RemoveFirstEntering(s[1..], x, n, k);
      }
    }
  }

  /** Removing an element of the list lowers the count of its successor by one. */
  lemma {:induction false} CountAfterRemove(s: seq<CfaEdge>, x: CfaEdge, n: Node)
    requires x in s
    ensures CountTo(RemoveFirst(s, x), n) == CountTo(s, n) - (if x.successor == n then 1 else 0)
  {
    if !EdgeEquals(s[0], x) {
      assert x in s[1..];
      CountAfterRemove(s[1..], x, n);
    }
  }

  lemma {:induction false} CountBound(s: seq<CfaEdge>, n: Node)
    ensures CountTo(s, n) <= |s|
  {
    if s != [] {
      CountBound(s[1..], n);
    }
  }

  /** Every edge in the leaving list of `n` leaves `n` towards an existing node. */
  ghost predicate LeavingListsValid(leaving: map<Node, seq<CfaEdge>>, nodeCount: nat, edgeCount: nat)
  {
    forall n, e | n in leaving && e in leaving[n] ::
      e.predecessor == n && e.successor < nodeCount && e.id < edgeCount
  }

  /** Every edge in the entering list of `n` enters `n` from an existing node. */
  ghost predicate EnteringListsValid(entering: map<Node, seq<CfaEdge>>, nodeCount: nat, edgeCount: nat)
  {
    forall n, e | n in entering && e in entering[n] ::
      e.successor == n && e.predecessor < nodeCount && e.id < edgeCount
  }

  /** Lists that only lose edges stay valid. */
  lemma EnteringListsShrink(entering0: map<Node, seq<CfaEdge>>, entering: map<Node, seq<CfaEdge>>,
                            nodeCount: nat, edgeCount: nat)
    requires EnteringListsValid(entering0, nodeCount, edgeCount)
    requires entering.Keys == entering0.Keys
    requires forall n, e | n in entering && e in entering[n] :: e in entering0[n]
    ensures EnteringListsValid(entering, nodeCount, edgeCount)
  {
  }

  /** Entering lists from which edges of `p` were removed stay valid. */
  lemma DetachedListsValid(entering0: map<Node, seq<CfaEdge>>, leaving0: seq<CfaEdge>, p: Node,
                           entering: map<Node, seq<CfaEdge>>, nodeCount: nat, edgeCount: nat)
    requires EnteringListsValid(entering0, nodeCount, edgeCount)
    requires entering.Keys == entering0.Keys
    requires forall n | n in entering :: entering[n] == RemoveFrom(entering0[n], p, CountTo(leaving0, n))
    ensures EnteringListsValid(entering, nodeCount, edgeCount)
  {
    forall n | n in entering
      ensures forall e | e in entering[n] :: e in entering0[n]
    {
      RemoveFromKeeps(entering0[n], p, CountTo(leaving0, n));
    }
    EnteringListsShrink(entering0, entering, nodeCount, edgeCount);
  }

  lemma LeavingListsCleared(leaving: map<Node, seq<CfaEdge>>, p: Node, nodeCount: nat, edgeCount: nat)
    requires LeavingListsValid(leaving, nodeCount, edgeCount)
    ensures LeavingListsValid(leaving[p := []], nodeCount, edgeCount)
  {
  }

  class Graph {
    var nodeCount: nat
    var leaving: map<Node, seq<CfaEdge>>
    var entering: map<Node, seq<CfaEdge>>
    /** Summary edges, for the nodes that have one. */
    var leavingSummary: map<Node, CfaEdge>
    var enteringSummary: map<Node, CfaEdge>
    var lineNumber: map<Node, int>
    var functionName: map<Node, string>
    var edgeCount: nat

    /** Every node below `nodeCount` has both lists, and the edges in them touch it. */
    ghost predicate Valid()
      reads this
    {
      && (forall n: Node :: n in leaving <==> n < nodeCount)
      && (forall n: Node :: n in entering <==> n < nodeCount)
      && (forall n: Node :: n in lineNumber <==> n < nodeCount)
      && (forall n: Node :: n in functionName <==> n < nodeCount)
      && LeavingListsValid(leaving, nodeCount, edgeCount)
      && EnteringListsValid(entering, nodeCount, edgeCount)
    }

    constructor ()
      ensures Valid() && nodeCount == 0 && edgeCount == 0
      ensures leavingSummary == map[] && enteringSummary == map[]
    {
      nodeCount := 0;
      leaving := map[];
      entering := map[];
      leavingSummary := map[];
      enteringSummary := map[];
      lineNumber := map[];
      functionName := map[];
      edgeCount := 0;
    }

    /** new CFANode(line): a node without edges. */
    method NewNode(line: int, functionName0: string) returns (n: Node)
      requires Valid()
      modifies this
      ensures Valid() && n == old(nodeCount) && nodeCount == n + 1 && edgeCount == old(edgeCount)
      ensures leaving == old(leaving)[n := []] && entering == old(entering)[n := []]
      ensures lineNumber == old(lineNumber)[n := line] && functionName == old(functionName)[n := functionName0]
      ensures leavingSummary == old(leavingSummary) && enteringSummary == old(enteringSummary)
    {
      n := nodeCount;
      nodeCount := nodeCount + 1;
      leaving := leaving[n := []];
      entering := entering[n := []];
      lineNumber := lineNumber[n := line];
      functionName := functionName[n := functionName0];
    }

    /** The constructor of an edge object between two nodes of the graph. */
    method NewEdge(kind: EdgeKind, rawStatement: string, line: int, predecessor: Node, successor: Node)
      returns (e: CfaEdge)
      requires Valid() && predecessor < nodeCount && successor < nodeCount
      modifies this
      ensures Valid() && edgeCount == old(edgeCount) + 1 && e.id == old(edgeCount)
      ensures e == CfaEdge(old(edgeCount), kind, rawStatement, line, predecessor, successor)
      ensures nodeCount == old(nodeCount) && leaving == old(leaving) && entering == old(entering)
      ensures lineNumber == old(lineNumber) && functionName == old(functionName)
      ensures leavingSummary == old(leavingSummary) && enteringSummary == old(enteringSummary)
    {
      e := CfaEdge(edgeCount, kind, rawStatement, line, predecessor, successor);
      edgeCount := edgeCount + 1;
    }

    predicate HasJumpEdgeLeaving(n: Node)
      requires n in leaving
      reads this
    {
      exists i | 0 <= i < |leaving[n]| :: IsJumpEdge(leaving[n][i])
    }

    /** addToCFA. After a jump the edge is dead code and is not added; a jump edge first
        removes every edge leaving its predecessor, from both of that edge's lists; then
        the edge is appended to both of its own. */
    method AddToCfa(e: CfaEdge)
      requires Valid() && e.predecessor < nodeCount && e.successor < nodeCount && e.id < edgeCount
      modifies this
      ensures Valid()
      ensures nodeCount == old(nodeCount) && edgeCount == old(edgeCount)
      ensures lineNumber == old(lineNumber) && functionName == old(functionName)
      ensures leavingSummary == old(leavingSummary) && enteringSummary == old(enteringSummary)
      ensures old(HasJumpEdgeLeaving(e.predecessor)) ==> leaving == old(leaving) && entering == old(entering)
      ensures !old(HasJumpEdgeLeaving(e.predecessor)) && !IsJumpEdge(e) ==>
        && leaving == old(leaving)[e.predecessor := old(leaving)[e.predecessor] + [e]]
        && entering == old(entering)[e.successor := old(entering)[e.successor] + [e]]
      ensures !old(HasJumpEdgeLeaving(e.predecessor)) && IsJumpEdge(e) ==>
        && leaving == old(leaving)[e.predecessor := [e]]
        && entering.Keys == old(entering).Keys
        && forall n | n in entering ::
             entering[n] == RemoveFrom(old(entering)[n], e.predecessor, CountTo(old(leaving)[e.predecessor], n))
                            + (if n == e.successor then [e] else [])
    {
      var predecessor := e.predecessor;
      var successor := e.successor;
      if HasJumpEdgeLeaving(predecessor) {
        return;
      }
      if IsJumpEdge(e) {
        ReplaceLeaving(e);
      } else {
        AppendEdge(e);
      }
    }

    /** The jump case of addToCFA: every edge leaving the predecessor is detached, then
        the jump edge is appended, so it is the only edge left there. */
    method ReplaceLeaving(e: CfaEdge)
      requires Valid() && e.predecessor < nodeCount && e.successor < nodeCount && e.id < edgeCount
      modifies this
      ensures Valid()
      ensures nodeCount == old(nodeCount) && edgeCount == old(edgeCount)
      ensures lineNumber == old(lineNumber) && functionName == old(functionName)
      ensures leavingSummary == old(leavingSummary) && enteringSummary == old(enteringSummary)
      ensures leaving == old(leaving)[e.predecessor := [e]]
      ensures entering.Keys == old(entering).Keys
      ensures forall n | n in entering ::
        entering[n] == RemoveFrom(old(entering)[n], e.predecessor, CountTo(old(leaving)[e.predecessor], n))
                       + (if n == e.successor then [e] else [])
    {
      RemoveAllLeaving(e.predecessor);
      ghost var cleared := leaving;
      AppendEdge(e);
      assert cleared[e.predecessor] + [e] == [e];
    }

    /** addLeavingEdge at the predecessor and addEnteringEdge at the successor. */
    method AppendEdge(e: CfaEdge)
      requires Valid() && e.predecessor < nodeCount && e.successor < nodeCount && e.id < edgeCount
      modifies this
      ensures Valid()
      ensures nodeCount == old(nodeCount) && edgeCount == old(edgeCount)
      ensures lineNumber == old(lineNumber) && functionName == old(functionName)
      ensures leavingSummary == old(leavingSummary) && enteringSummary == old(enteringSummary)
      ensures leaving == old(leaving)[e.predecessor := old(leaving)[e.predecessor] + [e]]
      ensures entering == old(entering)[e.successor := old(entering)[e.successor] + [e]]
    {
      leaving := leaving[e.predecessor := leaving[e.predecessor] + [e]];
      entering := entering[e.successor := entering[e.successor] + [e]];
    }

    /** removeLeavingEdge: List.remove on the leaving list of `n`. */
    method RemoveLeavingEdge(n: Node, e: CfaEdge)
      requires Valid() && n < nodeCount
      modifies this
      ensures Valid() && leaving == old(leaving)[n := RemoveFirst(old(leaving)[n], e)]
      ensures nodeCount == old(nodeCount) && edgeCount == old(edgeCount) && entering == old(entering)
      ensures lineNumber == old(lineNumber) && functionName == old(functionName)
      ensures leavingSummary == old(leavingSummary) && enteringSummary == old(enteringSummary)
    {
      RemoveFirstKeeps(leaving[n], e);
      leaving := leaving[n := RemoveFirst(leaving[n], e)];
    }

    /** removeEnteringEdge: List.remove on the entering list of `n`. */
    method RemoveEnteringEdge(n: Node, e: CfaEdge)
      requires Valid() && n < nodeCount
      modifies this
      ensures Valid() && entering == old(entering)[n := RemoveFirst(old(entering)[n], e)]
      ensures nodeCount == old(nodeCount) && edgeCount == old(edgeCount) && leaving == old(leaving)
      ensures lineNumber == old(lineNumber) && functionName == old(functionName)
      ensures leavingSummary == old(leavingSummary) && enteringSummary == old(enteringSummary)
    {
      RemoveFirstKeeps(entering[n], e);
      entering := entering[n := RemoveFirst(entering[n], e)];
    }

    /** The reverse index loop of addToCFA that detaches every edge leaving `p`. */
    method RemoveAllLeaving(p: Node)
      requires Valid() && p < nodeCount
      modifies this
      ensures Valid() && leaving == old(leaving)[p := []]
      ensures nodeCount == old(nodeCount) && edgeCount == old(edgeCount)
      ensures lineNumber == old(lineNumber) && functionName == old(functionName)
      ensures leavingSummary == old(leavingSummary) && enteringSummary == old(enteringSummary)
      ensures entering.Keys == old(entering).Keys
      ensures forall n | n in entering ::
        entering[n] == RemoveFrom(old(entering)[n], p, CountTo(old(leaving)[p], n))
    {
      var enteringEdges := DetachAll(p, leaving[p], entering);
      DetachedListsValid(entering, leaving[p], p, enteringEdges, nodeCount, edgeCount);
      LeavingListsCleared(leaving, p, nodeCount, edgeCount);
      leaving := leaving[p := []];
      entering := enteringEdges;
    }
  }

  /** The loop itself, on the list of edges leaving `p` and the entering lists: the last
      remaining edge is removed from the former (List.remove) and from its successor's
      entering list. */
  method DetachAll(p: Node, leaving0: seq<CfaEdge>, entering0: map<Node, seq<CfaEdge>>)
    returns (enteringEdges: map<Node, seq<CfaEdge>>)
    requires forall e | e in leaving0 :: e.predecessor == p && e.successor in entering0
    requires forall n, e | n in entering0 && e in entering0[n] :: e.successor == n
    ensures enteringEdges.Keys == entering0.Keys
    ensures forall n | n in enteringEdges ::
      enteringEdges[n] == RemoveFrom(entering0[n], p, CountTo(leaving0, n))
  {
    var leavingEdges := leaving0;
    enteringEdges := entering0;
    var i := |leavingEdges| - 1;
    while i >= 0
      invariant -1 <= i && |leavingEdges| == i + 1
      invariant forall e | e in leavingEdges :: e.predecessor == p && e.successor in enteringEdges
      invariant enteringEdges.Keys == entering0.Keys
      invariant Detached(entering0, leaving0, p, leavingEdges, enteringEdges)
      decreases i
    {
      var otherEdge := leavingEdges[i];
      var otherEdgeSuccessor := otherEdge.successor;
      var after := RemoveFirst(leavingEdges, otherEdge);
      var entering' := enteringEdges[otherEdgeSuccessor := RemoveFirst(enteringEdges[otherEdgeSuccessor], otherEdge)];
      DetachStep(entering0, leaving0, p, leavingEdges, enteringEdges, otherEdge, after, entering');
      RemoveFirstKeeps(leavingEdges, otherEdge);
      RemoveFirstLength(leavingEdges, otherEdge);
      leavingEdges := after;
      enteringEdges := entering';
      i := i - 1;
    }
    DetachDone(entering0, leaving0, p, leavingEdges, enteringEdges);
  }

  /** The entering lists have lost, from `p`, as many edges as have left the list `rest`
      of edges still leaving `p`. */
  ghost predicate Detached(entering0: map<Node, seq<CfaEdge>>, leaving0: seq<CfaEdge>, p: Node,
                           rest: seq<CfaEdge>, entering: map<Node, seq<CfaEdge>>)
  {
    forall n {:trigger entering[n]} | n in entering ::
      && n in entering0 && CountTo(rest, n) <= CountTo(leaving0, n)
      && entering[n] == RemoveFrom(entering0[n], p, CountTo(leaving0, n) - CountTo(rest, n))
  }

  lemma DetachDone(entering0: map<Node, seq<CfaEdge>>, leaving0: seq<CfaEdge>, p: Node,
                   rest: seq<CfaEdge>, entering: map<Node, seq<CfaEdge>>)
    requires rest == [] && Detached(entering0, leaving0, p, rest, entering)
    ensures forall n | n in entering :: entering[n] == RemoveFrom(entering0[n], p, CountTo(leaving0, n))
  {
    forall n | n in entering
      ensures entering[n] == RemoveFrom(entering0[n], p, CountTo(leaving0, n))
    {
      assert CountTo(rest, n) == 0;
    }
  }

  /** One iteration of the detaching loop keeps its invariant. */
  lemma DetachStep(entering0: map<Node, seq<CfaEdge>>, leaving0: seq<CfaEdge>, p: Node,
                   before: seq<CfaEdge>, entering: map<Node, seq<CfaEdge>>, other: CfaEdge,
                   after: seq<CfaEdge>, entering': map<Node, seq<CfaEdge>>)
    requires other in before && other.predecessor == p && other.successor in entering && other.successor in entering0
    requires forall e | e in entering0[other.successor] :: e.successor == other.successor
    requires Detached(entering0, leaving0, p, before, entering)
    requires after == RemoveFirst(before, other)
    requires entering' == entering[other.successor := RemoveFirst(entering[other.successor], other)]
    ensures Detached(entering0, leaving0, p, after, entering')
  {
    forall n | n in entering'
      ensures && n in entering0 && CountTo(after, n) <= CountTo(leaving0, n)
              && entering'[n] == RemoveFrom(entering0[n], p, CountTo(leaving0, n) - CountTo(after, n))
    {
      DetachStepNode(entering0, leaving0, p, before, entering, other, after, entering', n);
    }
  }

  /** DetachStep at one node `n` of the entering lists. */
  lemma DetachStepNode(entering0: map<Node, seq<CfaEdge>>, leaving0: seq<CfaEdge>, p: Node,
                       before: seq<CfaEdge>, entering: map<Node, seq<CfaEdge>>, other: CfaEdge,
                       after: seq<CfaEdge>, entering': map<Node, seq<CfaEdge>>, n: Node)
    requires other in before && other.predecessor == p && other.successor in entering && other.successor in entering0
    requires forall e | e in entering0[other.successor] :: e.successor == other.successor
    requires Detached(entering0, leaving0, p, before, entering)
    requires after == RemoveFirst(before, other)
    requires entering' == entering[other.successor := RemoveFirst(entering[other.successor], other)]
    requires n in entering'
    ensures && n in entering0 && CountTo(after, n) <= CountTo(leaving0, n)
            && entering'[n] == RemoveFrom(entering0[n], p, CountTo(leaving0, n) - CountTo(after, n))
  {
    assert n in entering;
    DetachedAt(entering0, leaving0, p, before, entering, n);
    CountAfterRemove(before, other, n);
    DetachStepAt(entering0[n], p, entering[n], entering'[n], other, n,
                 CountTo(leaving0, n), CountTo(before, n), CountTo(after, n));
  }

  lemma DetachedAt(entering0: map<Node, seq<CfaEdge>>, leaving0: seq<CfaEdge>, p: Node,
                   rest: seq<CfaEdge>, entering: map<Node, seq<CfaEdge>>, n: Node)
    requires Detached(entering0, leaving0, p, rest, entering) && n in entering
    ensures n in entering0 && CountTo(rest, n) <= CountTo(leaving0, n)
    ensures entering[n] == RemoveFrom(entering0[n], p, CountTo(leaving0, n) - CountTo(rest, n))
  {
  }

  /** DetachStep at one node `n`, with original entering list `s0`, current list `s`,
      next list `s'`, and `cl`, `cb`, `ca` edges towards `n` in the original, current and
      next leaving list. */
  lemma DetachStepAt(s0: seq<CfaEdge>, p: Node, s: seq<CfaEdge>, s': seq<CfaEdge>, other: CfaEdge, n: Node,
                     cl: nat, cb: nat, ca: nat)
    requires other.predecessor == p
    requires n == other.successor ==> forall e | e in s0 :: e.successor == n
    requires cb <= cl && ca == cb - (if n == other.successor then 1 else 0)
    requires s == RemoveFrom(s0, p, cl - cb)
    requires n == other.successor ==> s' == RemoveFirst(s, other)
    requires n != other.successor ==> s' == s
    ensures ca <= cl && s' == RemoveFrom(s0, p, cl - ca)
  {
    if n == other.successor {
      assert forall i | 0 <= i < |s0| :: s0[i] in s0;
      RemoveFirstEntering(s0, other, n, cl - cb);
    }
  }

  lemma {:induction false} RemoveFromKeeps(s: seq<CfaEdge>, p: Node, k: nat)
    ensures forall y | y in RemoveFrom(s, p, k) :: y in s
  {
    if s != [] && k != 0 {
      if s[0].predecessor == p {
        RemoveFromKeeps(s[1..], p, k - 1);
      } else {
        RemoveFromKeeps(s[1..], p, k);
      }
    }
  }

  /** What RemoveFirst keeps is an element of the list. */
  lemma {:induction false} RemoveFirstKeeps(s: seq<CfaEdge>, x: CfaEdge)
    ensures forall y | y in RemoveFirst(s, x) :: y in s
  {
    if s != [] && !EdgeEquals(s[0], x) {
      RemoveFirstKeeps(s[1..], x);
    }
  }
}
