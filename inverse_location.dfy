/** The backward location transfer relation (InverseLocationTransferRelation): the
    successor of a location, walking the CFA against its edges, is the predecessor of
    an entering edge. */
module InverseLocation {
  import opened Cfa

  /** A location element, or the bottom element of the location domain. */
  datatype LocationElement = Location(node: Node) | Bottom

  /** getAbstractSuccessor: the predecessor of `cfaEdge` when it is (this very edge
      object) one of the entering edges of the location; otherwise the predecessor of
      the entering summary edge, if any; otherwise bottom. */
  method GetAbstractSuccessor(cfa: Graph, element: LocationElement, cfaEdge: CfaEdge) returns (r: LocationElement)
    requires element.Location? && element.node in cfa.entering
    ensures cfaEdge in cfa.entering[element.node] ==> r == Location(cfaEdge.predecessor)
    ensures cfaEdge !in cfa.entering[element.node] && element.node in cfa.enteringSummary ==>
      r == Location(cfa.enteringSummary[element.node].predecessor)
    ensures cfaEdge !in cfa.entering[element.node] && element.node !in cfa.enteringSummary ==> r == Bottom
  {
    var node := element.node;
    var enteringEdges := cfa.entering[node];
    var numEnteringEdges := |enteringEdges|;
    for edgeIdx := 0 to numEnteringEdges
      invariant cfaEdge !in enteringEdges[..edgeIdx]
    {
      var testEdge := enteringEdges[edgeIdx];
      if testEdge == cfaEdge {
        return Location(testEdge.predecessor);
      }
    }
    assert enteringEdges[..numEnteringEdges] == enteringEdges;
    if node in cfa.enteringSummary {
      var summaryEdge := cfa.enteringSummary[node];
      return Location(summaryEdge.predecessor);
    }
    return Bottom;
  }

  /** getAllAbstractSuccessors: one element per entering edge, in list order, each the
      predecessor of its edge; the summary edge is not among them. */
  method GetAllAbstractSuccessors(cfa: Graph, node: Node) returns (r: seq<LocationElement>)
    requires node in cfa.entering
    ensures |r| == |cfa.entering[node]|
    ensures forall i | 0 <= i < |r| :: r[i] == Location(cfa.entering[node][i].predecessor)
  {
    r := [];
    var enteringEdges := cfa.entering[node];
    for edgeIdx := 0 to |enteringEdges|
      invariant |r| == edgeIdx
      invariant forall i | 0 <= i < edgeIdx :: r[i] == Location(enteringEdges[i].predecessor)
    {
      var tempEdge := enteringEdges[edgeIdx];
      r := r + [Location(tempEdge.predecessor)];
    }
  }

  /** Both relations agree: the successor for an entering edge is among all successors,
      and in a valid CFA it is a node of the graph. */
  lemma SuccessorIsAmongAll(cfa: Graph, node: Node, cfaEdge: CfaEdge, all: seq<LocationElement>)
    requires cfa.Valid() && node in cfa.entering && cfaEdge in cfa.entering[node]
    requires |all| == |cfa.entering[node]|
    requires forall i | 0 <= i < |all| :: all[i] == Location(cfa.entering[node][i].predecessor)
    ensures Location(cfaEdge.predecessor) in all && cfaEdge.predecessor < cfa.nodeCount
  {
    var i :| 0 <= i < |cfa.entering[node]| && cfa.entering[node][i] == cfaEdge;
    assert all[i] == Location(cfaEdge.predecessor);
  }
}
