/** The driver of an analysis (CPAchecker): splicing the global declarations into the
    CFA of the main function, the verdict over the reached set, the layering of the
    analysis algorithms, and the run that yields UNKNOWN whenever a stage gives up.
    Parsing, CFA construction, the CPA and the algorithms themselves are parameters. */
module CpaChecker {
  import opened Wrappers
  import opened Cfa

  /** A global simple declaration: its raw signature and starting line. */
  datatype GlobalDeclaration = GlobalDeclaration(rawSignature: string, line: int)

  /** The declaration edge for the `j`-th declaration, when the chain's head node is
      `head` and the first new edge number is `firstEdge`. */
  function DeclarationEdge(globalVars: seq<GlobalDeclaration>, head: Node, firstEdge: nat, j: nat): CfaEdge
    requires j < |globalVars|
  {
    CfaEdge(firstEdge + j, Cfa.GlobalDeclaration, globalVars[j].rawSignature, globalVars[j].line, head + j, head + j + 1)
  }

  /** What the splice requires of the entry node: exactly one leaving edge, a blank one
      (hence no jump), and no leaving summary edge. */
  ghost predicate SpliceableEntry(cfa: Graph, entry: Node)
    reads cfa
  {
    && entry in cfa.leaving && |cfa.leaving[entry]| == 1
    && cfa.leaving[entry][0].kind == Blank
    && entry !in cfa.leavingSummary
  }

  /** The first `i` declaration edges chain the nodes `head` .. `head + i`: each is the
      only edge leaving its first node and the only edge entering its second. */
  ghost predicate Chained(leaving: map<Node, seq<CfaEdge>>, entering: map<Node, seq<CfaEdge>>,
                          globalVars: seq<GlobalDeclaration>, head: Node, firstEdge: nat, i: nat)
    requires i <= |globalVars|
  {
    forall j | 0 <= j < i :: ChainLink(leaving, entering, globalVars, head, firstEdge, j)
  }

  /** The `j`-th declaration edge is the only edge leaving node `head + j` and the only
      edge entering node `head + j + 1`. */
  ghost predicate ChainLink(leaving: map<Node, seq<CfaEdge>>, entering: map<Node, seq<CfaEdge>>,
                            globalVars: seq<GlobalDeclaration>, head: Node, firstEdge: nat, j: nat)
    requires j < |globalVars|
  {
    && head + j in leaving && leaving[head + j] == [DeclarationEdge(globalVars, head, firstEdge, j)]
    && head + j + 1 in entering && entering[head + j + 1] == [DeclarationEdge(globalVars, head, firstEdge, j)]
  }

  /** The lists of the nodes below `bound`, except `except`, are as they were. */
  ghost predicate AgreeBelow(m: map<Node, seq<CfaEdge>>, m0: map<Node, seq<CfaEdge>>, bound: Node, except: Node)
  {
    forall n: Node | n < bound && n != except && n in m0 :: n in m && m[n] == m0[n]
  }

  /** Every node of `m0` keeps its value in `m`. */
  ghost predicate Extends<V>(m: map<Node, V>, m0: map<Node, V>)
  {
    forall n: Node | n in m0 :: n in m && m[n] == m0[n]
  }

  /** A map extended by a new key, and then extended again, still extends the first. */
  lemma ExtendsFresh<V>(m: map<Node, V>, m1: map<Node, V>, m0: map<Node, V>, k: Node, v: V)
    requires k !in m0 && m1 == m0[k := v] && Extends(m, m1)
    ensures Extends(m, m0)
  {
  }

  /** The line numbers of the chain nodes `head` .. `head + i`: 0 for the head, and the
      starting line of its declaration for every later node. */
  ghost predicate ChainLines(lineNumber: map<Node, int>, globalVars: seq<GlobalDeclaration>, head: Node, i: nat)
    requires i <= |globalVars|
  {
    && head in lineNumber && lineNumber[head] == 0
    && forall j | 0 <= j < i :: head + j + 1 in lineNumber && lineNumber[head + j + 1] == globalVars[j].line
  }

  /** The CFA after the splice, in terms of the lists before it: `head` is the first new
      node and `firstEdge` the first new edge number. */
  ghost predicate Spliced(leaving0: map<Node, seq<CfaEdge>>, entering0: map<Node, seq<CfaEdge>>,
                          leaving: map<Node, seq<CfaEdge>>, entering: map<Node, seq<CfaEdge>>,
                          entry: Node, globalVars: seq<GlobalDeclaration>, head: Node, firstEdge: nat)
    requires entry in leaving0 && leaving0[entry] != []
  {
    var k := |globalVars|;
    var oldEdge := leaving0[entry][0];
    var secondNode := oldEdge.successor;
    var initEdge := CfaEdge(firstEdge + k, Blank, "INIT GLOBAL VARS", 0, entry, head);
    var closingEdge := CfaEdge(firstEdge + k + 1, Blank, oldEdge.rawStatement, oldEdge.lineNumber, head + k, secondNode);
    && Chained(leaving, entering, globalVars, head, firstEdge, k)
    && entry in leaving && leaving[entry] == [initEdge]
    && head in entering && entering[head] == [initEdge]
    && head + k in leaving && leaving[head + k] == [closingEdge]
    && secondNode in entering0 && secondNode in entering
    && entering[secondNode] == RemoveFirst(entering0[secondNode], oldEdge) + [closingEdge]
    && AgreeBelow(leaving, leaving0, head, entry)
    && AgreeBelow(entering, entering0, head, secondNode)
  }

  /** insertGlobalDeclarations: a head node and one node per declaration, chained by one
      declaration edge each in input order, go between the entry node and the node its
      single blank edge led to. That edge is removed; a blank "INIT GLOBAL VARS" edge
      leads from the entry to the head, and a blank edge with the old edge's statement
      and line leads from the last declaration node to the old second node. */
  method InsertGlobalDeclarations(cfa: Graph, entry: Node, globalVars: seq<GlobalDeclaration>)
    requires cfa.Valid() && entry < cfa.nodeCount
    requires globalVars != [] ==> SpliceableEntry(cfa, entry)
    modifies cfa
    ensures cfa.Valid()
    ensures globalVars == [] ==> unchanged(cfa)
    ensures cfa.leavingSummary == old(cfa.leavingSummary) && cfa.enteringSummary == old(cfa.enteringSummary)
    ensures globalVars != [] ==>
      && cfa.nodeCount == old(cfa.nodeCount) + |globalVars| + 1
      && cfa.edgeCount == old(cfa.edgeCount) + |globalVars| + 2
      && Spliced(old(cfa.leaving), old(cfa.entering), cfa.leaving, cfa.entering,
                 entry, globalVars, old(cfa.nodeCount), old(cfa.edgeCount))
      && (forall n: Node | old(cfa.nodeCount) <= n < cfa.nodeCount :: cfa.functionName[n] == old(cfa.functionName)[entry])
      && Extends(cfa.functionName, old(cfa.functionName))
      && Extends(cfa.lineNumber, old(cfa.lineNumber))
      && ChainLines(cfa.lineNumber, globalVars, old(cfa.nodeCount), |globalVars|)
  {
    if globalVars == [] {
      return;
    }
    ghost var e0 := cfa.edgeCount;
    ghost var leaving0: map<Node, seq<CfaEdge>> := cfa.leaving;
    ghost var entering0: map<Node, seq<CfaEdge>> := cfa.entering;
    var decls := BuildChain(cfa, entry, globalVars);
    var cur := decls[|decls| - 1];
    assert leaving0[entry][0] in leaving0[entry];
    SpliceDeclarations(cfa, entry, globalVars, decls[0], cur, leaving0, entering0, e0);
  }

  /** The head node, named after the entry's function, and the declaration chain after
      it; nothing below the head changes. */
  method BuildChain(cfa: Graph, entry: Node, globalVars: seq<GlobalDeclaration>) returns (decls: seq<Node>)
    requires cfa.Valid() && entry < cfa.nodeCount
    modifies cfa
    ensures var head := old(cfa.nodeCount);
      && cfa.Valid() && cfa.nodeCount == head + |globalVars| + 1 && cfa.edgeCount == old(cfa.edgeCount) + |globalVars|
      && |decls| == |globalVars| + 1 && decls[0] == head && decls[|globalVars|] == head + |globalVars|
      && cfa.leaving[head + |globalVars|] == [] && cfa.entering[head] == []
      && Chained(cfa.leaving, cfa.entering, globalVars, head, old(cfa.edgeCount), |globalVars|)
      && AgreeBelow(cfa.leaving, old(cfa.leaving), head, head) && AgreeBelow(cfa.entering, old(cfa.entering), head, head)
      && (forall n: Node | head <= n < cfa.nodeCount :: cfa.functionName[n] == old(cfa.functionName)[entry])
      && Extends(cfa.functionName, old(cfa.functionName)) && Extends(cfa.lineNumber, old(cfa.lineNumber))
      && ChainLines(cfa.lineNumber, globalVars, head, |globalVars|)
      && cfa.leavingSummary == old(cfa.leavingSummary) && cfa.enteringSummary == old(cfa.enteringSummary)
  {
    ghost var head: Node := cfa.nodeCount;
    var cur := cfa.NewNode(0, cfa.functionName[entry]);
    ghost var functionName1 := cfa.functionName;
    ghost var lineNumber1 := cfa.lineNumber;
    decls := AppendDeclarations(cfa, cur, globalVars);
    ExtendsFresh(cfa.functionName, functionName1, old(cfa.functionName), cur, old(cfa.functionName)[entry]);
    ExtendsFresh(cfa.lineNumber, lineNumber1, old(cfa.lineNumber), cur, 0);
  }

  /** Closes the chain `head` .. `last` into the CFA between the entry and its old
      successor. */
  method SpliceDeclarations(cfa: Graph, entry: Node, globalVars: seq<GlobalDeclaration>, head: Node, last: Node,
                            ghost leaving0: map<Node, seq<CfaEdge>>, ghost entering0: map<Node, seq<CfaEdge>>,
                            ghost e0: nat)
    requires cfa.Valid() && entry < head && last == head + |globalVars| && last < cfa.nodeCount
    requires SpliceableEntry(cfa, entry) && cfa.leaving[last] == [] && cfa.entering[head] == []
    requires cfa.edgeCount == e0 + |globalVars|
    requires Chained(cfa.leaving, cfa.entering, globalVars, head, e0, |globalVars|)
    requires AgreeBelow(cfa.leaving, leaving0, head, head) && AgreeBelow(cfa.entering, entering0, head, head)
    requires entry in leaving0 && leaving0[entry] == cfa.leaving[entry]
    requires leaving0[entry][0].successor < head && leaving0[entry][0].successor in entering0
    modifies cfa
    ensures cfa.Valid() && cfa.nodeCount == old(cfa.nodeCount) && cfa.edgeCount == old(cfa.edgeCount) + 2
    ensures cfa.functionName == old(cfa.functionName) && cfa.lineNumber == old(cfa.lineNumber)
    ensures cfa.leavingSummary == old(cfa.leavingSummary) && cfa.enteringSummary == old(cfa.enteringSummary)
    ensures Spliced(leaving0, entering0, cfa.leaving, cfa.entering, entry, globalVars, head, e0)
  {
    ghost var leaving2: map<Node, seq<CfaEdge>> := cfa.leaving;
    ghost var entering2: map<Node, seq<CfaEdge>> := cfa.entering;
    var oldEdge, initEdge, closingEdge := SplitOffFirstEdge(cfa, entry, head, last);
    SpliceFinish(leaving0, entering0, leaving2, entering2, cfa.leaving, cfa.entering, entry, globalVars, head, e0,
                 last, oldEdge, initEdge, closingEdge);
  }

  /** The declaration loop: after the head node `decls[0]`, one node and one declaration
      edge per declaration, in input order. */
  method AppendDeclarations(cfa: Graph, head: Node, globalVars: seq<GlobalDeclaration>) returns (decls: seq<Node>)
    requires cfa.Valid() && cfa.nodeCount == head + 1
    requires cfa.leaving[head] == [] && cfa.entering[head] == []
    modifies cfa
    ensures cfa.Valid() && cfa.nodeCount == head + |globalVars| + 1 && cfa.edgeCount == old(cfa.edgeCount) + |globalVars|
    ensures |decls| == |globalVars| + 1 && decls[0] == head && decls[|globalVars|] == head + |globalVars|
    ensures cfa.leaving[head + |globalVars|] == [] && cfa.entering[head] == []
    ensures Chained(cfa.leaving, cfa.entering, globalVars, head, old(cfa.edgeCount), |globalVars|)
    ensures AgreeBelow(cfa.leaving, old(cfa.leaving), head, head) && AgreeBelow(cfa.entering, old(cfa.entering), head, head)
    ensures forall n: Node | head <= n < cfa.nodeCount :: cfa.functionName[n] == old(cfa.functionName)[head]
    ensures Extends(cfa.functionName, old(cfa.functionName)) && Extends(cfa.lineNumber, old(cfa.lineNumber))
    ensures forall j | 0 <= j < |globalVars| :: cfa.lineNumber[head + j + 1] == globalVars[j].line
    ensures cfa.leavingSummary == old(cfa.leavingSummary) && cfa.enteringSummary == old(cfa.enteringSummary)
  {
    decls := [head];
    ghost var e0 := cfa.edgeCount;
    for i := 0 to |globalVars|
      invariant cfa.Valid() && cfa.nodeCount == head + i + 1 && cfa.edgeCount == e0 + i
      invariant |decls| == i + 1 && decls[0] == head && decls[i] == head + i
      invariant cfa.leaving[head + i] == [] && cfa.entering[head] == []
      invariant Chained(cfa.leaving, cfa.entering, globalVars, head, e0, i)
      invariant AgreeBelow(cfa.leaving, old(cfa.leaving), head, head) && AgreeBelow(cfa.entering, old(cfa.entering), head, head)
      invariant forall n: Node | head <= n <= head + i :: cfa.functionName[n] == old(cfa.functionName)[head]
      invariant Extends(cfa.functionName, old(cfa.functionName)) && Extends(cfa.lineNumber, old(cfa.lineNumber))
      invariant forall j | 0 <= j < i :: cfa.lineNumber[head + j + 1] == globalVars[j].line
      invariant cfa.leavingSummary == old(cfa.leavingSummary) && cfa.enteringSummary == old(cfa.enteringSummary)
    {
      decls := AppendNext(cfa, globalVars, head, e0, i, decls, old(cfa.leaving), old(cfa.entering), old(cfa.functionName)[head]);
    }
  }

  /** The body of the declaration loop, from the state after `i` declarations to the
      state after `i + 1`. */
  method AppendNext(cfa: Graph, globalVars: seq<GlobalDeclaration>, head: Node, ghost e0: nat, i: nat, decls: seq<Node>,
                    ghost leaving0: map<Node, seq<CfaEdge>>, ghost entering0: map<Node, seq<CfaEdge>>, ghost name: string)
    returns (decls': seq<Node>)
    requires i < |globalVars|
    requires cfa.Valid() && cfa.nodeCount == head + i + 1 && cfa.edgeCount == e0 + i
    requires |decls| == i + 1 && decls[0] == head && decls[i] == head + i
    requires cfa.leaving[head + i] == [] && cfa.entering[head] == []
    requires Chained(cfa.leaving, cfa.entering, globalVars, head, e0, i)
    requires AgreeBelow(cfa.leaving, leaving0, head, head) && AgreeBelow(cfa.entering, entering0, head, head)
    requires forall n: Node | head <= n <= head + i :: cfa.functionName[n] == name
    modifies cfa
    ensures cfa.Valid() && cfa.nodeCount == head + i + 2 && cfa.edgeCount == e0 + i + 1
    ensures |decls'| == i + 2 && decls'[0] == head && decls'[i + 1] == head + i + 1
    ensures cfa.leaving[head + i + 1] == [] && cfa.entering[head] == []
    ensures Chained(cfa.leaving, cfa.entering, globalVars, head, e0, i + 1)
    ensures AgreeBelow(cfa.leaving, leaving0, head, head) && AgreeBelow(cfa.entering, entering0, head, head)
    ensures forall n: Node | head <= n <= head + i + 1 :: cfa.functionName[n] == name
    ensures cfa.functionName == old(cfa.functionName)[head + i + 1 := name]
    ensures cfa.lineNumber == old(cfa.lineNumber)[head + i + 1 := globalVars[i].line]
    ensures cfa.leavingSummary == old(cfa.leavingSummary) && cfa.enteringSummary == old(cfa.enteringSummary)
  {
    AppendStep(cfa.leaving, cfa.entering, leaving0, entering0, globalVars, head, e0, i);
    var n := AppendDeclaration(cfa, globalVars, head, e0, i);
    decls' := decls + [n];
  }

  /** One more declaration edge extends the chain and leaves the lists below the head
      alone. */
  lemma AppendStep(leaving: map<Node, seq<CfaEdge>>, entering: map<Node, seq<CfaEdge>>,
                   leaving0: map<Node, seq<CfaEdge>>, entering0: map<Node, seq<CfaEdge>>,
                   globalVars: seq<GlobalDeclaration>, head: Node, firstEdge: nat, i: nat)
    requires i < |globalVars| && Chained(leaving, entering, globalVars, head, firstEdge, i)
    requires AgreeBelow(leaving, leaving0, head, head) && AgreeBelow(entering, entering0, head, head)
    ensures var e := DeclarationEdge(globalVars, head, firstEdge, i);
      && Chained(leaving[head + i + 1 := []][head + i := [e]], entering[head + i + 1 := [e]], globalVars, head, firstEdge, i + 1)
      && AgreeBelow(leaving[head + i + 1 := []][head + i := [e]], leaving0, head, head)
      && AgreeBelow(entering[head + i + 1 := [e]], entering0, head, head)
  {
    var e := DeclarationEdge(globalVars, head, firstEdge, i);
    var leaving' := leaving[head + i + 1 := []][head + i := [e]];
    var entering' := entering[head + i + 1 := [e]];
    forall j | 0 <= j < i + 1
      ensures ChainLink(leaving', entering', globalVars, head, firstEdge, j)
    {
      if j < i {
        assert ChainLink(leaving, entering, globalVars, head, firstEdge, j);
      }
    }
  }

  /** The two blank edges complete the splice. */
  lemma SpliceFinish(leaving0: map<Node, seq<CfaEdge>>, entering0: map<Node, seq<CfaEdge>>,
                     leaving2: map<Node, seq<CfaEdge>>, entering2: map<Node, seq<CfaEdge>>,
                     leaving: map<Node, seq<CfaEdge>>, entering: map<Node, seq<CfaEdge>>,
                     entry: Node, globalVars: seq<GlobalDeclaration>, head: Node, firstEdge: nat,
                     last: Node, oldEdge: CfaEdge, initEdge: CfaEdge, closingEdge: CfaEdge)
    requires entry < head && entry in leaving0 && leaving0[entry] != [] && oldEdge == leaving0[entry][0]
    requires oldEdge.successor < head && oldEdge.successor in entering0
    requires Chained(leaving2, entering2, globalVars, head, firstEdge, |globalVars|)
    requires AgreeBelow(leaving2, leaving0, head, head) && AgreeBelow(entering2, entering0, head, head)
    requires initEdge == CfaEdge(firstEdge + |globalVars|, Blank, "INIT GLOBAL VARS", 0, entry, head)
    requires last == head + |globalVars|
    requires closingEdge == CfaEdge(firstEdge + |globalVars| + 1, Blank, oldEdge.rawStatement, oldEdge.lineNumber,
                                    last, oldEdge.successor)
    requires leaving == leaving2[entry := [initEdge]][last := [closingEdge]]
    requires entering == entering2[head := [initEdge]]
                                  [oldEdge.successor := RemoveFirst(entering2[oldEdge.successor], oldEdge) + [closingEdge]]
    ensures Spliced(leaving0, entering0, leaving, entering, entry, globalVars, head, firstEdge)
  {
    forall j | 0 <= j < |globalVars|
      ensures ChainLink(leaving, entering, globalVars, head, firstEdge, j)
    {
      assert ChainLink(leaving2, entering2, globalVars, head, firstEdge, j);
    }
  }

  /** One iteration of the declaration loop: a new node after node `head + i`, and the
      declaration edge for `globalVars[i]` from that node to the new one. */
  method AppendDeclaration(cfa: Graph, globalVars: seq<GlobalDeclaration>, head: Node, ghost firstEdge: nat, i: nat)
    returns (n: Node)
    requires cfa.Valid() && i < |globalVars| && cfa.nodeCount == head + i + 1 && cfa.edgeCount == firstEdge + i
    requires cfa.leaving[head + i] == []
    modifies cfa
    ensures cfa.Valid() && n == head + i + 1 && cfa.nodeCount == n + 1 && cfa.edgeCount == old(cfa.edgeCount) + 1
    ensures var e := DeclarationEdge(globalVars, head, firstEdge, i);
      && cfa.leaving == old(cfa.leaving)[head + i + 1 := []][head + i := [e]]
      && cfa.entering == old(cfa.entering)[head + i + 1 := [e]]
    ensures cfa.functionName == old(cfa.functionName)[n := old(cfa.functionName)[head + i]]
    ensures cfa.lineNumber == old(cfa.lineNumber)[n := globalVars[i].line]
    ensures cfa.leavingSummary == old(cfa.leavingSummary) && cfa.enteringSummary == old(cfa.enteringSummary)
  {
    var cur := head + i;
    n := cfa.NewNode(globalVars[i].line, cfa.functionName[cur]);
    ghost var entering1 := cfa.entering;
    var e := Link(cfa, Cfa.GlobalDeclaration, globalVars[i].rawSignature, globalVars[i].line, cur, n);
    assert entering1[n] + [e] == [e];
  }

  /** The end of the splice: the entry's single edge is taken out, and two blank edges
      link the entry to the head of the chain and its end to the old second node. */
  method SplitOffFirstEdge(cfa: Graph, entry: Node, head: Node, last: Node)
    returns (firstEdge: CfaEdge, initEdge: CfaEdge, closingEdge: CfaEdge)
    requires cfa.Valid() && entry < cfa.nodeCount && head < cfa.nodeCount && last < cfa.nodeCount
    requires SpliceableEntry(cfa, entry)
    requires entry != head && entry != last && cfa.leaving[last] == [] && cfa.entering[head] == []
    requires cfa.leaving[entry][0].successor != head
    modifies cfa
    ensures cfa.Valid() && cfa.nodeCount == old(cfa.nodeCount) && cfa.edgeCount == old(cfa.edgeCount) + 2
    ensures cfa.functionName == old(cfa.functionName) && cfa.lineNumber == old(cfa.lineNumber)
    ensures cfa.leavingSummary == old(cfa.leavingSummary) && cfa.enteringSummary == old(cfa.enteringSummary)
    ensures firstEdge == old(cfa.leaving)[entry][0]
    ensures initEdge == CfaEdge(old(cfa.edgeCount), Blank, "INIT GLOBAL VARS", 0, entry, head)
    ensures closingEdge == CfaEdge(old(cfa.edgeCount) + 1, Blank, firstEdge.rawStatement, firstEdge.lineNumber, last, firstEdge.successor)
    ensures cfa.leaving == old(cfa.leaving)[entry := [initEdge]][last := [closingEdge]]
    ensures cfa.entering == old(cfa.entering)[head := [initEdge]]
                                        [firstEdge.successor := RemoveFirst(old(cfa.entering)[firstEdge.successor], firstEdge) + [closingEdge]]
  {
    ghost var leaving0 := cfa.leaving;
    ghost var entering0 := cfa.entering;
    firstEdge := DetachFirstEdge(cfa, entry);
    ghost var entering1 := cfa.entering;
    initEdge, closingEdge := LinkEnds(cfa, entry, head, last, firstEdge);
    Overwritten(leaving0, entry, [], [initEdge], last, [closingEdge]);
    Overwritten(entering0, firstEdge.successor, entering1[firstEdge.successor],
                entering1[firstEdge.successor] + [closingEdge], head, [initEdge]);
  }

  /** A key updated twice keeps only its second value, whatever is updated between. */
  lemma Overwritten<V>(m: map<Node, V>, k: Node, a: V, b: V, j: Node, c: V)
    ensures m[k := a][j := c][k := b] == m[j := c][k := b]
    ensures k != j ==> m[k := a][k := b][j := c] == m[k := b][j := c]
  {
  }

  /** The two blank edges of the splice: from the entry to the head of the chain, and
      from its last node to where `firstEdge` led, with that edge's statement and line. */
  method LinkEnds(cfa: Graph, entry: Node, head: Node, last: Node, firstEdge: CfaEdge)
    returns (initEdge: CfaEdge, closingEdge: CfaEdge)
    requires cfa.Valid() && entry < cfa.nodeCount && head < cfa.nodeCount && last < cfa.nodeCount
    requires firstEdge.successor < cfa.nodeCount && firstEdge.successor != head
    requires entry != last && cfa.leaving[entry] == [] && cfa.leaving[last] == [] && cfa.entering[head] == []
    modifies cfa
    ensures cfa.Valid() && cfa.nodeCount == old(cfa.nodeCount) && cfa.edgeCount == old(cfa.edgeCount) + 2
    ensures cfa.functionName == old(cfa.functionName) && cfa.lineNumber == old(cfa.lineNumber)
    ensures cfa.leavingSummary == old(cfa.leavingSummary) && cfa.enteringSummary == old(cfa.enteringSummary)
    ensures initEdge == CfaEdge(old(cfa.edgeCount), Blank, "INIT GLOBAL VARS", 0, entry, head)
    ensures closingEdge == CfaEdge(old(cfa.edgeCount) + 1, Blank, firstEdge.rawStatement, firstEdge.lineNumber, last, firstEdge.successor)
    ensures cfa.leaving == old(cfa.leaving)[entry := [initEdge]][last := [closingEdge]]
    ensures cfa.entering == old(cfa.entering)[head := [initEdge]]
                                        [firstEdge.successor := old(cfa.entering)[firstEdge.successor] + [closingEdge]]
  {
    ghost var entering1 := cfa.entering;
    initEdge := Link(cfa, Blank, "INIT GLOBAL VARS", 0, entry, head);
    assert entering1[head] + [initEdge] == [initEdge];
    closingEdge := Link(cfa, Blank, firstEdge.rawStatement, firstEdge.lineNumber, last, firstEdge.successor);
  }

  /** The entry's single leaving edge, removed from the entry's leaving list and from its
      successor's entering list. */
  method DetachFirstEdge(cfa: Graph, entry: Node) returns (firstEdge: CfaEdge)
    requires cfa.Valid() && entry < cfa.nodeCount && SpliceableEntry(cfa, entry)
    modifies cfa
    ensures firstEdge == old(cfa.leaving)[entry][0] && firstEdge.successor < cfa.nodeCount
    ensures cfa.Valid() && cfa.nodeCount == old(cfa.nodeCount) && cfa.edgeCount == old(cfa.edgeCount)
    ensures cfa.functionName == old(cfa.functionName) && cfa.lineNumber == old(cfa.lineNumber)
    ensures cfa.leavingSummary == old(cfa.leavingSummary) && cfa.enteringSummary == old(cfa.enteringSummary)
    ensures cfa.leaving == old(cfa.leaving)[entry := []]
    ensures cfa.entering == old(cfa.entering)[firstEdge.successor := RemoveFirst(old(cfa.entering)[firstEdge.successor], firstEdge)]
  {
    firstEdge := cfa.leaving[entry][0];
    assert firstEdge in cfa.leaving[entry];
    cfa.RemoveLeavingEdge(entry, firstEdge);
    assert cfa.leaving[entry] == [];
    cfa.RemoveEnteringEdge(firstEdge.successor, firstEdge);
  }

  /** A new non-jump edge, added to the CFA at a node that has no leaving edge yet. */
  method Link(cfa: Graph, kind: EdgeKind, rawStatement: string, line: int, predecessor: Node, successor: Node)
    returns (e: CfaEdge)
    requires cfa.Valid() && predecessor < cfa.nodeCount && successor < cfa.nodeCount
    requires kind != Jump && cfa.leaving[predecessor] == []
    modifies cfa
    ensures e == CfaEdge(old(cfa.edgeCount), kind, rawStatement, line, predecessor, successor)
    ensures cfa.Valid() && cfa.nodeCount == old(cfa.nodeCount) && cfa.edgeCount == old(cfa.edgeCount) + 1
    ensures cfa.functionName == old(cfa.functionName) && cfa.lineNumber == old(cfa.lineNumber)
    ensures cfa.leavingSummary == old(cfa.leavingSummary) && cfa.enteringSummary == old(cfa.enteringSummary)
    ensures cfa.leaving == old(cfa.leaving)[predecessor := [e]]
    ensures cfa.entering == old(cfa.entering)[successor := old(cfa.entering)[successor] + [e]]
  {
    e := cfa.NewEdge(kind, rawStatement, line, predecessor, successor);
    assert !cfa.HasJumpEdgeLeaving(predecessor);
    cfa.AddToCfa(e);
    assert [] + [e] == [e];
  }

  datatype Verdict = Unknown | Safe | Unsafe

  /** A reached abstract element, as far as the verdict sees it. */
  datatype ReachedElement = ReachedElement(id: nat, isError: bool)

  /** The verdict scan of runAlgorithm: UNSAFE at the first error element, SAFE when there
      is none. */
  method VerdictOf(reached: seq<ReachedElement>) returns (r: Verdict)
    ensures r != Unknown
    ensures r == Unsafe <==> exists i | 0 <= i < |reached| :: reached[i].isError
  {
    for i := 0 to |reached|
      invariant forall j | 0 <= j < i :: !reached[j].isError
    {
      if reached[i].isError {
        return Unsafe;
      }
    }
    return Safe;
  }

  datatype AlgorithmOptions = AlgorithmOptions(useRefinement: bool, useAssumptionCollector: bool, useCbmc: bool)

  datatype Algorithm =
    | CpaAlgorithm
    | CegarAlgorithm(inner: Algorithm)
    | AssumptionCollectionAlgorithm(inner: Algorithm)
    | CbmcAlgorithm(inner: Algorithm)

  datatype Layer = Cegar | AssumptionCollection | Cbmc

  /** The wrappers around the base algorithm, from the innermost outwards. */
  function Layers(a: Algorithm): seq<Layer>
  {
    match a
    case CpaAlgorithm => []
    case CegarAlgorithm(inner) => Layers(inner) + [Cegar]
    case AssumptionCollectionAlgorithm(inner) => Layers(inner) + [AssumptionCollection]
    case CbmcAlgorithm(inner) => Layers(inner) + [Cbmc]
  }

  /** The base of any wrapped algorithm. */
  function Base(a: Algorithm): Algorithm
  {
    match a
    case CpaAlgorithm => a
    case CegarAlgorithm(inner) => Base(inner)
    case AssumptionCollectionAlgorithm(inner) => Base(inner)
    case CbmcAlgorithm(inner) => Base(inner)
  }

  /** The layers the options ask for, from the innermost outwards: each at most once, in
      rank order (CEGAR innermost, CBMC outermost), each present exactly when its option
      is on. */
  function RequestedLayers(options: AlgorithmOptions): (layers: seq<Layer>)
    ensures |layers| <= 3
    ensures forall i, j | 0 <= i < j < |layers| :: LayerRank(layers[i]) < LayerRank(layers[j])
    ensures options.useRefinement <==> Cegar in layers
    ensures options.useAssumptionCollector <==> AssumptionCollection in layers
    ensures options.useCbmc <==> layers != [] && layers[|layers| - 1] == Cbmc
  {
    (if options.useRefinement then [Cegar] else []) +
    (if options.useAssumptionCollector then [AssumptionCollection] else []) +
    (if options.useCbmc then [Cbmc] else [])
  }

  /** createAlgorithm: the CPA algorithm, wrapped by CEGAR, then by assumption
      collection, then by CBMC, each only when its option is on. */
  method CreateAlgorithm(options: AlgorithmOptions) returns (algorithm: Algorithm)
    ensures Base(algorithm) == CpaAlgorithm
    ensures Layers(algorithm) == RequestedLayers(options)
  {
    algorithm := CpaAlgorithm;
    if options.useRefinement {
      algorithm := CegarAlgorithm(algorithm);
    }
    if options.useAssumptionCollector {
      algorithm := AssumptionCollectionAlgorithm(algorithm);
    }
    if options.useCbmc {
      algorithm := CbmcAlgorithm(algorithm);
    }
  }

  function LayerRank(l: Layer): nat
  {
    match l
    case Cegar => 0
    case AssumptionCollection => 1
    case Cbmc => 2
  }

  /** The exceptions run catches. */
  datatype Failure = CfaGenerationFailed | InvalidConfiguration | ForceStop | CpaFailure

  type Ast = nat
  type CfaHandle = nat

  /** Only the base algorithm wrapped by its layers: the two determine the algorithm. */
  lemma {:induction false} LayersDetermineAlgorithm(a: Algorithm, b: Algorithm)
    requires Base(a) == CpaAlgorithm && Base(b) == CpaAlgorithm && Layers(a) == Layers(b)
    ensures a == b
  {
    match a
    case CpaAlgorithm =>
      LayersOfWrapped(b);
    case CegarAlgorithm(inner) =>
      LayersOfWrapped(b);
      assert Layers(b)[|Layers(b)| - 1] == Cegar && b.CegarAlgorithm?;
      assert Layers(b.inner) == Layers(b)[..|Layers(b)| - 1] == Layers(inner);
      LayersDetermineAlgorithm(inner, b.inner);
    case AssumptionCollectionAlgorithm(inner) =>
      LayersOfWrapped(b);
      assert Layers(b)[|Layers(b)| - 1] == AssumptionCollection && b.AssumptionCollectionAlgorithm?;
      assert Layers(b.inner) == Layers(b)[..|Layers(b)| - 1] == Layers(inner);
      LayersDetermineAlgorithm(inner, b.inner);
    case CbmcAlgorithm(inner) =>
      LayersOfWrapped(b);
      assert Layers(b)[|Layers(b)| - 1] == Cbmc && b.CbmcAlgorithm?;
      assert Layers(b.inner) == Layers(b)[..|Layers(b)| - 1] == Layers(inner);
      LayersDetermineAlgorithm(inner, b.inner);
  }

  /** The outermost layer names the outermost wrapper. */
  lemma LayersOfWrapped(b: Algorithm)
    ensures b.CpaAlgorithm? <==> Layers(b) == []
    ensures b.CegarAlgorithm? ==> Layers(b) == Layers(b.inner) + [Cegar]
    ensures b.AssumptionCollectionAlgorithm? ==> Layers(b) == Layers(b.inner) + [AssumptionCollection]
    ensures b.CbmcAlgorithm? ==> Layers(b) == Layers(b.inner) + [Cbmc]
  {
  }

  /** Some reached element is an error element. */
  predicate HasError(reached: seq<ReachedElement>)
  {
    exists i | 0 <= i < |reached| :: reached[i].isError
  }

  /** The stages of an analysis run. */
  datatype Stages = Stages(
    // parsing: no translation unit when the parser failed
    parse: Result<Option<Ast>, Failure>,
    // CFA construction: nothing for an empty program
    createCfa: Ast -> Result<Option<CfaHandle>, Failure>,
    createCpa: Result<nat, Failure>,
    // the exception constructing the wrapper algorithms throws, if any
    createAlgorithm: Option<Failure>,
    // the algorithm's run from the initial reached set: the reached set afterwards and
    // the exception it ended with, if any
    runAlgorithm: (Algorithm, CfaHandle) -> (seq<ReachedElement>, Option<Failure>))

  /** Every stage before the analysis succeeds and no stop was requested. */
  predicate Proceeds(stages: Stages, stopRequested: bool)
  {
    && stages.parse.Success? && stages.parse.value.Some?
    && stages.createCfa(stages.parse.value.value).Success?
    && stages.createCfa(stages.parse.value.value).value.Some?
    && stages.createCpa.Success? && stages.createAlgorithm.None? && !stopRequested
  }

  /** The CFA the analysis runs on. */
  function CfaOf(stages: Stages): CfaHandle
    requires stages.parse.Success? && stages.parse.value.Some?
    requires stages.createCfa(stages.parse.value.value).Success?
    requires stages.createCfa(stages.parse.value.value).value.Some?
  {
    stages.createCfa(stages.parse.value.value).value.value
  }

  datatype CheckerResult = CheckerResult(verdict: Verdict, reached: Option<seq<ReachedElement>>)

  /** run: UNKNOWN and no reached set without a translation unit or a CFA, when a stage
      before the analysis throws, or when a stop was requested before the analysis;
      otherwise the reached set of the algorithm's run, with UNKNOWN when that run threw
      and the verdict over the reached set when it did not. */
  method Run(stages: Stages, options: AlgorithmOptions, stopRequested: bool)
    returns (r: CheckerResult, ghost algorithm: Algorithm)
    ensures Proceeds(stages, stopRequested) ==>
      Base(algorithm) == CpaAlgorithm && Layers(algorithm) == RequestedLayers(options)
    ensures !Proceeds(stages, stopRequested) ==> r == CheckerResult(Unknown, None)
    ensures Proceeds(stages, stopRequested) ==>
      var (reached, failure) := stages.runAlgorithm(algorithm, CfaOf(stages));
      && (failure.None? ==> r == CheckerResult(if HasError(reached) then Unsafe else Safe, Some(reached)))
      && (failure.Some? ==> r == CheckerResult(Unknown, Some(reached)))
    ensures r.verdict != Unknown ==> Proceeds(stages, stopRequested) && r.reached.Some?
  {
    var result := Unknown;
    var reached: Option<seq<ReachedElement>> := None;
    algorithm := CpaAlgorithm;
    if stages.parse.Failure? {
      return CheckerResult(result, reached), algorithm;
    }
    var ast := stages.parse.value;
    if ast.None? {
      return CheckerResult(Unknown, None), algorithm;
    }
    var cfa := stages.createCfa(ast.value);
    if cfa.Failure? {
      return CheckerResult(result, reached), algorithm;
    }
    if cfa.value.None? {
      return CheckerResult(Unknown, None), algorithm;
    }
    if stages.createCpa.Failure? {
      return CheckerResult(result, reached), algorithm;
    }
    var created := CreateAlgorithm(options);
    algorithm := created;
    if stages.createAlgorithm.Some? {
      return CheckerResult(result, reached), algorithm;
    }
    if !stopRequested {
      var (reachedAfter, failure) := stages.runAlgorithm(created, cfa.value.value);
      reached := Some(reachedAfter);
      if failure.None? {
        result := VerdictOf(reachedAfter);
      }
    }
    return CheckerResult(result, reached), algorithm;
  }
}
