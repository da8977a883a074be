/**
 How far the depth-bounded cycle check keeps the dependency graph a DAG. The documentation promises a DAG outright.
 The check looks only `depth` levels deep and ignores that its search was cut off, so the promise holds under exact
 conditions, which are proved here, and fails on a long chain, which is exhibited.
 */
module DependencyDag {
  import opened Prelude
  import opened Walks
  import opened Schema
  import opened Inventory
  import opened GraphIntegrity

  ghost predicate Dag(s: State) {
    Acyclic(DependencyArcs(s.edges))
  }

  /** A search from `start` was cut off: some node lies in the last layer it may report. */
  ghost predicate Truncated(arcs: Arcs, start: Node, depth: nat) {
    exists n :: AtDistance(arcs, start, n, depth)
  }

  /** With at most `depth + 1` items every sound state is a DAG apart from permitted self-loops. */
  lemma SmallInventoryIsDag(s: State, depth: nat)
    requires Integrity(s, depth) && |s.cis| <= depth + 1
    ensures Dag(s)
  {
    FewNodesNoCycle(DependencyArcs(s.edges), s.cis.Keys, depth + 1);
  }

  /**
   An accepted dependency edge between two items keeps a DAG exactly when its source was out of reach of its target.
   */
  lemma DependencyEdgeKeepsDagIff(s: State, req: EdgeRequest, depth: nat)
    requires Integrity(s, depth) && Dag(s)
    requires Verdict(s, req, depth).None? && Resolve(s, Lower(req.relType)).value.dependency && req.From() != req.To()
    ensures Dag(CreateEdge(s, req, depth).0) <==> !Reachable(DependencyArcs(s.edges), req.To(), req.From())
  {
    var e := NewEdge(Resolve(s, Lower(req.relType)).value, req);
    assert s.nextId !in s.edges;
    ArcsAfterInsert(s.edges, s.nextId, e);
    ArcKeepsAcyclicIff(DependencyArcs(s.edges), e.from, e.to);
  }

  /**
   The bounded check from `t` decides every source correctly exactly when nothing lies one level beyond the bound,
   that is, when a search from `t` with the bound raised by one would not be cut off.
   */
  lemma CheckExactIff(arcs: Arcs, t: Node, depth: nat)
    requires Acyclic(arcs)
    ensures (forall f :: f != t ==> (Within(arcs, t, f, depth) <==> !Acyclic(arcs + {(f, t)}))) <==>
            !Truncated(arcs, t, depth + 1)
  {
    forall f | f != t
      ensures Acyclic(arcs + {(f, t)}) <==> !Reachable(arcs, t, f)
    {
      ArcKeepsAcyclicIff(arcs, f, t);
    }
    var d := depth + 1;
    if !Truncated(arcs, t, d) {
      forall f | f != t
        ensures Within(arcs, t, f, depth) <==> Reachable(arcs, t, f)
      {
        EmptyLayerMeansAll(arcs, t, f, d);
        assert !AtDistance(arcs, t, f, d);
        if Within(arcs, t, f, depth) {
          WithinMonotone(arcs, arcs, t, f, depth, d);
        }
      }
    } else {
      var n :| AtDistance(arcs, t, n, depth + 1);
      WithinSelf(arcs, t, depth);
      assert n != t && !Within(arcs, t, n, depth) && Reachable(arcs, t, n);
    }
  }

  // ------------------------------------------------------------ runs

  /** The search that guarded this edge, if it was accepted as a dependency, was not cut off. */
  ghost predicate CarefulStep(s: State, step: Step, depth: nat) {
    (step.AddEdge? && Verdict(s, step.req, depth).None? && Resolve(s, Lower(step.req.relType)).value.dependency) ==>
      !Truncated(DependencyArcs(s.edges), step.req.To(), depth)
  }

  ghost predicate CarefulRun(s: State, steps: seq<Step>, depth: nat) {
    steps != [] ==>
      && CarefulRun(s, steps[..|steps| - 1], depth)
      && CarefulStep(Run(s, steps[..|steps| - 1], depth), steps[|steps| - 1], depth)
  }

  lemma UntruncatedEdgeKeepsDag(s: State, req: EdgeRequest, depth: nat)
    requires Integrity(s, depth) && Dag(s) && CarefulStep(s, AddEdge(req), depth)
    ensures Dag(CreateEdge(s, req, depth).0)
  {
    if Verdict(s, req, depth).None? {
      AcceptedEffect(s, req, depth);
      var arcs := DependencyArcs(s.edges);
      var e := NewEdge(Resolve(s, Lower(req.relType)).value, req);
      assert s.nextId !in s.edges;
      ArcsAfterInsert(s.edges, s.nextId, e);
      if !e.dependency {
        assert arcs + {} == arcs;
      } else if e.from == e.to {
        SelfArcKeepsAcyclic(arcs, e.from);
      } else {
        EmptyLayerMeansAll(arcs, e.to, e.from, depth);
        ArcKeepsAcyclicIff(arcs, e.from, e.to);
      }
    }
  }

  lemma OtherStepsKeepEdges(s: State, step: Step, depth: nat)
    requires !step.AddEdge? && !step.DropEdge? && !step.DropCi?
    ensures Perform(s, step, depth).edges == s.edges
  {
    if step.Discover? {
      DiscoveryLeavesContracts(s, step.ciType, step.data, step.source, step.extId, step.runId);
    }
  }

  /** Only edge creation adds arcs: deleting edges or items, detaching and all other steps never do. */
  lemma OtherStepsAddNoArc(s: State, step: Step, depth: nat)
    requires !step.AddEdge?
    ensures DependencyArcs(Perform(s, step, depth).edges) <= DependencyArcs(s.edges)
  {
    if step.DropEdge? {
      FewerEdgesFewerArcs(s.edges, {step.id});
    } else if step.DropCi? {
      FewerEdgesFewerArcs(s.edges, IncidentToAny(s.edges, {step.node}));
    } else {
      OtherStepsKeepEdges(s, step, depth);
    }
  }

  lemma CarefulStepKeepsDag(s: State, step: Step, depth: nat)
    requires Integrity(s, depth) && Dag(s) && CarefulStep(s, step, depth)
    ensures Dag(Perform(s, step, depth))
  {
    if step.AddEdge? {
      UntruncatedEdgeKeepsDag(s, step.req, depth);
    } else {
      OtherStepsAddNoArc(s, step, depth);
      FewerArcsFewerCycles(DependencyArcs(s.edges), DependencyArcs(Perform(s, step, depth).edges), 0);
    }
  }

  /**
   If every accepted dependency edge passed a search that was not cut off, the graph stays a DAG for the whole run.
   */
  lemma {:induction false} CarefulRunStaysDag(s: State, steps: seq<Step>, depth: nat)
    requires Integrity(s, depth) && Dag(s) && CarefulRun(s, steps, depth)
    ensures Dag(Run(s, steps, depth))
  {
    if steps != [] {
      var earlier := Run(s, steps[..|steps| - 1], depth);
      var step := steps[|steps| - 1];
      CarefulRunStaysDag(s, steps[..|steps| - 1], depth);
      RunKeepsIntegrity(s, steps[..|steps| - 1], depth);
      CarefulStepKeepsDag(earlier, step, depth);
    }
  }

  // ------------------------------------------------------------ the long chain

  const LINK := RelDef("link", ["*"], ["*"], ManyToMany, true, false)

  /** Servers have one optional text field. */
  const SERVER: Model := map["note" := Rule(Primitive(StringType), Length(None, None), false, Null)]
  const BLANK: Doc := map["note" := Null]

  lemma BlankServer()
    ensures Validate(SERVER, map[]) == Some(BLANK) && Validate(SERVER, BLANK) == Some(BLANK)
  {
    assert FieldValue(SERVER["note"], map[], "note") == Some(Null);
    assert FieldValue(SERVER["note"], BLANK, "note") == Some(Null);
    assert Validate(SERVER, map[]).value == BLANK && Validate(SERVER, BLANK).value == BLANK;
  }

  function Server(i: nat): Node {
    Node("server", i)
  }

  function LinkRequest(i: nat, j: nat): EdgeRequest {
    EdgeRequest("link", "server", i, "server", j, map[], None, None)
  }

  /** Registers the contract and one CI type, then creates the items `0 .. n` . */
  function Items(n: nat): seq<Step> {
    if n == 0 then [AddRelType(LINK), SetType("server", TypeDef(SERVER, 1)), AddCi("server", map[])]
    else Items(n - 1) + [AddCi("server", map[])]
  }

  /** Then links each of the first `k` items to its successor. */
  function Chain(n: nat, k: nat): seq<Step> {
    if k == 0 then Items(n) else Chain(n, k - 1) + [AddEdge(LinkRequest(k - 1, k))]
  }

  /** Items `0 .. n` exist, the first `k` links exist, and nothing else links anything. */
  ghost predicate IsChain(s: State, n: nat, k: nat) {
    && Resolve(s, "link") == Some(LINK)
    && FindType(s, "server") == Some(TypeDef(SERVER, 1))
    && s.nextId == n + 1 + k
    && (forall i: nat | i <= n :: Server(i) in s.cis)
    && (forall id :: id in s.edges <==> n < id <= n + k)
    && (forall id | id in s.edges :: s.edges[id].relType == "link" && s.edges[id].dependency &&
          s.edges[id].from == Server(id - n - 1) && s.edges[id].to == Server(id - n))
  }

  lemma LowerNames()
    ensures Lower("server") == "server" && Lower("link") == "link"
  {
  }

  lemma FirstItem(depth: nat)
    ensures IsChain(Run(EMPTY, Items(0), depth), 0, 0)
  {
    LowerNames();
    var steps := Items(0);
    var s1 := CreateRelType(EMPTY, LINK).0;
    var s2 := s1.(types := s1.types["server" := TypeDef(SERVER, 1)]);
    assert steps[..2][..1][..0] == [] && steps[..2][..1] == [AddRelType(LINK)];
    assert Run(EMPTY, steps[..2][..1], depth) == s1;
    assert Run(EMPTY, steps[..2], depth) == s2;
    assert Run(EMPTY, steps, depth) == CreateCi(s2, "server", map[]).0;
    BlankServer();
  }

  lemma NextItem(s: State, n: nat)
    requires IsChain(s, n, 0)
    ensures IsChain(CreateCi(s, "server", map[]).0, n + 1, 0)
  {
    BlankServer();
    assert CreateCi(s, "server", map[]).0 == InsertCi(s, "server", Ci(BLANK, 1, 1, NO_PROVENANCE));
  }

  lemma {:induction false} ItemsMakeChain(n: nat, depth: nat)
    ensures IsChain(Run(EMPTY, Items(n), depth), n, 0)
  {
    if n == 0 {
      FirstItem(depth);
    } else {
      ItemsMakeChain(n - 1, depth);
      var steps := Items(n);
      assert steps[..|steps| - 1] == Items(n - 1) && steps[|steps| - 1] == AddCi("server", map[]);
      NextItem(Run(EMPTY, Items(n - 1), depth), n - 1);
    }
  }

  /** Along the chain every walk climbs one item per arc. */
  lemma {:induction false} ChainWalksClimb(s: State, n: nat, k: nat, p: seq<Node>, i: nat)
    requires IsChain(s, n, k) && IsWalk(DependencyArcs(s.edges), p) && i < |p|
    ensures p[i].oid == p[0].oid + i
  {
    if i > 0 {
      ChainWalksClimb(s, n, k, p, i - 1);
      assert (p[i - 1], p[i - 1 + 1]) in DependencyArcs(s.edges);
    }
  }

  lemma ChainLinkAccepted(s: State, n: nat, k: nat, i: nat, j: nat, depth: nat)
    requires IsChain(s, n, k) && i <= n && j <= n && i != j
    requires forall id | id in s.edges :: s.edges[id].from != Server(i) || s.edges[id].to != Server(j)
    requires i < j || i > j + depth
    ensures Verdict(s, LinkRequest(i, j), depth).None?
  {
    LowerNames();
    var arcs := DependencyArcs(s.edges);
    if Within(arcs, Server(j), Server(i), depth) {
      var p :| Joins(arcs, p, Server(j), Server(i)) && |p| <= depth + 1;
      ChainWalksClimb(s, n, k, p, |p| - 1);
    }
  }

  lemma InsertedLinkLengthensChain(s: State, n: nat, k: nat)
    requires IsChain(s, n, k)
    ensures IsChain(InsertEdge(s, NewEdge(LINK, LinkRequest(k, k + 1))), n, k + 1)
  {
    LowerNames();
    var e := NewEdge(LINK, LinkRequest(k, k + 1));
    assert e.relType == "link" && e.dependency && e.from == Server(k) && e.to == Server(k + 1);
    var s' := InsertEdge(s, e);
    assert s'.edges == s.edges[n + 1 + k := e] && s'.cis == s.cis;
  }

  lemma LinkLengthensChain(s: State, n: nat, k: nat, depth: nat)
    requires IsChain(s, n, k) && k < n
    requires Verdict(s, LinkRequest(k, k + 1), depth).None?
    ensures IsChain(CreateEdge(s, LinkRequest(k, k + 1), depth).0, n, k + 1)
  {
    LowerNames();
    AcceptedEffect(s, LinkRequest(k, k + 1), depth);
    InsertedLinkLengthensChain(Remember(s, "link"), n, k);
  }

  lemma {:induction false} ChainBuilds(n: nat, k: nat, depth: nat)
    requires k <= n
    ensures IsChain(Run(EMPTY, Chain(n, k), depth), n, k)
  {
    if k == 0 {
      ItemsMakeChain(n, depth);
    } else {
      ChainBuilds(n, k - 1, depth);
      var steps := Chain(n, k);
      assert steps[..|steps| - 1] == Chain(n, k - 1) && steps[|steps| - 1] == AddEdge(LinkRequest(k - 1, k));
      var s := Run(EMPTY, Chain(n, k - 1), depth);
      ChainLinkAccepted(s, n, k - 1, k - 1, k, depth);
      LinkLengthensChain(s, n, k - 1, depth);
    }
  }

  /** The chain of `depth + 2` items followed by the edge from its end to its start. */
  function LongChain(depth: nat): seq<Step> {
    Chain(depth + 1, depth + 1) + [AddEdge(LinkRequest(depth + 1, 0))]
  }

  lemma ChainIsWalk(s: State, n: nat, c: seq<Node>)
    requires IsChain(s, n, n) && |c| == n + 1 && forall i: nat | i <= n :: c[i] == Server(i)
    ensures IsWalk(DependencyArcs(s.edges), c)
  {
    forall i | 0 <= i < |c| - 1
      ensures (c[i], c[i + 1]) in DependencyArcs(s.edges)
    {
      var id := n + 1 + i;
      assert id in s.edges && s.edges[id].dependency && (c[i], c[i + 1]) == (s.edges[id].from, s.edges[id].to);
    }
  }

  lemma ClosingLinkMakesCycle(s: State, n: nat, depth: nat)
    requires IsChain(s, n, n) && Verdict(s, LinkRequest(n, 0), depth).None? && n > 0
    ensures !Dag(CreateEdge(s, LinkRequest(n, 0), depth).0)
  {
    LowerNames();
    AcceptedEffect(s, LinkRequest(n, 0), depth);
    var e := NewEdge(LINK, LinkRequest(n, 0));
    assert s.nextId !in s.edges;
    ArcsAfterInsert(s.edges, s.nextId, e);
    var c := seq(n + 1, i requires 0 <= i < n + 1 => Server(i));
    ChainIsWalk(s, n, c);
    assert SimpleCycle(DependencyArcs(s.edges) + {(Server(n), Server(0))}, c);
  }

  /**
   Whatever the bound, a run from the empty inventory closes a dependency cycle one item longer than the bound covers.
   */
  lemma LongChainClosesCycle(depth: nat)
    ensures !Dag(Run(EMPTY, LongChain(depth), depth))
  {
    var n := depth + 1;
    var steps := LongChain(depth);
    assert steps[..|steps| - 1] == Chain(n, n) && steps[|steps| - 1] == AddEdge(LinkRequest(n, 0));
    ChainBuilds(n, n, depth);
    var s := Run(EMPTY, Chain(n, n), depth);
    ChainLinkAccepted(s, n, n, n, 0, depth);
    ClosingLinkMakesCycle(s, n, depth);
  }
}
