/** What a pass over settled edges reports, and a condition under which one pass settles them. */
module EdgeReruns {
  import opened Prelude
  import opened Walks
  import opened Schema
  import opened Inventory
  import opened GraphIntegrity
  import opened EdgeReconciliation

  // ------------------------------------------------------------ the report of a settled pass

  lemma StoredEdgeObeys(s: State, req: EdgeRequest, depth: nat)
    requires Integrity(s, depth) && Resolve(s, Lower(req.relType)).Some?
    requires HasEdge(s.edges, Lower(req.relType), req.From(), req.To())
    ensures var def, f, t := Resolve(s, Lower(req.relType)).value, req.From(), req.To();
      && Allows(def.fromTypes, f.ciType) && Allows(def.toTypes, t.ciType) && (f == t ==> def.allowSelf)
      && f in s.cis && t in s.cis && (def.dependency ==> (f, t) in DependencyArcs(s.edges))
  {
    var id :| id in s.edges && SameEdge(s.edges[id], Lower(req.relType), req.From(), req.To());
    assert Obeys(s.edges[id], s.relTypes);
  }

  lemma StoredEdgeBlocks(s: State, req: EdgeRequest)
    requires RegistrySound(s) && Resolve(s, Lower(req.relType)).Some?
    requires HasEdge(s.edges, Lower(req.relType), req.From(), req.To())
    ensures var def := Resolve(s, Lower(req.relType)).value;
      && def.name == Lower(req.relType)
      && (CardinalityBlocks(s.edges, def, req.From(), req.To()) <==> !def.cardinality.ManyToMany?)
  {
    var id :| id in s.edges && SameEdge(s.edges[id], Lower(req.relType), req.From(), req.To());
  }

  /**
   Asking again for an edge that is stored is answered with a duplicate if its type is unlimited; otherwise the edge
   itself uses up the limit, which is checked first.
   */
  lemma StoredEdgeVerdict(s: State, req: EdgeRequest, depth: nat)
    requires Integrity(s, depth) && Resolve(s, Lower(req.relType)).Some?
    requires HasEdge(s.edges, Lower(req.relType), req.From(), req.To())
    ensures Verdict(s, req, depth) ==
      if Resolve(s, Lower(req.relType)).value.cardinality.ManyToMany? then Some(DuplicateEdge)
      else Some(CardinalityViolation)
  {
    var def, f, t := Resolve(s, Lower(req.relType)).value, req.From(), req.To();
    StoredEdgeObeys(s, req, depth);
    StoredEdgeBlocks(s, req);
    if def.dependency && f != t {
      ArcHasNoShortWayBack(DependencyArcs(s.edges), f, t, depth);
    }
  }

  lemma SameViewSameVerdict(s: State, t: State, req: EdgeRequest, depth: nat)
    requires SameView(s, t) && t.edges == s.edges
    ensures Verdict(t, req, depth) == Verdict(s, req, depth)
  {
  }

  /** What a pass over settled edges says of one of them: nothing if it finds a duplicate, else an error. */
  ghost function SettledIssue(s: State, e: EdgeRef, ids: IdMap, depth: nat): Option<Issue> {
    if !Resolved(e, ids) then Some(Issue(e.relType, UnresolvedEndpoint))
    else
      var verdict := Verdict(s, RequestFor(e, ids, "", ""), depth);
      if verdict == Some(DuplicateEdge) || verdict == None then None
      else Some(Issue(e.relType, Refused(verdict.value)))
  }

  ghost function SettledIssues(s: State, refs: seq<EdgeRef>, ids: IdMap, depth: nat): seq<Issue> {
    if refs == [] then []
    else
      var issue := SettledIssue(s, refs[|refs| - 1], ids, depth);
      SettledIssues(s, refs[..|refs| - 1], ids, depth) + if issue.Some? then [issue.value] else []
  }

  lemma AnyRunSameVerdict(s: State, t: State, e: EdgeRef, ids: IdMap, source: string, runId: string, depth: nat)
    requires SameView(s, t) && t.edges == s.edges && Resolved(e, ids)
    ensures Verdict(t, RequestFor(e, ids, source, runId), depth) == Verdict(s, RequestFor(e, ids, "", ""), depth)
  {
    SameViewSameVerdict(s, t, RequestFor(e, ids, source, runId), depth);
  }

  lemma SettledWant(s: State, p: EdgePassState, e: EdgeRef, ids: IdMap, source: string, runId: string, depth: nat)
    requires SameView(s, p.s) && p.s.edges == s.edges
    requires Resolved(e, ids) ==> Verdict(p.s, RequestFor(e, ids, source, runId), depth).Some?
    ensures var q := Want(p, e, ids, source, runId, depth);
      var issue := SettledIssue(s, e, ids, depth);
      q.report == if issue.Some? then p.report.(errors := p.report.errors + [issue.value])
                  else p.report.(unmodified := p.report.unmodified + 1)
  {
    if Resolved(e, ids) {
      var req := RequestFor(e, ids, source, runId);
      AnyRunSameVerdict(s, p.s, e, ids, source, runId, depth);
      var verdict := Verdict(p.s, req, depth);
      assert CreateEdge(p.s, req, depth).1 == Err(verdict.value);
    }
  }

  lemma {:induction false} SettledWantAll(s: State, refs: seq<EdgeRef>, ids: IdMap, source: string, runId: string,
                                          depth: nat)
    requires Handled(s, refs, ids, source, runId, depth)
    ensures var q := WantAll(EdgePassState(s, EMPTY_REL_REPORT), refs, ids, source, runId, depth);
      var issues := SettledIssues(s, refs, ids, depth);
      |issues| <= |refs| && q.report == RelReport(0, |refs| - |issues|, 0, issues)
  {
    if refs != [] {
      var start := EdgePassState(s, EMPTY_REL_REPORT);
      var earlier, last := refs[..|refs| - 1], refs[|refs| - 1];
      var m := WantAll(start, earlier, ids, source, runId, depth);
      SettledWantAll(s, earlier, ids, source, runId, depth);
      NothingLeftToWant(start, earlier, ids, source, runId, depth);
      if Resolved(last, ids) {
        SameViewSameVerdict(s, m.s, RequestFor(last, ids, source, runId), depth);
      }
      SettledWant(s, m, last, ids, source, runId, depth);
    }
  }

  /**
   The whole report of a pass that has nothing left to do: every wanted edge is unchanged or an error, and which it is
   depends on the state and the edge alone.
   */
  lemma SettledReport(s: State, refs: seq<EdgeRef>, ids: IdMap, source: string, runId: string, runId': string,
                      depth: nat)
    requires Handled(s, refs, ids, source, runId, depth) && OwnedAreDesired(s, refs, ids, source)
    ensures var issues := SettledIssues(s, refs, ids, depth);
      && |issues| <= |refs|
      && EdgePass(s, refs, ids, source, runId', depth).report == RelReport(0, |refs| - |issues|, 0, issues)
  {
    HandledUnderAnyRun(s, refs, ids, source, runId, runId', depth);
    SettledWantAll(s, refs, ids, source, runId', depth);
    SettledPassChangesNothing(s, refs, ids, source, runId, runId', depth);
  }

  /** A stored edge of a limited type is an error of every settled pass, one of an unlimited type never is. */
  lemma StoredEdgeIssue(s: State, e: EdgeRef, ids: IdMap, depth: nat)
    requires Integrity(s, depth) && EdgeStored(s, e, ids) && Resolve(s, Lower(e.relType)).Some?
    ensures SettledIssue(s, e, ids, depth) ==
      if Resolve(s, Lower(e.relType)).value.cardinality.ManyToMany? then None
      else Some(Issue(e.relType, Refused(CardinalityViolation)))
  {
    StoredEdgeVerdict(s, RequestFor(e, ids, "", ""), depth);
  }

  // ------------------------------------------------------------ stale edges that are in nobody's way

  function FromOf(e: EdgeRef, ids: IdMap): Node
    requires Resolved(e, ids)
  {
    Node(Lower(e.fromType), ids[(e.fromType, e.fromExt)])
  }

  function ToOf(e: EdgeRef, ids: IdMap): Node
    requires Resolved(e, ids)
  {
    Node(Lower(e.toType), ids[(e.toType, e.toExt)])
  }

  function WantedArcs(refs: seq<EdgeRef>, ids: IdMap): Arcs {
    set e | e in refs && Resolved(e, ids) :: (FromOf(e, ids), ToOf(e, ids))
  }

  /** The arc lies on a walk from `a` to `b` of at most `k` arcs. */
  ghost predicate OnWalk(arcs: Arcs, a: Node, b: Node, k: nat, u: Node, v: Node) {
    exists p, i | Joins(arcs, p, a, b) && |p| <= k + 1 && 0 <= i < |p| - 1 :: p[i] == u && p[i + 1] == v
  }

  /**
   The edge uses up a limited end of the wanted one, or is a dependency on a walk that leads back along it, over the
   dependencies there are and everything wanted.
   */
  ghost predicate InTheWay(s: State, x: Edge, e: EdgeRef, refs: seq<EdgeRef>, ids: IdMap, depth: nat)
    requires Resolved(e, ids)
  {
    var answer := Resolve(s, Lower(e.relType));
    && answer.Some?
    && var def, f, t := answer.value, FromOf(e, ids), ToOf(e, ids);
    || (x.relType == def.name && ((SourceLimited(def.cardinality) && x.from == f) ||
        (TargetLimited(def.cardinality) && x.to == t)))
    || (def.dependency && f != t && x.dependency &&
        OnWalk(DependencyArcs(s.edges) + WantedArcs(refs, ids), t, f, depth, x.from, x.to))
  }

  /** No stale edge is in the way of a wanted one. */
  ghost predicate Unobstructed(s: State, refs: seq<EdgeRef>, ids: IdMap, source: string, depth: nat) {
    forall id, e | id in StaleEdges(s.edges, source, DesiredKeys(refs, ids)) && id in s.edges &&
        e in refs && Resolved(e, ids) ::
      !InTheWay(s, s.edges[id], e, refs, ids, depth)
  }

  /** Every edge that `t` has beyond those of `s` joins the ends of a wanted one. */
  ghost predicate NewAreWanted(s: State, t: State, refs: seq<EdgeRef>, ids: IdMap) {
    forall id | id in t.edges && id !in s.edges :: (t.edges[id].from, t.edges[id].to) in WantedArcs(refs, ids)
  }

  lemma WantMakesWanted(p: EdgePassState, e: EdgeRef, refs: seq<EdgeRef>, ids: IdMap, source: string, runId: string,
                        depth: nat)
    requires e in refs
    ensures NewAreWanted(p.s, Want(p, e, ids, source, runId, depth).s, refs, ids)
  {
    if Resolved(e, ids) {
      var req := RequestFor(e, ids, source, runId);
      assert Want(p, e, ids, source, runId, depth).s == CreateEdge(p.s, req, depth).0;
      assert (req.From(), req.To()) in WantedArcs(refs, ids);
      if Verdict(p.s, req, depth).None? {
        AcceptedEffect(p.s, req, depth);
      }
    }
  }

  lemma {:induction false} WantAllMakesWanted(p: EdgePassState, done: seq<EdgeRef>, refs: seq<EdgeRef>, ids: IdMap,
                                              source: string, runId: string, depth: nat)
    requires Integrity(p.s, depth) && forall e :: e in done ==> e in refs
    ensures NewAreWanted(p.s, WantAll(p, done, ids, source, runId, depth).s, refs, ids)
  {
    if done != [] {
      var earlier, last := done[..|done| - 1], done[|done| - 1];
      var m := WantAll(p, earlier, ids, source, runId, depth);
      WantAllMakesWanted(p, earlier, refs, ids, source, runId, depth);
      WantAllHandles(p, earlier, ids, source, runId, depth);
      WantMakesWanted(m, last, refs, ids, source, runId, depth);
      WantKeeps(m, last, ids, source, runId, depth);
    }
  }

  lemma GrownArcs(s: State, w: State, refs: seq<EdgeRef>, ids: IdMap)
    requires Grown(s, w) && NewAreWanted(s, w, refs, ids)
    ensures DependencyArcs(w.edges) <= DependencyArcs(s.edges) + WantedArcs(refs, ids)
  {
    forall x | x in DependencyArcs(w.edges)
      ensures x in DependencyArcs(s.edges) + WantedArcs(refs, ids)
    {
      var id :| id in w.edges && w.edges[id].dependency && x == (w.edges[id].from, w.edges[id].to);
      if id in s.edges {
        assert s.edges[id].dependency && x == (s.edges[id].from, s.edges[id].to);
      }
    }
  }

  /** A walk none of whose arcs is one of the removed edges is still there without them. */
  lemma WalkSurvives(edges: map<nat, Edge>, removed: set<nat>, more: Arcs, a: Node, b: Node, k: nat)
    requires Within(DependencyArcs(edges), a, b, k) && DependencyArcs(edges) <= more
    requires forall id | id in removed && id in edges && edges[id].dependency ::
      !OnWalk(more, a, b, k, edges[id].from, edges[id].to)
    ensures Within(DependencyArcs(edges - removed), a, b, k)
  {
    var p :| Joins(DependencyArcs(edges), p, a, b) && |p| <= k + 1;
    assert Joins(more, p, a, b);
    forall i | 0 <= i < |p| - 1
      ensures (p[i], p[i + 1]) in DependencyArcs(edges - removed)
    {
      assert (p[i], p[i + 1]) in DependencyArcs(edges);
      var id :| id in edges && edges[id].dependency && (p[i], p[i + 1]) == (edges[id].from, edges[id].to);
      assert OnWalk(more, a, b, k, edges[id].from, edges[id].to);
      assert id in edges - removed && (edges - removed)[id] == edges[id];
    }
    assert Joins(DependencyArcs(edges - removed), p, a, b);
  }

  /** What was rejected with the stale edges there is rejected without them. */
  lemma RejectedWithoutStale(s: State, w: State, refs: seq<EdgeRef>, ids: IdMap, source: string, runId: string,
                             depth: nat, e: EdgeRef)
    requires Grown(s, w) && NewAreWanted(s, w, refs, ids) && RegistrySound(w) && Canonical(refs)
    requires Unobstructed(s, refs, ids, source, depth) && e in refs && Resolved(e, ids)
    requires StaleEdges(w.edges, source, DesiredKeys(refs, ids)) == StaleEdges(s.edges, source, DesiredKeys(refs, ids))
    requires Verdict(w, RequestFor(e, ids, source, runId), depth).Some?
    ensures var stale := StaleEdges(w.edges, source, DesiredKeys(refs, ids));
      Verdict(RemoveEdges(w, stale), RequestFor(e, ids, source, runId), depth).Some?
  {
    var stale := StaleEdges(w.edges, source, DesiredKeys(refs, ids));
    var t, req := RemoveEdges(w, stale), RequestFor(e, ids, source, runId);
    var answer := Resolve(w, Lower(req.relType));
    assert answer == Resolve(s, Lower(e.relType)) && Resolve(t, Lower(req.relType)) == answer;
    assert req.From() == FromOf(e, ids) && req.To() == ToOf(e, ids);
    if answer.Some? {
      LimitSurvives(s, w, refs, ids, source, depth, e);
      DuplicateSurvives(w, refs, ids, source, e);
      if answer.value.dependency && req.From() != req.To() {
        WayBackSurvives(s, w, refs, ids, source, depth, e);
      }
    }
  }

  lemma LimitSurvives(s: State, w: State, refs: seq<EdgeRef>, ids: IdMap, source: string, depth: nat, e: EdgeRef)
    requires Grown(s, w) && Unobstructed(s, refs, ids, source, depth) && e in refs && Resolved(e, ids)
    requires StaleEdges(w.edges, source, DesiredKeys(refs, ids)) == StaleEdges(s.edges, source, DesiredKeys(refs, ids))
    requires Resolve(w, Lower(e.relType)).Some?
    ensures var def, f, t := Resolve(w, Lower(e.relType)).value, FromOf(e, ids), ToOf(e, ids);
      CardinalityBlocks(w.edges, def, f, t) ==>
        CardinalityBlocks(w.edges - StaleEdges(w.edges, source, DesiredKeys(refs, ids)), def, f, t)
  {
    var def, f, t := Resolve(w, Lower(e.relType)).value, FromOf(e, ids), ToOf(e, ids);
    var stale := StaleEdges(w.edges, source, DesiredKeys(refs, ids));
    assert Resolve(s, Lower(e.relType)) == Resolve(w, Lower(e.relType));
    forall id | id in w.edges && w.edges[id].relType == def.name &&
        ((SourceLimited(def.cardinality) && w.edges[id].from == f) ||
         (TargetLimited(def.cardinality) && w.edges[id].to == t))
      ensures id in w.edges - stale && (w.edges - stale)[id] == w.edges[id]
    {
      assert id in s.edges ==> s.edges[id] == w.edges[id];
    }
  }

  lemma WayBackSurvives(s: State, w: State, refs: seq<EdgeRef>, ids: IdMap, source: string, depth: nat, e: EdgeRef)
    requires Grown(s, w) && NewAreWanted(s, w, refs, ids) && Unobstructed(s, refs, ids, source, depth)
    requires StaleEdges(w.edges, source, DesiredKeys(refs, ids)) == StaleEdges(s.edges, source, DesiredKeys(refs, ids))
    requires e in refs && Resolved(e, ids) && FromOf(e, ids) != ToOf(e, ids)
    requires Resolve(w, Lower(e.relType)).Some? && Resolve(w, Lower(e.relType)).value.dependency
    ensures var rest := w.edges - StaleEdges(w.edges, source, DesiredKeys(refs, ids));
      Within(DependencyArcs(w.edges), ToOf(e, ids), FromOf(e, ids), depth) ==>
        Within(DependencyArcs(rest), ToOf(e, ids), FromOf(e, ids), depth)
  {
    var stale := StaleEdges(w.edges, source, DesiredKeys(refs, ids));
    var all, f, t := DependencyArcs(s.edges) + WantedArcs(refs, ids), FromOf(e, ids), ToOf(e, ids);
    assert Resolve(s, Lower(e.relType)) == Resolve(w, Lower(e.relType));
    if Within(DependencyArcs(w.edges), t, f, depth) {
      GrownArcs(s, w, refs, ids);
      forall id | id in stale && id in w.edges && w.edges[id].dependency
        ensures !OnWalk(all, t, f, depth, w.edges[id].from, w.edges[id].to)
      {
        assert id in s.edges && s.edges[id] == w.edges[id] && !InTheWay(s, s.edges[id], e, refs, ids, depth);
      }
      WalkSurvives(w.edges, stale, all, t, f, depth);
    }
  }

  lemma DuplicateSurvives(w: State, refs: seq<EdgeRef>, ids: IdMap, source: string, e: EdgeRef)
    requires RegistrySound(w) && Canonical(refs) && e in refs && Resolved(e, ids)
    requires Resolve(w, Lower(e.relType)).Some?
    ensures var def, f, t := Resolve(w, Lower(e.relType)).value, FromOf(e, ids), ToOf(e, ids);
      HasEdge(w.edges, def.name, f, t) ==>
        HasEdge(w.edges - StaleEdges(w.edges, source, DesiredKeys(refs, ids)), def.name, f, t)
  {
    var def, f, t := Resolve(w, Lower(e.relType)).value, FromOf(e, ids), ToOf(e, ids);
    var rest := w.edges - StaleEdges(w.edges, source, DesiredKeys(refs, ids));
    if HasEdge(w.edges, def.name, f, t) {
      var id :| id in w.edges && SameEdge(w.edges[id], def.name, f, t);
      assert def.name == Lower(e.relType) == e.relType;
      assert StoredKey(w.edges[id]) == KeyOf(e, ids) && KeyOf(e, ids) in DesiredKeys(refs, ids);
      assert id in rest && SameEdge(rest[id], def.name, f, t);
    }
  }

  /** A pass leaves everything wanted handled, whatever it deletes, if no stale edge was in the way of a wanted one. */
  lemma UnobstructedPassHandles(s: State, refs: seq<EdgeRef>, ids: IdMap, source: string, runId: string, depth: nat)
    requires Integrity(s, depth) && Canonical(refs) && Unobstructed(s, refs, ids, source, depth)
    ensures Handled(EdgePass(s, refs, ids, source, runId, depth).s, refs, ids, source, runId, depth)
  {
    var start := EdgePassState(s, EMPTY_REL_REPORT);
    var w := WantAll(start, refs, ids, source, runId, depth).s;
    WantAllHandles(start, refs, ids, source, runId, depth);
    WantAllMakesWanted(start, refs, refs, ids, source, runId, depth);
    StaleUnmoved(s, refs, ids, source, runId, depth);
    forall e | e in refs && Resolved(e, ids)
      ensures Verdict(EdgePass(s, refs, ids, source, runId, depth).s, RequestFor(e, ids, source, runId), depth).Some?
    {
      RejectedWithoutStale(s, w, refs, ids, source, runId, depth, e);
    }
  }
}
