/**
 The edge half of a discovery run: create what the snapshot wants, then delete what the source owns and no longer
 wants.
 */
module EdgeReconciliation {
  import opened Prelude
  import opened Walks
  import opened Schema
  import opened Inventory
  import opened GraphIntegrity
  import DependencyDag

  /** A discovered relationship; endpoints are named by type and external id. */
  datatype EdgeRef = EdgeRef(relType: string, fromType: string, fromExt: string, toType: string, toExt: string,
                             attributes: Doc)

  /** Which item each discovered endpoint was stored as. */
  type IdMap = map<(string, string), nat>

  datatype Problem = UnresolvedEndpoint | Refused(error: Error)

  datatype Issue = Issue(relType: string, problem: Problem)

  datatype RelReport = RelReport(created: nat, unmodified: nat, deleted: nat, errors: seq<Issue>)

  const EMPTY_REL_REPORT := RelReport(0, 0, 0, [])

  /** The key under which the source's edges are compared: the relation type as given and the two ids. */
  type EdgeKey = (string, nat, nat)

  predicate Resolved(e: EdgeRef, ids: IdMap) {
    (e.fromType, e.fromExt) in ids && (e.toType, e.toExt) in ids
  }

  function KeyOf(e: EdgeRef, ids: IdMap): EdgeKey
    requires Resolved(e, ids)
  {
    (e.relType, ids[(e.fromType, e.fromExt)], ids[(e.toType, e.toExt)])
  }

  function DesiredKeys(refs: seq<EdgeRef>, ids: IdMap): set<EdgeKey> {
    set e | e in refs && Resolved(e, ids) :: KeyOf(e, ids)
  }

  function StoredKey(e: Edge): EdgeKey {
    (e.relType, e.from.oid, e.to.oid)
  }

  function RequestFor(e: EdgeRef, ids: IdMap, source: string, runId: string): EdgeRequest
    requires Resolved(e, ids)
  {
    EdgeRequest(e.relType, e.fromType, ids[(e.fromType, e.fromExt)], e.toType, ids[(e.toType, e.toExt)], e.attributes,
        Some(source), Some(runId))
  }

  datatype EdgePassState = EdgePassState(s: State, report: RelReport)

  /** One desired edge: created, found present, or reported. */
  ghost function Want(p: EdgePassState, e: EdgeRef, ids: IdMap, source: string, runId: string,
                      depth: nat): EdgePassState {
    if !Resolved(e, ids) then
      p.(report := p.report.(errors := p.report.errors + [Issue(e.relType, UnresolvedEndpoint)]))
    else
      var (s', reply) := CreateEdge(p.s, RequestFor(e, ids, source, runId), depth);
      match reply
      case Ok(_) => EdgePassState(s', p.report.(created := p.report.created + 1))
      case Err(DuplicateEdge) => EdgePassState(s', p.report.(unmodified := p.report.unmodified + 1))
      case Err(error) => EdgePassState(s', p.report.(errors := p.report.errors + [Issue(e.relType, Refused(error))]))
  }

  ghost function WantAll(p: EdgePassState, refs: seq<EdgeRef>, ids: IdMap, source: string, runId: string,
                         depth: nat): EdgePassState {
    if refs == [] then p
    else Want(WantAll(p, refs[..|refs| - 1], ids, source, runId, depth), refs[|refs| - 1], ids, source, runId, depth)
  }

  /** The source's edges whose key is not desired. */
  function StaleEdges(edges: map<nat, Edge>, source: string, desired: set<EdgeKey>): set<nat> {
    set id | id in edges && edges[id].source == Some(source) && StoredKey(edges[id]) !in desired
  }

  ghost function EdgePass(s: State, refs: seq<EdgeRef>, ids: IdMap, source: string, runId: string,
                          depth: nat): EdgePassState {
    var wanted := WantAll(EdgePassState(s, EMPTY_REL_REPORT), refs, ids, source, runId, depth);
    var stale := StaleEdges(wanted.s.edges, source, DesiredKeys(refs, ids));
    EdgePassState(RemoveEdges(wanted.s, stale), wanted.report.(deleted := |stale|))
  }

  // ------------------------------------------------------------ views

  /** Two states answer every contract lookup alike and hold the same items. */
  ghost predicate SameView(s: State, t: State) {
    && s.cis.Keys == t.cis.Keys
    && forall name :: Resolve(s, name) == Resolve(t, name)
  }

  /** `t` shows the same contracts and items as `s` and at least its edges. */
  ghost predicate Grown(s: State, t: State) {
    && SameView(s, t)
    && (forall id | id in s.edges :: id in t.edges && t.edges[id] == s.edges[id])
  }

  lemma RememberIsInvisible(s: State, name: string)
    ensures SameView(s, Remember(s, name)) && Remember(s, name).edges == s.edges
  {
  }

  lemma MoreEdgesMoreArcs(s: State, t: State)
    requires Grown(s, t)
    ensures DependencyArcs(s.edges) <= DependencyArcs(t.edges)
  {
    forall x | x in DependencyArcs(s.edges)
      ensures x in DependencyArcs(t.edges)
    {
      var id :| id in s.edges && s.edges[id].dependency && x == (s.edges[id].from, s.edges[id].to);
      assert t.edges[id] == s.edges[id];
    }
  }

  lemma BlockedStaysBlocked(s: State, t: State, def: RelDef, f: Node, n: Node)
    requires Grown(s, t)
    ensures CardinalityBlocks(s.edges, def, f, n) ==> CardinalityBlocks(t.edges, def, f, n)
    ensures HasEdge(s.edges, def.name, f, n) ==> HasEdge(t.edges, def.name, f, n)
  {
    forall id | id in s.edges
      ensures id in t.edges && t.edges[id] == s.edges[id]
    {
    }
  }

  /** Every rejection of an edge is monotone: with more edges and the same contracts and items it is still rejected. */
  lemma RejectionIsMonotone(s: State, t: State, req: EdgeRequest, depth: nat)
    requires Grown(s, t) && Verdict(s, req, depth).Some?
    ensures Verdict(t, req, depth).Some?
  {
    MoreEdgesMoreArcs(s, t);
    var answer := Resolve(s, Lower(req.relType));
    assert Resolve(t, Lower(req.relType)) == answer;
    if answer.Some? {
      BlockedStaysBlocked(s, t, answer.value, req.From(), req.To());
      var arcs := DependencyArcs(s.edges);
      if Within(arcs, req.To(), req.From(), depth) {
        WithinMonotone(arcs, DependencyArcs(t.edges), req.To(), req.From(), depth, depth);
      }
    }
  }

  lemma GrownTransitive(s: State, t: State, u: State)
    requires Grown(s, t) && Grown(t, u)
    ensures Grown(s, u)
  {
  }

  /** An edge request once handled is rejected from then on: what was let in is now a duplicate or over the limit. */
  lemma HandledIsRejected(s: State, req: EdgeRequest, depth: nat)
    requires IdsFresh(s)
    ensures var s' := CreateEdge(s, req, depth).0; Grown(s, s') && Verdict(s', req, depth).Some?
  {
    var looked := Remember(s, Lower(req.relType));
    RememberIsInvisible(s, Lower(req.relType));
    if Verdict(s, req, depth).Some? {
      assert CreateEdge(s, req, depth).0 == looked;
      RejectionIsMonotone(s, looked, req, depth);
    } else {
      AcceptedEffect(s, req, depth);
      var e := NewEdge(Resolve(s, Lower(req.relType)).value, req);
      InsertedIsPresent(looked, e);
      var s' := InsertEdge(looked, e);
      GrownTransitive(s, looked, s');
      PresentIsRejected(s', req, e, depth);
    }
  }

  lemma InsertedIsPresent(s: State, e: Edge)
    requires IdsFresh(s)
    ensures Grown(s, InsertEdge(s, e)) && HasEdge(InsertEdge(s, e).edges, e.relType, e.from, e.to)
  {
    var s' := InsertEdge(s, e);
    assert s'.edges == s.edges[s.nextId := e] && s'.cis == s.cis;
    assert SameEdge(s'.edges[s.nextId], e.relType, e.from, e.to);
    forall name
      ensures Resolve(s, name) == Resolve(s', name)
    {
    }
  }

  lemma PresentIsRejected(s: State, req: EdgeRequest, e: Edge, depth: nat)
    requires Resolve(s, Lower(req.relType)).Some? && e == NewEdge(Resolve(s, Lower(req.relType)).value, req)
    requires HasEdge(s.edges, e.relType, e.from, e.to)
    ensures Verdict(s, req, depth).Some?
  {
  }

  // ------------------------------------------------------------ the creating loop

  ghost predicate Handled(s: State, refs: seq<EdgeRef>, ids: IdMap, source: string, runId: string, depth: nat) {
    forall e | e in refs && Resolved(e, ids) :: Verdict(s, RequestFor(e, ids, source, runId), depth).Some?
  }

  lemma WantKeeps(p: EdgePassState, e: EdgeRef, ids: IdMap, source: string, runId: string, depth: nat)
    requires Integrity(p.s, depth)
    ensures var q := Want(p, e, ids, source, runId, depth);
      Integrity(q.s, depth) && Grown(p.s, q.s)
  {
    if Resolved(e, ids) {
      var req := RequestFor(e, ids, source, runId);
      CreateEdgeKeeps(p.s, req, depth);
      HandledIsRejected(p.s, req, depth);
      assert Want(p, e, ids, source, runId, depth).s == CreateEdge(p.s, req, depth).0;
    }
  }

  /** After the loop every resolved edge has been handled, so asking again would be rejected. */
  lemma {:induction false} WantAllHandles(p: EdgePassState, refs: seq<EdgeRef>, ids: IdMap, source: string,
                                          runId: string, depth: nat)
    requires Integrity(p.s, depth)
    ensures var q := WantAll(p, refs, ids, source, runId, depth);
      Integrity(q.s, depth) && Grown(p.s, q.s) && Handled(q.s, refs, ids, source, runId, depth)
  {
    if refs != [] {
      var earlier, last := refs[..|refs| - 1], refs[|refs| - 1];
      WantAllHandles(p, earlier, ids, source, runId, depth);
      var m := WantAll(p, earlier, ids, source, runId, depth);
      var q := Want(m, last, ids, source, runId, depth);
      WantKeeps(m, last, ids, source, runId, depth);
      GrownTransitive(p.s, m.s, q.s);
      StillHandled(m.s, q.s, earlier, ids, source, runId, depth);
      if Resolved(last, ids) {
        WantHandles(m, last, ids, source, runId, depth);
      }
    }
  }

  lemma WantHandles(p: EdgePassState, e: EdgeRef, ids: IdMap, source: string, runId: string, depth: nat)
    requires Integrity(p.s, depth) && Resolved(e, ids)
    ensures Verdict(Want(p, e, ids, source, runId, depth).s, RequestFor(e, ids, source, runId), depth).Some?
  {
    HandledIsRejected(p.s, RequestFor(e, ids, source, runId), depth);
  }

  /** The run id of a request plays no part in its verdict. */
  lemma VerdictIgnoresRun(s: State, e: EdgeRef, ids: IdMap, source: string, runId: string, runId': string, depth: nat)
    requires Resolved(e, ids)
    ensures Verdict(s, RequestFor(e, ids, source, runId), depth) ==
      Verdict(s, RequestFor(e, ids, source, runId'), depth)
  {
  }

  lemma RejectedOnlyCaches(p: EdgePassState, e: EdgeRef, ids: IdMap, source: string, runId: string, depth: nat)
    requires Resolved(e, ids) ==> Verdict(p.s, RequestFor(e, ids, source, runId), depth).Some?
    ensures var q := Want(p, e, ids, source, runId, depth);
      q.s == p.s.(relCache := q.s.relCache) && SameView(p.s, q.s) && q.report.created == p.report.created
  {
    if Resolved(e, ids) {
      var req := RequestFor(e, ids, source, runId);
      RememberIsInvisible(p.s, Lower(req.relType));
      assert CreateEdge(p.s, req, depth).0 == Remember(p.s, Lower(req.relType));
    }
  }

  /**
   When every wanted edge would be rejected the loop creates nothing and writes nothing; at most contracts get cached.
   */
  lemma {:induction false} NothingLeftToWant(p: EdgePassState, refs: seq<EdgeRef>, ids: IdMap, source: string,
                                             runId: string, depth: nat)
    requires Handled(p.s, refs, ids, source, runId, depth)
    ensures var q := WantAll(p, refs, ids, source, runId, depth);
      q.s == p.s.(relCache := q.s.relCache) && SameView(p.s, q.s) && q.report.created == p.report.created
  {
    if refs != [] {
      var earlier, last := refs[..|refs| - 1], refs[|refs| - 1];
      NothingLeftToWant(p, earlier, ids, source, runId, depth);
      var m := WantAll(p, earlier, ids, source, runId, depth);
      assert Grown(p.s, m.s);
      if Resolved(last, ids) {
        RejectionIsMonotone(p.s, m.s, RequestFor(last, ids, source, runId), depth);
      }
      RejectedOnlyCaches(m, last, ids, source, runId, depth);
    }
  }

  // ------------------------------------------------------------ after a pass

  /** Relation types are given in the canonical lower-case form under which edges are stored. */
  ghost predicate Canonical(refs: seq<EdgeRef>) {
    forall e | e in refs :: Lower(e.relType) == e.relType
  }

  ghost predicate OwnedAreDesired(s: State, refs: seq<EdgeRef>, ids: IdMap, source: string) {
    forall id | id in s.edges && s.edges[id].source == Some(source) :: StoredKey(s.edges[id]) in DesiredKeys(refs, ids)
  }

  /** After a pass the source owns only edges it wants. */
  lemma OnlyDesiredRemain(s: State, refs: seq<EdgeRef>, ids: IdMap, source: string, runId: string, depth: nat)
    ensures OwnedAreDesired(EdgePass(s, refs, ids, source, runId, depth).s, refs, ids, source)
  {
    var wanted := WantAll(EdgePassState(s, EMPTY_REL_REPORT), refs, ids, source, runId, depth);
    var stale := StaleEdges(wanted.s.edges, source, DesiredKeys(refs, ids));
    var s' := EdgePass(s, refs, ids, source, runId, depth).s;
    assert s'.edges == wanted.s.edges - stale;
    forall id | id in s'.edges && s'.edges[id].source == Some(source)
      ensures StoredKey(s'.edges[id]) in DesiredKeys(refs, ids)
    {
      assert id !in stale;
    }
  }

  /** Every edge `t` has beyond those of `s` that the source owns is wanted. */
  ghost predicate NewAreDesired(s: State, t: State, refs: seq<EdgeRef>, ids: IdMap, source: string) {
    forall id | id in t.edges && id !in s.edges && t.edges[id].source == Some(source) ::
      StoredKey(t.edges[id]) in DesiredKeys(refs, ids)
  }

  lemma WantMakesDesired(p: EdgePassState, e: EdgeRef, refs: seq<EdgeRef>, ids: IdMap, source: string, runId: string,
                         depth: nat)
    requires RegistrySound(p.s) && e in refs && Canonical(refs)
    ensures NewAreDesired(p.s, Want(p, e, ids, source, runId, depth).s, refs, ids, source)
  {
    if Resolved(e, ids) {
      var req := RequestFor(e, ids, source, runId);
      assert Want(p, e, ids, source, runId, depth).s == CreateEdge(p.s, req, depth).0;
      if Verdict(p.s, req, depth).None? {
        AcceptedEffect(p.s, req, depth);
        assert KeyOf(e, ids) in DesiredKeys(refs, ids);
        var made := NewEdge(Resolve(p.s, Lower(req.relType)).value, req);
        assert made.relType == Lower(e.relType) == e.relType;
        assert StoredKey(made) == KeyOf(e, ids);
      }
    }
  }

  lemma {:induction false} WantAllMakesDesired(p: EdgePassState, done: seq<EdgeRef>, refs: seq<EdgeRef>, ids: IdMap,
                                               source: string, runId: string, depth: nat)
    requires Integrity(p.s, depth) && Canonical(refs)
    requires forall e :: e in done ==> e in refs
    ensures NewAreDesired(p.s, WantAll(p, done, ids, source, runId, depth).s, refs, ids, source)
  {
    if done != [] {
      var earlier, last := done[..|done| - 1], done[|done| - 1];
      var m := WantAll(p, earlier, ids, source, runId, depth);
      var q := Want(m, last, ids, source, runId, depth);
      WantAllMakesDesired(p, earlier, refs, ids, source, runId, depth);
      WantAllHandles(p, earlier, ids, source, runId, depth);
      WantMakesDesired(m, last, refs, ids, source, runId, depth);
      WantKeeps(m, last, ids, source, runId, depth);
    }
  }

  /** The creating loop adds no stale edge and removes none. */
  lemma StaleUnmoved(s: State, refs: seq<EdgeRef>, ids: IdMap, source: string, runId: string, depth: nat)
    requires Integrity(s, depth) && Canonical(refs)
    ensures var w := WantAll(EdgePassState(s, EMPTY_REL_REPORT), refs, ids, source, runId, depth);
      StaleEdges(w.s.edges, source, DesiredKeys(refs, ids)) == StaleEdges(s.edges, source, DesiredKeys(refs, ids))
  {
    var start := EdgePassState(s, EMPTY_REL_REPORT);
    WantAllHandles(start, refs, ids, source, runId, depth);
    WantAllMakesDesired(start, refs, refs, ids, source, runId, depth);
  }

  lemma OwnedMeansNoStale(s: State, refs: seq<EdgeRef>, ids: IdMap, source: string)
    ensures OwnedAreDesired(s, refs, ids, source) <==> StaleEdges(s.edges, source, DesiredKeys(refs, ids)) == {}
  {
    if StaleEdges(s.edges, source, DesiredKeys(refs, ids)) == {} {
      forall id | id in s.edges && s.edges[id].source == Some(source)
        ensures StoredKey(s.edges[id]) in DesiredKeys(refs, ids)
      {
        assert id !in StaleEdges(s.edges, source, DesiredKeys(refs, ids));
      }
    }
  }

  lemma PassKeeps(s: State, refs: seq<EdgeRef>, ids: IdMap, source: string, runId: string, depth: nat)
    requires Integrity(s, depth)
    ensures var s' := EdgePass(s, refs, ids, source, runId, depth).s; Integrity(s', depth) && SameView(s, s')
  {
    var start := EdgePassState(s, EMPTY_REL_REPORT);
    WantAllHandles(start, refs, ids, source, runId, depth);
    var wanted := WantAll(start, refs, ids, source, runId, depth);
    var stale := StaleEdges(wanted.s.edges, source, DesiredKeys(refs, ids));
    RemoveEdgesKeeps(wanted.s, stale, depth);
    var s' := RemoveEdges(wanted.s, stale);
    forall name
      ensures Resolve(s', name) == Resolve(s, name)
    {
    }
  }

  /** A pass that starts with no undesired owned edge deletes nothing, and afterwards every wanted edge is handled. */
  lemma PassWithoutStale(s: State, refs: seq<EdgeRef>, ids: IdMap, source: string, runId: string, depth: nat)
    requires Integrity(s, depth) && Canonical(refs) && OwnedAreDesired(s, refs, ids, source)
    ensures var q := EdgePass(s, refs, ids, source, runId, depth);
      && q.report.deleted == 0 && Grown(s, q.s) && Handled(q.s, refs, ids, source, runId, depth)
  {
    var start := EdgePassState(s, EMPTY_REL_REPORT);
    WantAllHandles(start, refs, ids, source, runId, depth);
    StaleUnmoved(s, refs, ids, source, runId, depth);
    OwnedMeansNoStale(s, refs, ids, source);
    OwnedMeansNoStale(WantAll(start, refs, ids, source, runId, depth).s, refs, ids, source);
    NoStaleNoDeletion(s, refs, ids, source, runId, depth);
    var w := WantAll(start, refs, ids, source, runId, depth).s;
    var s' := EdgePass(s, refs, ids, source, runId, depth).s;
    GrownTransitive(s, w, s');
    StillHandled(w, s', refs, ids, source, runId, depth);
  }

  lemma StillHandled(s: State, t: State, refs: seq<EdgeRef>, ids: IdMap, source: string, runId: string, depth: nat)
    requires Grown(s, t) && Handled(s, refs, ids, source, runId, depth)
    ensures Handled(t, refs, ids, source, runId, depth)
  {
    forall e | e in refs && Resolved(e, ids)
      ensures Verdict(t, RequestFor(e, ids, source, runId), depth).Some?
    {
      RejectionIsMonotone(s, t, RequestFor(e, ids, source, runId), depth);
    }
  }

  lemma NoStaleNoDeletion(s: State, refs: seq<EdgeRef>, ids: IdMap, source: string, runId: string, depth: nat)
    requires var w := WantAll(EdgePassState(s, EMPTY_REL_REPORT), refs, ids, source, runId, depth);
      OwnedAreDesired(w.s, refs, ids, source)
    ensures var w := WantAll(EdgePassState(s, EMPTY_REL_REPORT), refs, ids, source, runId, depth);
      var q := EdgePass(s, refs, ids, source, runId, depth);
      q.report.deleted == 0 && Grown(w.s, q.s) && q.s.edges == w.s.edges && q.report.created == w.report.created
  {
    var w := WantAll(EdgePassState(s, EMPTY_REL_REPORT), refs, ids, source, runId, depth);
    var stale := StaleEdges(w.s.edges, source, DesiredKeys(refs, ids));
    assert stale == {};
    var s' := RemoveEdges(w.s, stale);
    assert s'.edges == w.s.edges;
    forall name
      ensures Resolve(s', name) == Resolve(w.s, name)
    {
    }
  }

  // ------------------------------------------------------------ convergence

  /** Everything wanted is already handled and everything owned is wanted: the pass changes no edge. */
  lemma SettledPassChangesNothing(s: State, refs: seq<EdgeRef>, ids: IdMap, source: string, runId: string,
                                  runId': string, depth: nat)
    requires Handled(s, refs, ids, source, runId, depth) && OwnedAreDesired(s, refs, ids, source)
    ensures var q := EdgePass(s, refs, ids, source, runId', depth);
      q.s.edges == s.edges && q.report.created == 0 && q.report.deleted == 0
  {
    forall e | e in refs && Resolved(e, ids)
      ensures Verdict(s, RequestFor(e, ids, source, runId'), depth).Some?
    {
      VerdictIgnoresRun(s, e, ids, source, runId, runId', depth);
    }
    NothingLeftToWant(EdgePassState(s, EMPTY_REL_REPORT), refs, ids, source, runId', depth);
    NoStaleNoDeletion(s, refs, ids, source, runId', depth);
  }

  /**
   `t` continues where the pass that ended in `s` left off, with no other writer of contracts, edges or the set of
   items.
   */
  ghost predicate Continues(s: State, t: State, depth: nat) {
    SameView(s, t) && t.edges == s.edges && Integrity(t, depth)
  }

  lemma WantCounts(p: EdgePassState, e: EdgeRef, ids: IdMap, source: string, runId: string, depth: nat)
    requires IdsFresh(p.s)
    ensures var q := Want(p, e, ids, source, runId, depth);
      q.report.deleted == p.report.deleted && q.report.created + |p.s.edges| == p.report.created + |q.s.edges|
  {
    if Resolved(e, ids) {
      var req := RequestFor(e, ids, source, runId);
      var s' := CreateEdge(p.s, req, depth).0;
      assert Want(p, e, ids, source, runId, depth).s == s';
      if Verdict(p.s, req, depth).None? {
        AcceptedEffect(p.s, req, depth);
        assert p.s.nextId !in p.s.edges && |s'.edges| == |p.s.edges| + 1;
      }
    }
  }

  lemma {:induction false} WantAllCounts(p: EdgePassState, refs: seq<EdgeRef>, ids: IdMap, source: string,
                                         runId: string, depth: nat)
    requires Integrity(p.s, depth)
    ensures var q := WantAll(p, refs, ids, source, runId, depth);
      q.report.deleted == p.report.deleted && q.report.created + |p.s.edges| == p.report.created + |q.s.edges|
  {
    if refs != [] {
      var earlier, last := refs[..|refs| - 1], refs[|refs| - 1];
      WantAllCounts(p, earlier, ids, source, runId, depth);
      WantAllHandles(p, earlier, ids, source, runId, depth);
      WantCounts(WantAll(p, earlier, ids, source, runId, depth), last, ids, source, runId, depth);
    }
  }

  lemma RemainingEdges(edges: map<nat, Edge>, ids: set<nat>)
    requires ids <= edges.Keys
    ensures |edges - ids| + |ids| == |edges|
  {
    assert (edges - ids).Keys == edges.Keys - ids;
  }

  /** The edges grow by those created and shrink by those deleted. */
  lemma PassCounts(s: State, refs: seq<EdgeRef>, ids: IdMap, source: string, runId: string, depth: nat)
    requires Integrity(s, depth)
    ensures var q := EdgePass(s, refs, ids, source, runId, depth);
      |q.s.edges| + q.report.deleted == |s.edges| + q.report.created
  {
    var start := EdgePassState(s, EMPTY_REL_REPORT);
    var w := WantAll(start, refs, ids, source, runId, depth);
    WantAllCounts(start, refs, ids, source, runId, depth);
    RemainingEdges(w.s.edges, StaleEdges(w.s.edges, source, DesiredKeys(refs, ids)));
  }

  lemma SameSizeSameEdges(a: map<nat, Edge>, b: map<nat, Edge>)
    requires |a| == |b| && forall id | id in a :: id in b && b[id] == a[id]
    ensures a == b
  {
    assert a.Keys <= b.Keys && |b.Keys - a.Keys| == |b.Keys| - |a.Keys|;
    assert b.Keys - a.Keys == {};
    assert a.Keys == b.Keys;
  }

  /**
   Without stale edges a pass creates nothing, and changes no edge, exactly if everything wanted is handled already.
   */
  lemma PassChangesNothingIff(s: State, refs: seq<EdgeRef>, ids: IdMap, source: string, run: string, runId: string,
                              depth: nat)
    requires Integrity(s, depth) && Canonical(refs) && OwnedAreDesired(s, refs, ids, source)
    ensures var q := EdgePass(s, refs, ids, source, runId, depth);
      && (q.report.created == 0 <==> Handled(s, refs, ids, source, run, depth))
      && (q.s.edges == s.edges <==> Handled(s, refs, ids, source, run, depth))
  {
    var q := EdgePass(s, refs, ids, source, runId, depth);
    PassWithoutStale(s, refs, ids, source, runId, depth);
    PassCounts(s, refs, ids, source, runId, depth);
    if Handled(s, refs, ids, source, run, depth) {
      SettledPassChangesNothing(s, refs, ids, source, run, runId, depth);
    }
    if q.report.created == 0 || q.s.edges == s.edges {
      SameSizeSameEdges(s.edges, q.s.edges);
      StillHandled(q.s, s, refs, ids, source, runId, depth);
      HandledUnderAnyRun(s, refs, ids, source, runId, run, depth);
    }
  }

  lemma HandledUnderAnyRun(s: State, refs: seq<EdgeRef>, ids: IdMap, source: string, runId: string, runId': string,
                           depth: nat)
    requires Handled(s, refs, ids, source, runId, depth)
    ensures Handled(s, refs, ids, source, runId', depth)
  {
    forall e | e in refs && Resolved(e, ids)
      ensures Verdict(s, RequestFor(e, ids, source, runId'), depth).Some?
    {
      VerdictIgnoresRun(s, e, ids, source, runId, runId', depth);
    }
  }

  /** What is deleted is known before the pass: it deletes exactly the edges that are stale when it begins. */
  lemma DeletedIsStaleBefore(s: State, refs: seq<EdgeRef>, ids: IdMap, source: string, runId: string, depth: nat)
    requires Integrity(s, depth) && Canonical(refs)
    ensures var q := EdgePass(s, refs, ids, source, runId, depth);
      var stale := StaleEdges(s.edges, source, DesiredKeys(refs, ids));
      && q.report.deleted == |stale| && (forall id | id in stale :: id !in q.s.edges)
      && (forall id | id in s.edges && id !in stale :: id in q.s.edges && q.s.edges[id] == s.edges[id])
  {
    WantAllHandles(EdgePassState(s, EMPTY_REL_REPORT), refs, ids, source, runId, depth);
    StaleUnmoved(s, refs, ids, source, runId, depth);
  }

  /**
   Repeating one snapshot reaches a fixed point. The second pass deletes no edge and keeps all it found; the third
   leaves the edges exactly as the second did. The second pass already changes nothing if and only if the first has
   left everything wanted handled, which it has when no edge was stale before it.
   */
  lemma EdgesConverge(s0: State, t1: State, t2: State, refs: seq<EdgeRef>, ids: IdMap, source: string,
                      run1: string, run2: string, run3: string, depth: nat)
    requires Integrity(s0, depth) && Canonical(refs)
    requires Continues(EdgePass(s0, refs, ids, source, run1, depth).s, t1, depth)
    requires Continues(EdgePass(t1, refs, ids, source, run2, depth).s, t2, depth)
    ensures var p1, p2 := EdgePass(s0, refs, ids, source, run1, depth), EdgePass(t1, refs, ids, source, run2, depth);
      && p2.report.deleted == 0
      && (forall id | id in p1.s.edges :: id in p2.s.edges && p2.s.edges[id] == p1.s.edges[id])
      && (p2.report.created == 0 <==> Handled(p1.s, refs, ids, source, run1, depth))
      && (p2.s.edges == p1.s.edges <==> Handled(p1.s, refs, ids, source, run1, depth))
    ensures var p2, p3 := EdgePass(t1, refs, ids, source, run2, depth), EdgePass(t2, refs, ids, source, run3, depth);
      p3.report.created == 0 && p3.report.deleted == 0 && p3.s.edges == p2.s.edges
    ensures var p1 := EdgePass(s0, refs, ids, source, run1, depth);
      && p1.report.deleted == |StaleEdges(s0.edges, source, DesiredKeys(refs, ids))|
      && (p1.report.deleted == 0 ==> Handled(p1.s, refs, ids, source, run1, depth))
  {
    FirstPass(s0, refs, ids, source, run1, depth);
    SecondPass(EdgePass(s0, refs, ids, source, run1, depth).s, t1, refs, ids, source, run1, run2, depth);
    ThirdPass(EdgePass(t1, refs, ids, source, run2, depth).s, t2, refs, ids, source, run2, run3, depth);
  }

  lemma FirstPass(s: State, refs: seq<EdgeRef>, ids: IdMap, source: string, runId: string, depth: nat)
    requires Integrity(s, depth) && Canonical(refs)
    ensures var p := EdgePass(s, refs, ids, source, runId, depth);
      && p.report.deleted == |StaleEdges(s.edges, source, DesiredKeys(refs, ids))|
      && (p.report.deleted == 0 ==> Handled(p.s, refs, ids, source, runId, depth))
      && OwnedAreDesired(p.s, refs, ids, source)
  {
    DeletedIsStaleBefore(s, refs, ids, source, runId, depth);
    OnlyDesiredRemain(s, refs, ids, source, runId, depth);
    if EdgePass(s, refs, ids, source, runId, depth).report.deleted == 0 {
      UndisturbedPassHandles(s, refs, ids, source, runId, depth);
    }
  }

  lemma SecondPass(s: State, t: State, refs: seq<EdgeRef>, ids: IdMap, source: string, runId: string, runId': string,
                   depth: nat)
    requires Continues(s, t, depth) && Canonical(refs) && OwnedAreDesired(s, refs, ids, source)
    ensures var p := EdgePass(t, refs, ids, source, runId', depth);
      && p.report.deleted == 0 && (forall id | id in s.edges :: id in p.s.edges && p.s.edges[id] == s.edges[id])
      && (p.report.created == 0 <==> Handled(s, refs, ids, source, runId, depth))
      && (p.s.edges == s.edges <==> Handled(s, refs, ids, source, runId, depth))
      && Handled(p.s, refs, ids, source, runId', depth) && OwnedAreDesired(p.s, refs, ids, source)
  {
    assert OwnedAreDesired(t, refs, ids, source);
    PassWithoutStale(t, refs, ids, source, runId', depth);
    SameHandled(s, t, refs, ids, source, runId, depth);
    PassChangesNothingIff(t, refs, ids, source, runId, runId', depth);
    OnlyDesiredRemain(t, refs, ids, source, runId', depth);
  }

  lemma ThirdPass(s: State, t: State, refs: seq<EdgeRef>, ids: IdMap, source: string, runId: string, runId': string,
                  depth: nat)
    requires Continues(s, t, depth) && OwnedAreDesired(s, refs, ids, source)
    requires Handled(s, refs, ids, source, runId, depth)
    ensures var p := EdgePass(t, refs, ids, source, runId', depth);
      p.report.created == 0 && p.report.deleted == 0 && p.s.edges == s.edges
  {
    assert OwnedAreDesired(t, refs, ids, source);
    SameHandled(s, t, refs, ids, source, runId, depth);
    SettledPassChangesNothing(t, refs, ids, source, runId, runId', depth);
  }

  lemma SameHandled(s: State, t: State, refs: seq<EdgeRef>, ids: IdMap, source: string, runId: string, depth: nat)
    requires SameView(s, t) && t.edges == s.edges
    ensures Handled(s, refs, ids, source, runId, depth) <==> Handled(t, refs, ids, source, runId, depth)
  {
    if Handled(s, refs, ids, source, runId, depth) {
      StillHandled(s, t, refs, ids, source, runId, depth);
    } else if Handled(t, refs, ids, source, runId, depth) {
      StillHandled(t, s, refs, ids, source, runId, depth);
    }
  }

  /** A pass that deleted nothing leaves every wanted edge handled. */
  lemma UndisturbedPassHandles(s: State, refs: seq<EdgeRef>, ids: IdMap, source: string, runId: string, depth: nat)
    requires Integrity(s, depth) && EdgePass(s, refs, ids, source, runId, depth).report.deleted == 0
    ensures Handled(EdgePass(s, refs, ids, source, runId, depth).s, refs, ids, source, runId, depth)
  {
    var start := EdgePassState(s, EMPTY_REL_REPORT);
    WantAllHandles(start, refs, ids, source, runId, depth);
    var w := WantAll(start, refs, ids, source, runId, depth).s;
    OwnedMeansNoStale(w, refs, ids, source);
    NoStaleNoDeletion(s, refs, ids, source, runId, depth);
    StillHandled(w, EdgePass(s, refs, ids, source, runId, depth).s, refs, ids, source, runId, depth);
  }

  // ------------------------------------------------------------ reports and framing

  /** The wanted edge is stored. */
  ghost predicate EdgeStored(s: State, e: EdgeRef, ids: IdMap) {
    && Resolved(e, ids)
    && var req := RequestFor(e, ids, "", "");
    HasEdge(s.edges, Lower(e.relType), req.From(), req.To())
  }

  /** The entry is one that the wanted edge gives rise to. */
  predicate IsAbout(issue: Issue, e: EdgeRef, ids: IdMap) {
    issue.relType == e.relType && (issue.problem.UnresolvedEndpoint? <==> !Resolved(e, ids))
  }

  /** Each entry is about a wanted edge of its own, in the order of the snapshot: entry `j` about edge `at[j]`. */
  ghost predicate Explains(errors: seq<Issue>, refs: seq<EdgeRef>, ids: IdMap, at: seq<nat>) {
    && |at| == |errors|
    && (forall j | 0 <= j < |at| :: at[j] < |refs| && IsAbout(errors[j], refs[at[j]], ids))
    && (forall i, j | 0 <= i < j < |at| :: at[i] < at[j])
  }

  lemma StaysStored(s: State, t: State, e: EdgeRef, ids: IdMap)
    requires EdgeStored(s, e, ids)
    requires forall id | id in s.edges :: id in t.edges && t.edges[id] == s.edges[id]
    ensures EdgeStored(t, e, ids)
  {
    var req := RequestFor(e, ids, "", "");
    var id :| id in s.edges && SameEdge(s.edges[id], Lower(e.relType), req.From(), req.To());
    assert SameEdge(t.edges[id], Lower(e.relType), req.From(), req.To());
  }

  lemma AcceptedIsStored(s: State, req: EdgeRequest, depth: nat)
    requires Integrity(s, depth) && Verdict(s, req, depth).None?
    ensures var s' := CreateEdge(s, req, depth).0;
      HasEdge(s'.edges, Lower(req.relType), req.From(), req.To())
  {
    AcceptedEffect(s, req, depth);
    var looked := Remember(s, Lower(req.relType));
    assert IdsFresh(looked);
    InsertedIsPresent(looked, NewEdge(Resolve(s, Lower(req.relType)).value, req));
  }

  lemma DuplicateIsStored(s: State, req: EdgeRequest, depth: nat)
    requires RegistrySound(s) && Verdict(s, req, depth) == Some(DuplicateEdge)
    ensures HasEdge(s.edges, Lower(req.relType), req.From(), req.To())
  {
    assert Resolve(s, Lower(req.relType)).value.name == Lower(req.relType);
  }

  ghost predicate Answers(errors: seq<Issue>, q: EdgePassState, e: EdgeRef, ids: IdMap) {
    || (q.report.errors == errors && EdgeStored(q.s, e, ids))
    || exists issue :: IsAbout(issue, e, ids) && q.report.errors == errors + [issue]
  }

  lemma WantOutcome(p: EdgePassState, e: EdgeRef, ids: IdMap, source: string, runId: string, depth: nat)
    requires Resolved(e, ids)
    ensures var q := Want(p, e, ids, source, runId, depth);
      var req := RequestFor(e, ids, source, runId);
      var verdict := Verdict(p.s, req, depth);
      && q.s == CreateEdge(p.s, req, depth).0
      && (verdict.Some? ==> q.s.edges == p.s.edges)
      && q.report ==
          if verdict.None? then p.report.(created := p.report.created + 1)
          else if verdict.value == DuplicateEdge then p.report.(unmodified := p.report.unmodified + 1)
          else p.report.(errors := p.report.errors + [Issue(e.relType, Refused(verdict.value))])
  {
  }

  /** A wanted edge is counted once: it is stored afterwards, or gets an entry. */
  lemma WantAnswers(p: EdgePassState, e: EdgeRef, ids: IdMap, source: string, runId: string, depth: nat)
    requires Integrity(p.s, depth)
    ensures var q := Want(p, e, ids, source, runId, depth);
      && q.report.created + q.report.unmodified + |q.report.errors| ==
          p.report.created + p.report.unmodified + |p.report.errors| + 1
      && Answers(p.report.errors, q, e, ids)
  {
    var q := Want(p, e, ids, source, runId, depth);
    if Resolved(e, ids) {
      var req := RequestFor(e, ids, source, runId);
      var verdict := Verdict(p.s, req, depth);
      WantOutcome(p, e, ids, source, runId, depth);
      if verdict.None? {
        AcceptedIsStored(p.s, req, depth);
      } else if verdict == Some(DuplicateEdge) {
        DuplicateIsStored(p.s, req, depth);
      } else {
        assert IsAbout(Issue(e.relType, Refused(verdict.value)), e, ids);
      }
    } else {
      var issue := Issue(e.relType, UnresolvedEndpoint);
      assert IsAbout(issue, e, ids) && q.report.errors == p.report.errors + [issue];
    }
  }

  /** Every wanted edge without an entry of its own is stored. */
  ghost predicate RestStored(s: State, refs: seq<EdgeRef>, ids: IdMap, at: seq<nat>) {
    forall i | 0 <= i < |refs| && i !in at :: EdgeStored(s, refs[i], ids)
  }

  lemma {:induction false} WantAllAnswers(p: EdgePassState, refs: seq<EdgeRef>, ids: IdMap, source: string,
                                          runId: string, depth: nat) returns (at: seq<nat>)
    requires Integrity(p.s, depth) && p.report.errors == []
    ensures var q := WantAll(p, refs, ids, source, runId, depth);
      && Explains(q.report.errors, refs, ids, at) && RestStored(q.s, refs, ids, at)
      && q.report.created + q.report.unmodified + |q.report.errors| == p.report.created + p.report.unmodified + |refs|
  {
    if refs == [] {
      at := [];
    } else {
      var earlier, last := refs[..|refs| - 1], refs[|refs| - 1];
      var m := WantAll(p, earlier, ids, source, runId, depth);
      at := WantAllAnswers(p, earlier, ids, source, runId, depth);
      WantAllHandles(p, earlier, ids, source, runId, depth);
      WantAnswers(m, last, ids, source, runId, depth);
      WantKeeps(m, last, ids, source, runId, depth);
      at := AnswersOneMore(m, Want(m, last, ids, source, runId, depth), refs, ids, at);
    }
  }

  lemma AnswersOneMore(m: EdgePassState, q: EdgePassState, refs: seq<EdgeRef>, ids: IdMap, at: seq<nat>)
    returns (more: seq<nat>)
    requires refs != [] && Grown(m.s, q.s)
    requires Explains(m.report.errors, refs[..|refs| - 1], ids, at) && RestStored(m.s, refs[..|refs| - 1], ids, at)
    requires Answers(m.report.errors, q, refs[|refs| - 1], ids)
    ensures Explains(q.report.errors, refs, ids, more) && RestStored(q.s, refs, ids, more)
  {
    var n := |refs| - 1;
    forall i | 0 <= i < n && i !in at
      ensures EdgeStored(q.s, refs[i], ids)
    {
      assert refs[..n][i] == refs[i];
      StaysStored(m.s, q.s, refs[i], ids);
    }
    if q.report.errors == m.report.errors && EdgeStored(q.s, refs[n], ids) {
      more := at;
      SameEntries(m.report.errors, refs, ids, at);
    } else {
      more := at + [n];
      OneMoreEntry(m.report.errors, q.report.errors, refs, ids, at);
    }
  }

  lemma SameEntries(errors: seq<Issue>, refs: seq<EdgeRef>, ids: IdMap, at: seq<nat>)
    requires refs != [] && Explains(errors, refs[..|refs| - 1], ids, at)
    ensures Explains(errors, refs, ids, at)
  {
  }

  lemma OneMoreEntry(errors: seq<Issue>, more: seq<Issue>, refs: seq<EdgeRef>, ids: IdMap, at: seq<nat>)
    requires refs != [] && Explains(errors, refs[..|refs| - 1], ids, at)
    requires exists issue :: IsAbout(issue, refs[|refs| - 1], ids) && more == errors + [issue]
    ensures Explains(more, refs, ids, at + [|refs| - 1])
  {
  }

  /** A report conserves work: every wanted edge is counted once, and every edge that was stale before the pass once. */
  lemma EdgeReportConserves(s: State, refs: seq<EdgeRef>, ids: IdMap, source: string, runId: string, depth: nat)
    requires Integrity(s, depth)
    ensures var q := EdgePass(s, refs, ids, source, runId, depth);
      && q.report.created + q.report.unmodified + |q.report.errors| == |refs|
      && |q.s.edges| + q.report.deleted == |s.edges| + q.report.created
      && (Canonical(refs) ==> q.report.deleted == |StaleEdges(s.edges, source, DesiredKeys(refs, ids))|)
  {
    var _ := WantAllAnswers(EdgePassState(s, EMPTY_REL_REPORT), refs, ids, source, runId, depth);
    PassCounts(s, refs, ids, source, runId, depth);
    if Canonical(refs) {
      DeletedIsStaleBefore(s, refs, ids, source, runId, depth);
    }
  }

  lemma DesiredStaysStored(s: State, refs: seq<EdgeRef>, ids: IdMap, source: string, runId: string, depth: nat,
                           e: EdgeRef)
    requires Canonical(refs) && e in refs
    requires EdgeStored(WantAll(EdgePassState(s, EMPTY_REL_REPORT), refs, ids, source, runId, depth).s, e, ids)
    ensures EdgeStored(EdgePass(s, refs, ids, source, runId, depth).s, e, ids)
  {
    var w := WantAll(EdgePassState(s, EMPTY_REL_REPORT), refs, ids, source, runId, depth).s;
    var q := EdgePass(s, refs, ids, source, runId, depth).s;
    var req := RequestFor(e, ids, "", "");
    var id :| id in w.edges && SameEdge(w.edges[id], Lower(e.relType), req.From(), req.To());
    assert StoredKey(w.edges[id]) == KeyOf(e, ids);
    assert KeyOf(e, ids) in DesiredKeys(refs, ids);
    assert q.edges[id] == w.edges[id];
  }

  lemma RestStaysStored(s: State, refs: seq<EdgeRef>, ids: IdMap, source: string, runId: string, depth: nat,
                        at: seq<nat>)
    requires Canonical(refs)
    requires RestStored(WantAll(EdgePassState(s, EMPTY_REL_REPORT), refs, ids, source, runId, depth).s, refs, ids, at)
    ensures RestStored(EdgePass(s, refs, ids, source, runId, depth).s, refs, ids, at)
  {
    forall i | 0 <= i < |refs| && i !in at
      ensures EdgeStored(EdgePass(s, refs, ids, source, runId, depth).s, refs[i], ids)
    {
      DesiredStaysStored(s, refs, ids, source, runId, depth, refs[i]);
    }
  }

  /**
   The errors of a pass are each about a wanted edge of their own, and every other wanted edge is stored after it. So
   no more wanted edges are missing than the report has errors.
   */
  lemma EveryWantedEdgeIsAnswered(s: State, refs: seq<EdgeRef>, ids: IdMap, source: string, runId: string, depth: nat)
    requires Integrity(s, depth) && Canonical(refs)
    ensures var q := EdgePass(s, refs, ids, source, runId, depth);
      exists at :: Explains(q.report.errors, refs, ids, at) && RestStored(q.s, refs, ids, at)
    ensures var q := EdgePass(s, refs, ids, source, runId, depth);
      |set i | 0 <= i < |refs| && !EdgeStored(q.s, refs[i], ids)| <= |q.report.errors|
  {
    var q := EdgePass(s, refs, ids, source, runId, depth);
    var at := WantAllAnswers(EdgePassState(s, EMPTY_REL_REPORT), refs, ids, source, runId, depth);
    RestStaysStored(s, refs, ids, source, runId, depth, at);
    assert Explains(q.report.errors, refs, ids, at) && RestStored(q.s, refs, ids, at);
    ListedAtMost((set i | 0 <= i < |refs| && !EdgeStored(q.s, refs[i], ids)), at);
  }

  lemma {:induction false} ListedAtMost(xs: set<int>, list: seq<int>)
    requires forall x | x in xs :: x in list
    ensures |xs| <= |list|
  {
    if list == [] {
      assert xs == {} by {
        assert forall x :: x !in xs;
      }
    } else {
      var last := list[|list| - 1];
      assert list == list[..|list| - 1] + [last];
      ListedAtMost(xs - {last}, list[..|list| - 1]);
    }
  }

  /** Edges the source does not own survive the pass as they are. */
  lemma OtherEdgesSurvive(s: State, refs: seq<EdgeRef>, ids: IdMap, source: string, runId: string, depth: nat, id: nat)
    requires Integrity(s, depth) && id in s.edges && s.edges[id].source != Some(source)
    ensures var s' := EdgePass(s, refs, ids, source, runId, depth).s; id in s'.edges && s'.edges[id] == s.edges[id]
  {
    WantAllHandles(EdgePassState(s, EMPTY_REL_REPORT), refs, ids, source, runId, depth);
  }

  lemma WantOne(p: EdgePassState, e: EdgeRef, ids: IdMap, source: string, runId: string, depth: nat)
    ensures WantAll(p, [e], ids, source, runId, depth) == Want(p, e, ids, source, runId, depth)
  {
    assert [e][..|[e]| - 1] == [] && [e][|[e]| - 1] == e;
    assert WantAll(p, [], ids, source, runId, depth) == p;
  }

  lemma WantAccepted(p: EdgePassState, e: EdgeRef, ids: IdMap, source: string, runId: string, depth: nat)
    requires RegistrySound(p.s) && Resolved(e, ids) && Verdict(p.s, RequestFor(e, ids, source, runId), depth).None?
    ensures var q := Want(p, e, ids, source, runId, depth);
      && q.report == p.report.(created := p.report.created + 1)
      && q.s.edges.Keys == p.s.edges.Keys + {p.s.nextId}
      && q.s.edges[p.s.nextId].source == Some(source)
      && StoredKey(q.s.edges[p.s.nextId]) == (Lower(e.relType), KeyOf(e, ids).1, KeyOf(e, ids).2)
      && (forall id | id in p.s.edges && id != p.s.nextId :: q.s.edges[id] == p.s.edges[id])
  {
    AcceptedEffect(p.s, RequestFor(e, ids, source, runId), depth);
  }

  lemma LoneEdgeInserted(s: State, e: EdgeRef, ids: IdMap, source: string, runId: string, depth: nat)
    requires Integrity(s, depth) && Resolved(e, ids) && Verdict(s, RequestFor(e, ids, source, runId), depth).None?
    ensures var w := WantAll(EdgePassState(s, EMPTY_REL_REPORT), [e], ids, source, runId, depth);
      && w.report.created == 1
      && s.nextId in w.s.edges && w.s.edges[s.nextId].source == Some(source)
      && StoredKey(w.s.edges[s.nextId]) == (Lower(e.relType), KeyOf(e, ids).1, KeyOf(e, ids).2)
  {
    var start := EdgePassState(s, EMPTY_REL_REPORT);
    WantOne(start, e, ids, source, runId, depth);
    WantAccepted(start, e, ids, source, runId, depth);
  }

  lemma LoneKey(e: EdgeRef, ids: IdMap)
    requires Resolved(e, ids)
    ensures DesiredKeys([e], ids) == {KeyOf(e, ids)}
  {
  }

  lemma UndesiredIsSwept(s: State, refs: seq<EdgeRef>, ids: IdMap, source: string, runId: string, depth: nat, id: nat)
    requires var w := WantAll(EdgePassState(s, EMPTY_REL_REPORT), refs, ids, source, runId, depth).s;
      id in w.edges && w.edges[id].source == Some(source) && StoredKey(w.edges[id]) !in DesiredKeys(refs, ids)
    ensures var q := EdgePass(s, refs, ids, source, runId, depth); q.report.deleted >= 1 && id !in q.s.edges
  {
    var w := WantAll(EdgePassState(s, EMPTY_REL_REPORT), refs, ids, source, runId, depth).s;
    assert id in StaleEdges(w.edges, source, DesiredKeys(refs, ids));
  }

  lemma DesiredIsKept(s: State, refs: seq<EdgeRef>, ids: IdMap, source: string, runId: string, depth: nat, id: nat)
    requires var w := WantAll(EdgePassState(s, EMPTY_REL_REPORT), refs, ids, source, runId, depth).s;
      id in w.edges && StoredKey(w.edges[id]) in DesiredKeys(refs, ids)
    ensures id in EdgePass(s, refs, ids, source, runId, depth).s.edges
  {
    var w := WantAll(EdgePassState(s, EMPTY_REL_REPORT), refs, ids, source, runId, depth).s;
    assert id !in StaleEdges(w.edges, source, DesiredKeys(refs, ids));
  }

  /**
   The canonical form matters: edges are stored under the lower-case relation type but compared under the one given. A
   lone wanted edge that is accepted outlives its own pass exactly when its relation type is given in lower case;
   otherwise the pass creates it and deletes it again.
   */
  lemma LoneEdgeSurvivesIffCanonical(s: State, e: EdgeRef, ids: IdMap, source: string, runId: string, depth: nat)
    requires Integrity(s, depth) && Resolved(e, ids) && Verdict(s, RequestFor(e, ids, source, runId), depth).None?
    ensures var q := EdgePass(s, [e], ids, source, runId, depth);
      && q.report.created == 1
      && (s.nextId in q.s.edges <==> Lower(e.relType) == e.relType)
      && (Lower(e.relType) != e.relType ==> q.report.deleted >= 1)
  {
    LoneEdgeInserted(s, e, ids, source, runId, depth);
    LoneKey(e, ids);
    if Lower(e.relType) == e.relType {
      DesiredIsKept(s, [e], ids, source, runId, depth, s.nextId);
    } else {
      UndesiredIsSwept(s, [e], ids, source, runId, depth, s.nextId);
    }
  }

  const LINK_AS_GIVEN := EdgeRef("Link", "server", "a", "server", "b", map[])
  const TWO_SERVERS: IdMap := map[("server", "a") := 0, ("server", "b") := 1]

  lemma MixedCaseOnTwoServers(s: State, depth: nat)
    requires Integrity(s, depth) && DependencyDag.IsChain(s, 1, 0)
    requires Verdict(s, DependencyDag.LinkRequest(0, 1), depth).None?
    ensures var q := EdgePass(s, [LINK_AS_GIVEN], TWO_SERVERS, "aws", "run", depth);
      q.report.created == 1 && q.report.deleted >= 1 && s.nextId !in q.s.edges
  {
    DependencyDag.LowerNames();
    assert Lower("Link") == "link" && "Link"[0] != "link"[0];
    SameVerdict(s, DependencyDag.LinkRequest(0, 1), RequestFor(LINK_AS_GIVEN, TWO_SERVERS, "aws", "run"), depth);
    LoneEdgeSurvivesIffCanonical(s, LINK_AS_GIVEN, TWO_SERVERS, "aws", "run", depth);
  }

  lemma SameVerdict(s: State, req: EdgeRequest, req': EdgeRequest, depth: nat)
    requires Lower(req.relType) == Lower(req'.relType) && req.From() == req'.From() && req.To() == req'.To()
    ensures Verdict(s, req, depth) == Verdict(s, req', depth)
  {
  }

  /** Such a run exists: two servers and a relation type given as "Link". */
  lemma MixedCaseExample(depth: nat)
    ensures var s := Run(EMPTY, DependencyDag.Items(1), depth);
      var q := EdgePass(s, [LINK_AS_GIVEN], TWO_SERVERS, "aws", "run", depth);
      q.report.created == 1 && q.report.deleted >= 1 && s.nextId !in q.s.edges
  {
    var s := Run(EMPTY, DependencyDag.Items(1), depth);
    EmptyHasIntegrity(depth);
    RunKeepsIntegrity(EMPTY, DependencyDag.Items(1), depth);
    DependencyDag.ItemsMakeChain(1, depth);
    DependencyDag.ChainLinkAccepted(s, 1, 0, 0, 1, depth);
    MixedCaseOnTwoServers(s, depth);
  }
}
