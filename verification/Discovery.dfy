/** A whole discovery run, items first and edges after, and what repeating one snapshot converges to. */
module Discovery {
  import opened Prelude
  import opened Walks
  import opened Schema
  import opened Inventory
  import opened GraphIntegrity
  import opened EdgeReconciliation
  import opened EdgeReruns
  import opened CiReconciliation
  import opened CiConvergence
  import opened CiPasses
  import opened CiOutcome
  import opened CiRerun

  /** What a provider reports as the desired state. */
  datatype Snapshot = Snapshot(items: seq<Item>, relationships: seq<EdgeRef>)

  datatype Outcome = Outcome(s: State, ids: IdMap, items: CiReport, edges: RelReport)

  ghost function Reconcile(s: State, snap: Snapshot, source: string, runId: string, delete: bool, depth: nat): Outcome {
    var p := CiPass(s, snap.items, source, runId, delete);
    var q := EdgePass(p.s, snap.relationships, p.ids, source, runId, depth);
    Outcome(q.s, p.ids, p.report, q.report)
  }

  // ------------------------------------------------------------ the edge half leaves items alone

  lemma WantLeavesItems(p: EdgePassState, e: EdgeRef, ids: IdMap, source: string, runId: string, depth: nat)
    ensures var t := Want(p, e, ids, source, runId, depth).s;
      && t.cis == p.s.cis && t.types == p.s.types && t.relTypes == p.s.relTypes && t.nextId >= p.s.nextId
      && (forall id | id in t.edges && id !in p.s.edges :: id >= p.s.nextId && t.edges[id].source == Some(source))
      && (forall id | id in p.s.edges && id < p.s.nextId :: id in t.edges && t.edges[id] == p.s.edges[id])
  {
    if Resolved(e, ids) {
      var req := RequestFor(e, ids, source, runId);
      assert Want(p, e, ids, source, runId, depth).s == CreateEdge(p.s, req, depth).0;
      if Verdict(p.s, req, depth).None? {
        AcceptedEffect(p.s, req, depth);
        assert NewEdge(Resolve(p.s, Lower(req.relType)).value, req).source == Some(source);
      }
    }
  }

  lemma {:induction false} WantAllLeavesItems(p: EdgePassState, refs: seq<EdgeRef>, ids: IdMap, source: string,
                                              runId: string, depth: nat)
    ensures var t := WantAll(p, refs, ids, source, runId, depth).s;
      && t.cis == p.s.cis && t.types == p.s.types && t.relTypes == p.s.relTypes && t.nextId >= p.s.nextId
      && (forall id | id in t.edges && id !in p.s.edges :: id >= p.s.nextId && t.edges[id].source == Some(source))
  {
    if refs != [] {
      var earlier := refs[..|refs| - 1];
      WantAllLeavesItems(p, earlier, ids, source, runId, depth);
      WantLeavesItems(WantAll(p, earlier, ids, source, runId, depth), refs[|refs| - 1], ids, source, runId, depth);
    }
  }

  lemma EdgePassLeavesItems(s: State, refs: seq<EdgeRef>, ids: IdMap, source: string, runId: string, depth: nat)
    ensures var t := EdgePass(s, refs, ids, source, runId, depth).s;
      && t.cis == s.cis && t.types == s.types && t.relTypes == s.relTypes && t.nextId >= s.nextId
      && (forall id | id in t.edges && id !in s.edges :: id >= s.nextId && t.edges[id].source == Some(source))
  {
    WantAllLeavesItems(EdgePassState(s, EMPTY_REL_REPORT), refs, ids, source, runId, depth);
  }

  // ------------------------------------------------------------ framing of a whole run

  /** Edges the source does not own go only with an item that is gone, and new edges belong to the source. */
  ghost predicate OtherEdgesFramed(s: State, t: State, source: string) {
    && (forall id | id in s.edges && s.edges[id].source != Some(source) ::
          if id in t.edges then t.edges[id] == s.edges[id]
          else Gone(s, t, s.edges[id].from) || Gone(s, t, s.edges[id].to))
    && (forall id | id in t.edges && id !in s.edges :: t.edges[id].source == Some(source))
  }

  lemma EdgePassFramesOthers(s: State, p: State, refs: seq<EdgeRef>, ids: IdMap, source: string, runId: string,
                             depth: nat)
    requires IdsFresh(s) && Integrity(p, depth) && Framed(s, p, source)
    ensures OtherEdgesFramed(s, EdgePass(p, refs, ids, source, runId, depth).s, source)
  {
    var t := EdgePass(p, refs, ids, source, runId, depth).s;
    EdgePassLeavesItems(p, refs, ids, source, runId, depth);
    forall id | id in s.edges && s.edges[id].source != Some(source)
      ensures if id in t.edges then t.edges[id] == s.edges[id]
              else Gone(s, t, s.edges[id].from) || Gone(s, t, s.edges[id].to)
    {
      if id in p.edges {
        OtherEdgesSurvive(p, refs, ids, source, runId, depth, id);
      } else {
        assert Gone(s, p, s.edges[id].from) || Gone(s, p, s.edges[id].to);
      }
    }
  }

  /**
   A run keeps the inventory sound and confines itself to its source: items and edges of other sources or of none are
   untouched, except that an edge disappears with an item the run deleted; whatever is new belongs to the source.
   */
  lemma RunConfinesItself(s: State, snap: Snapshot, source: string, runId: string, delete: bool, depth: nat)
    requires Integrity(s, depth)
    ensures var t := Reconcile(s, snap, source, runId, delete, depth).s;
      && Integrity(t, depth) && t.types == s.types && t.relTypes == s.relTypes
      && ItemsFramed(s, t, source) && OtherEdgesFramed(s, t, source)
  {
    var p := CiPass(s, snap.items, source, runId, delete);
    CiPassStaysConfined(s, snap.items, source, runId, delete, depth);
    PassKeeps(p.s, snap.relationships, p.ids, source, runId, depth);
    EdgePassFramesOthers(s, p.s, snap.relationships, p.ids, source, runId, depth);
    EdgePassLeavesItems(p.s, snap.relationships, p.ids, source, runId, depth);
  }

  // ------------------------------------------------------------ repeating one snapshot

  /** Every wanted item is settled under `ids` and, in delete mode, nothing is stale. */
  ghost predicate ItemsSteady(s: State, snap: Snapshot, source: string, delete: bool, ids: IdMap, depth: nat) {
    && Integrity(s, depth)
    && AllSettled(s, Grouped(snap.items), source, ids) && IdsOf(ids, Grouped(snap.items))
    && SweptClean(s, Grouped(snap.items), source, delete)
  }

  /** A further run is going to change no edge and no item content. */
  ghost predicate Steady(s: State, snap: Snapshot, source: string, delete: bool, ids: IdMap, depth: nat) {
    && ItemsSteady(s, snap, source, delete, ids, depth)
    && Handled(s, snap.relationships, ids, source, "", depth)
    && OwnedAreDesired(s, snap.relationships, ids, source)
  }

  lemma SameItemsStaySteady(s: State, t: State, snap: Snapshot, source: string, delete: bool, ids: IdMap, depth: nat)
    requires ItemsSteady(s, snap, source, delete, ids, depth) && Integrity(t, depth) && t.cis == s.cis
    requires t.types == s.types
    ensures ItemsSteady(t, snap, source, delete, ids, depth)
  {
    forall it | Holds(Grouped(snap.items), it)
      ensures Settled(t, it, source, ids)
    {
      assert SameKnown(s, t, it, source);
      SettledCarriesOver(s, t, it, source, ids, ids);
    }
    forall g | g in Grouped(snap.items)
      ensures StaleItems(t, g, source) == StaleItems(s, g, source)
    {
      assert SameOfType(s, t, g.ciType);
      SameStale(s, t, g, source);
    }
  }

  /** The first run settles every item, whatever the inventory looked like. */
  lemma FirstRunSettlesItems(s: State, snap: Snapshot, source: string, runId: string, delete: bool, depth: nat)
    requires Integrity(s, depth) && GoodTypes(s)
    ensures var o := Reconcile(s, snap, source, runId, delete, depth);
      && ItemsSteady(o.s, snap, source, delete, o.ids, depth) && OwnedAreDesired(o.s, snap.relationships, o.ids, source)
  {
    var p := CiPass(s, snap.items, source, runId, delete);
    GroupedKeepsLast(snap.items);
    CiPassStaysConfined(s, snap.items, source, runId, delete, depth);
    CiPassSettles(s, snap.items, source, runId, delete, depth);
    PassLeavesClean(s, snap.items, source, runId, delete, depth);
    EdgeHalfKeepsSteady(p.s, snap, source, runId, delete, p.ids, depth);
  }

  lemma EdgeHalfKeepsSteady(s: State, snap: Snapshot, source: string, runId: string, delete: bool, ids: IdMap,
                            depth: nat)
    requires ItemsSteady(s, snap, source, delete, ids, depth)
    ensures var t := EdgePass(s, snap.relationships, ids, source, runId, depth).s;
      ItemsSteady(t, snap, source, delete, ids, depth) && OwnedAreDesired(t, snap.relationships, ids, source)
  {
    PassKeeps(s, snap.relationships, ids, source, runId, depth);
    EdgePassLeavesItems(s, snap.relationships, ids, source, runId, depth);
    OnlyDesiredRemain(s, snap.relationships, ids, source, runId, depth);
    SameItemsStaySteady(s, EdgePass(s, snap.relationships, ids, source, runId, depth).s, snap, source, delete, ids,
                        depth);
  }

  /**
   Over steady items the item half changes no content, so the edge half starts from the same edges, items and
   contracts.
   */
  lemma SteadyItemHalf(s: State, snap: Snapshot, source: string, runId: string, delete: bool, ids: IdMap, depth: nat)
    requires ItemsSteady(s, snap, source, delete, ids, depth)
    ensures var p := CiPass(s, snap.items, source, runId, delete);
      && p.ids == ids && p.report.created == 0 && p.report.updated == 0
      && Quiet(s, p.s, Loud(Stale(s, snap.items, source), delete))
      && Grown(s, p.s) && p.s.edges == s.edges && ItemsSteady(p.s, snap, source, delete, ids, depth)
  {
    var p := CiPass(s, snap.items, source, runId, delete);
    RerunIsQuiet(s, snap.items, source, runId, delete, ids);
    QuietKeepsIntegrity(s, p.s, Loud(Stale(s, snap.items, source), delete), depth);
  }

  lemma QuietKeepsIntegrity(s: State, t: State, loud: set<Node>, depth: nat)
    requires Integrity(s, depth) && Quiet(s, t, loud)
    ensures Integrity(t, depth) && Grown(s, t)
  {
    SameTagsKeep(s, t, depth);
    forall name
      ensures Resolve(s, name) == Resolve(t, name)
    {
    }
  }

  /** The second run deletes no edge the source owns and leaves everything steady. */
  lemma SecondRunIsSteady(s: State, snap: Snapshot, source: string, runId: string, delete: bool, ids: IdMap, depth: nat)
    requires ItemsSteady(s, snap, source, delete, ids, depth) && Canonical(snap.relationships)
    requires OwnedAreDesired(s, snap.relationships, ids, source)
    ensures var o := Reconcile(s, snap, source, runId, delete, depth);
      && o.ids == ids && o.edges.deleted == 0
      && (forall id | id in s.edges :: id in o.s.edges && o.s.edges[id] == s.edges[id])
      && Steady(o.s, snap, source, delete, ids, depth)
  {
    var p := CiPass(s, snap.items, source, runId, delete);
    SteadyItemHalf(s, snap, source, runId, delete, ids, depth);
    assert OwnedAreDesired(p.s, snap.relationships, ids, source);
    PassWithoutStale(p.s, snap.relationships, ids, source, runId, depth);
    EdgeHalfKeepsSteady(p.s, snap, source, runId, delete, ids, depth);
    var t := EdgePass(p.s, snap.relationships, ids, source, runId, depth).s;
    HandledUnderAnyRun(t, snap.relationships, ids, source, runId, "", depth);
  }

  /** Quiet apart from the contracts a worker has cached, which answer every lookup as before. */
  ghost predicate QuietButCache(s: State, t: State, loud: set<Node>) {
    Quiet(s, t.(relCache := s.relCache), loud) && SameView(s, t)
  }

  lemma RemovingNoEdgeIsQuiet(s: State)
    ensures Quiet(s, RemoveEdges(s, {}), {})
  {
    var t := RemoveEdges(s, {});
    assert t.edges == s.edges;
    forall e: Entity
      ensures SameRecords(s, t, e)
    {
      assert e !in EdgeEntities(s.edges, {});
    }
  }

  lemma SteadyEdgeHalf(s: State, snap: Snapshot, source: string, runId: string, ids: IdMap, depth: nat)
    requires Handled(s, snap.relationships, ids, source, "", depth)
    requires OwnedAreDesired(s, snap.relationships, ids, source)
    ensures var q := EdgePass(s, snap.relationships, ids, source, runId, depth);
      QuietButCache(s, q.s, {}) && q.s.edges == s.edges
  {
    var refs := snap.relationships;
    HandledUnderAnyRun(s, refs, ids, source, "", runId, depth);
    SettledPassChangesNothing(s, refs, ids, source, "", runId, depth);
    NothingLeftToWant(EdgePassState(s, EMPTY_REL_REPORT), refs, ids, source, runId, depth);
    var w := WantAll(EdgePassState(s, EMPTY_REL_REPORT), refs, ids, source, runId, depth).s;
    assert StaleEdges(w.edges, source, DesiredKeys(refs, ids)) == {};
    RemovingNoEdgeIsQuiet(w);
    var q := EdgePass(s, refs, ids, source, runId, depth).s;
    assert q == RemoveEdges(w, {});
    QuietUnderCache(s, w, q);
  }

  lemma QuietUnderCache(s: State, w: State, q: State)
    requires w == s.(relCache := w.relCache) && SameView(s, w) && Quiet(w, q, {})
    ensures QuietButCache(s, q, {})
  {
    var q' := q.(relCache := s.relCache);
    forall e: Entity
      ensures SameRecords(s, q', e)
    {
      assert SameRecords(w, q, e);
    }
    forall name
      ensures Resolve(s, name) == Resolve(q, name)
    {
      assert Resolve(w, name) == Resolve(s, name);
    }
  }

  lemma QuietThenCache(s: State, p: State, q: State, loud: set<Node>)
    requires Quiet(s, p, loud) && QuietButCache(p, q, {})
    ensures QuietButCache(s, q, loud)
  {
    QuietTransitive(s, p, q.(relCache := p.relCache), loud, {});
    assert loud + {} == loud;
    assert p.relCache == s.relCache;
    forall name
      ensures Resolve(s, name) == Resolve(q, name)
    {
      assert Resolve(p, name) == Resolve(s, name);
    }
  }

  lemma {:induction false} SameSettledIssues(s: State, t: State, refs: seq<EdgeRef>, ids: IdMap, depth: nat)
    requires SameView(s, t) && t.edges == s.edges
    ensures SettledIssues(t, refs, ids, depth) == SettledIssues(s, refs, ids, depth)
  {
    if refs != [] {
      SameSettledIssues(s, t, refs[..|refs| - 1], ids, depth);
      if Resolved(refs[|refs| - 1], ids) {
        SameViewSameVerdict(s, t, RequestFor(refs[|refs| - 1], ids, "", ""), depth);
      }
    }
  }

  /** What a run over a steady inventory reports of the edges. */
  ghost function SteadyEdges(s: State, refs: seq<EdgeRef>, ids: IdMap, depth: nat): RelReport {
    var issues := SettledIssues(s, refs, ids, depth);
    RelReport(0, if |issues| <= |refs| then |refs| - |issues| else 0, 0, issues)
  }

  lemma SteadyItemReport(s: State, snap: Snapshot, source: string, runId: string, delete: bool, ids: IdMap, depth: nat)
    requires ItemsSteady(s, snap, source, delete, ids, depth)
    ensures CiPass(s, snap.items, source, runId, delete).report.unmodified == |ids.Keys|
  {
    SteadyItemHalf(s, snap, source, runId, delete, ids, depth);
    CiReportConserves(s, snap.items, source, runId, delete, depth);
    var r := CiPass(s, snap.items, source, runId, delete).report;
    assert Landed(r) == r.created + r.updated + r.unmodified;
  }

  lemma SteadyEdgeReport(s: State, p: State, refs: seq<EdgeRef>, ids: IdMap, source: string, runId: string, depth: nat)
    requires Handled(s, refs, ids, source, "", depth) && OwnedAreDesired(s, refs, ids, source)
    requires SameView(s, p) && p.edges == s.edges
    ensures EdgePass(p, refs, ids, source, runId, depth).report == SteadyEdges(s, refs, ids, depth)
  {
    SameHandled(s, p, refs, ids, source, "", depth);
    assert OwnedAreDesired(p, refs, ids, source);
    SettledReport(p, refs, ids, source, "", runId, depth);
    SameSettledIssues(s, p, refs, ids, depth);
  }

  lemma SteadyReports(s: State, snap: Snapshot, source: string, runId: string, delete: bool, ids: IdMap, depth: nat)
    requires Steady(s, snap, source, delete, ids, depth)
    ensures var o := Reconcile(s, snap, source, runId, delete, depth);
      o.edges == SteadyEdges(s, snap.relationships, ids, depth) && o.items.unmodified == |ids.Keys|
  {
    var p := CiPass(s, snap.items, source, runId, delete);
    SteadyItemHalf(s, snap, source, runId, delete, ids, depth);
    SteadyItemReport(s, snap, source, runId, delete, ids, depth);
    SteadyEdgeReport(s, p.s, snap.relationships, ids, source, runId, depth);
  }

  lemma SteadyRunKeeps(s: State, snap: Snapshot, source: string, runId: string, delete: bool, ids: IdMap, depth: nat)
    requires Steady(s, snap, source, delete, ids, depth) && Canonical(snap.relationships)
    ensures var o := Reconcile(s, snap, source, runId, delete, depth);
      && o.s.edges == s.edges && QuietButCache(s, o.s, Loud(Stale(s, snap.items, source), delete))
      && Steady(o.s, snap, source, delete, ids, depth)
  {
    var loud := Loud(Stale(s, snap.items, source), delete);
    var p := CiPass(s, snap.items, source, runId, delete);
    SteadyItemHalf(s, snap, source, runId, delete, ids, depth);
    StillHandled(s, p.s, snap.relationships, ids, source, "", depth);
    SteadyEdgeHalf(p.s, snap, source, runId, ids, depth);
    SecondRunIsSteady(s, snap, source, runId, delete, ids, depth);
    QuietThenCache(s, p.s, EdgePass(p.s, snap.relationships, ids, source, runId, depth).s, loud);
  }

  /**
   Once steady, a run creates and deletes nothing and updates no item, keeps every edge, and is quiet:
   in delete mode it only refreshes provenance, otherwise it also flags each stale item once more. Every known item is
   unchanged, and of the wanted edges the same ones are unchanged and the same ones errors each time.
   */
  lemma SteadyRunIsQuiet(s: State, snap: Snapshot, source: string, runId: string, delete: bool, ids: IdMap, depth: nat)
    requires Steady(s, snap, source, delete, ids, depth) && Canonical(snap.relationships)
    ensures var o := Reconcile(s, snap, source, runId, delete, depth);
      && o.ids == ids && o.items.created == 0 && o.items.updated == 0 && o.items.unmodified == |ids.Keys|
      && o.edges == SteadyEdges(s, snap.relationships, ids, depth)
      && o.s.edges == s.edges && QuietButCache(s, o.s, Loud(Stale(s, snap.items, source), delete))
      && Steady(o.s, snap, source, delete, ids, depth)
  {
    SteadyItemHalf(s, snap, source, runId, delete, ids, depth);
    SteadyReports(s, snap, source, runId, delete, ids, depth);
    SteadyRunKeeps(s, snap, source, runId, delete, ids, depth);
  }

  /** Further runs over the same snapshot, one per run id. */
  ghost function Repeat(s: State, snap: Snapshot, source: string, runIds: seq<string>, delete: bool, depth: nat)
    : State
  {
    if runIds == [] then s
    else Reconcile(Repeat(s, snap, source, runIds[..|runIds| - 1], delete, depth), snap, source, runIds[|runIds| - 1],
        delete, depth).s
  }

  /** The same edges and items, every item with the same content, and in delete mode with the same revision. */
  ghost predicate SameInventory(s: State, t: State, delete: bool) {
    && t.edges == s.edges && t.cis.Keys == s.cis.Keys
    && forall n | n in s.cis ::
        t.cis[n].fields == s.cis[n].fields && (delete ==> t.cis[n].revision == s.cis[n].revision)
  }

  lemma {:induction false} SteadyForever(s: State, snap: Snapshot, source: string, runIds: seq<string>, delete: bool,
                                         ids: IdMap, depth: nat)
    requires Steady(s, snap, source, delete, ids, depth) && Canonical(snap.relationships)
    ensures var t := Repeat(s, snap, source, runIds, delete, depth);
      Steady(t, snap, source, delete, ids, depth) && SameInventory(s, t, delete)
  {
    if runIds != [] {
      var earlier := runIds[..|runIds| - 1];
      SteadyForever(s, snap, source, earlier, delete, ids, depth);
      SteadyRunIsQuiet(Repeat(s, snap, source, earlier, delete, depth), snap, source, runIds[|runIds| - 1], delete,
                       ids, depth);
    }
  }

  // ------------------------------------------------------------ convergence

  /** After steady items the edges stay as they are exactly if everything wanted is handled. */
  lemma NextRunChangesNothingIff(s: State, snap: Snapshot, source: string, runId: string, delete: bool, ids: IdMap,
                                 depth: nat)
    requires ItemsSteady(s, snap, source, delete, ids, depth) && Canonical(snap.relationships)
    requires OwnedAreDesired(s, snap.relationships, ids, source)
    ensures var o := Reconcile(s, snap, source, runId, delete, depth);
      && (o.edges.created == 0 <==> Handled(s, snap.relationships, ids, source, "", depth))
      && (o.s.edges == s.edges <==> Handled(s, snap.relationships, ids, source, "", depth))
  {
    var p := CiPass(s, snap.items, source, runId, delete);
    SteadyItemHalf(s, snap, source, runId, delete, ids, depth);
    assert OwnedAreDesired(p.s, snap.relationships, ids, source);
    SameHandled(s, p.s, snap.relationships, ids, source, "", depth);
    PassChangesNothingIff(p.s, snap.relationships, ids, source, "", runId, depth);
  }

  /** Any number of further runs leave edges and items as they are. */
  ghost predicate Settles(s: State, snap: Snapshot, source: string, delete: bool, depth: nat) {
    forall later :: SameInventory(s, Repeat(s, snap, source, later, delete, depth), delete)
  }

  lemma SteadySettles(s: State, snap: Snapshot, source: string, delete: bool, ids: IdMap, depth: nat)
    requires Steady(s, snap, source, delete, ids, depth) && Canonical(snap.relationships)
    ensures Settles(s, snap, source, delete, depth)
  {
    forall later
      ensures SameInventory(s, Repeat(s, snap, source, later, delete, depth), delete)
    {
      SteadyForever(s, snap, source, later, delete, ids, depth);
    }
  }

  lemma RepeatOnce(s: State, snap: Snapshot, source: string, runId: string, delete: bool, depth: nat)
    ensures Repeat(s, snap, source, [runId], delete, depth) == Reconcile(s, snap, source, runId, delete, depth).s
  {
    assert [runId][..0] == [];
  }

  lemma ChangeUnsettles(s: State, snap: Snapshot, source: string, runId: string, delete: bool, depth: nat)
    requires Reconcile(s, snap, source, runId, delete, depth).s.edges != s.edges
    ensures !Settles(s, snap, source, delete, depth)
  {
    RepeatOnce(s, snap, source, runId, delete, depth);
    assert !SameInventory(s, Repeat(s, snap, source, [runId], delete, depth), delete);
  }

  /** The edges that will be stale once the items are done: those of the source that the snapshot does not want. */
  ghost function StaleAtFirst(s: State, snap: Snapshot, source: string, runId: string, delete: bool): set<nat> {
    var p := CiPass(s, snap.items, source, runId, delete);
    StaleEdges(p.s.edges, source, DesiredKeys(snap.relationships, p.ids))
  }

  lemma FirstRun(s: State, snap: Snapshot, source: string, runId: string, delete: bool, depth: nat)
    requires Integrity(s, depth) && GoodTypes(s) && Canonical(snap.relationships)
    ensures var o := Reconcile(s, snap, source, runId, delete, depth);
      && o.edges.deleted == |StaleAtFirst(s, snap, source, runId, delete)|
      && (o.edges.deleted == 0 ==> Handled(o.s, snap.relationships, o.ids, source, "", depth))
      && ItemsSteady(o.s, snap, source, delete, o.ids, depth)
      && OwnedAreDesired(o.s, snap.relationships, o.ids, source)
  {
    var p := CiPass(s, snap.items, source, runId, delete);
    FirstRunSettlesItems(s, snap, source, runId, delete, depth);
    CiPassStaysConfined(s, snap.items, source, runId, delete, depth);
    FirstPass(p.s, snap.relationships, p.ids, source, runId, depth);
    var o := Reconcile(s, snap, source, runId, delete, depth);
    if o.edges.deleted == 0 {
      HandledUnderAnyRun(o.s, snap.relationships, p.ids, source, runId, "", depth);
    }
  }

  /**
   Repeating one snapshot converges within two runs, from any sound inventory whose types accept their own defaults.
   The second run deletes no edge; from then on, however often the snapshot is applied again, the edges and the content
   of all items stay exactly as the second run left them.
   */
  lemma DiscoveryConverges(s: State, snap: Snapshot, source: string, first: string, second: string, delete: bool,
                           depth: nat)
    requires Integrity(s, depth) && GoodTypes(s) && Canonical(snap.relationships)
    ensures var one := Reconcile(s, snap, source, first, delete, depth);
      var two := Reconcile(one.s, snap, source, second, delete, depth);
      && two.ids == one.ids && two.edges.deleted == 0 && two.items.created == 0 && two.items.updated == 0
      && Settles(two.s, snap, source, delete, depth)
  {
    var one := Reconcile(s, snap, source, first, delete, depth);
    FirstRun(s, snap, source, first, delete, depth);
    SteadyItemHalf(one.s, snap, source, second, delete, one.ids, depth);
    SecondRunIsSteady(one.s, snap, source, second, delete, one.ids, depth);
    SteadySettles(Reconcile(one.s, snap, source, second, delete, depth).s, snap, source, delete, one.ids, depth);
  }

  /**
   One run is enough if and only if it leaves every wanted edge stored or rejected, and the second run then creates no
   edge. That is so when no edge was stale once the items were done; how many were is how many the run deletes.
   */
  lemma OneRunSettlesIff(s: State, snap: Snapshot, source: string, first: string, second: string, delete: bool,
                         depth: nat)
    requires Integrity(s, depth) && GoodTypes(s) && Canonical(snap.relationships)
    ensures var one := Reconcile(s, snap, source, first, delete, depth);
      var handled := Handled(one.s, snap.relationships, one.ids, source, "", depth);
      && (Settles(one.s, snap, source, delete, depth) <==> handled)
      && (Reconcile(one.s, snap, source, second, delete, depth).edges.created == 0 <==> handled)
      && one.edges.deleted == |StaleAtFirst(s, snap, source, first, delete)|
      && (one.edges.deleted == 0 ==> handled)
  {
    var one := Reconcile(s, snap, source, first, delete, depth);
    FirstRun(s, snap, source, first, delete, depth);
    NextRunChangesNothingIff(one.s, snap, source, second, delete, one.ids, depth);
    if Handled(one.s, snap.relationships, one.ids, source, "", depth) {
      SteadySettles(one.s, snap, source, delete, one.ids, depth);
    } else {
      ChangeUnsettles(one.s, snap, source, second, delete, depth);
    }
  }

  /**
   One run is enough if, once its items are done, no stale edge is in the way of a wanted one: none shares a limited end
   with it and none lies on a walk back from its target.
   */
  lemma UnobstructedRunSettles(s: State, snap: Snapshot, source: string, runId: string, delete: bool, depth: nat)
    requires Integrity(s, depth) && GoodTypes(s) && Canonical(snap.relationships)
    requires var p := CiPass(s, snap.items, source, runId, delete);
      Unobstructed(p.s, snap.relationships, p.ids, source, depth)
    ensures Settles(Reconcile(s, snap, source, runId, delete, depth).s, snap, source, delete, depth)
  {
    var p := CiPass(s, snap.items, source, runId, delete);
    var one := Reconcile(s, snap, source, runId, delete, depth);
    FirstRun(s, snap, source, runId, delete, depth);
    CiPassStaysConfined(s, snap.items, source, runId, delete, depth);
    UnobstructedPassHandles(p.s, snap.relationships, p.ids, source, runId, depth);
    HandledUnderAnyRun(one.s, snap.relationships, p.ids, source, runId, "", depth);
    SteadySettles(one.s, snap, source, delete, one.ids, depth);
  }
}
