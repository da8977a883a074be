/**
 Running an item pass again over a settled inventory: nothing is created, updated or recorded, only provenance is
 refreshed.
 */
module CiRerun {
  import opened Prelude
  import opened Walks
  import opened Schema
  import opened Inventory
  import opened GraphIntegrity
  import opened EdgeReconciliation
  import opened CiReconciliation
  import opened CiConvergence
  import opened CiPasses
  import opened CiOutcome

  /** Same content and tag; the revision of a loud item is one higher. */
  ghost predicate SameContent(a: Ci, b: Ci, loud: bool) {
    && b.fields == a.fields && b.schemaVersion == a.schemaVersion
    && b.prov.source == a.prov.source && b.prov.extId == a.prov.extId
    && b.revision == if loud then a.revision + 1 else a.revision
  }

  ghost predicate SameRecords(s: State, t: State, e: Entity) {
    At(t.audit, e) == At(s.audit, e) && At(t.outbox, e) == At(s.outbox, e)
  }

  /**
   No item, edge or contract comes, goes or changes content, and no audit record or event is written,
   except that the revision of each loud item is bumped once and may be recorded.
   */
  ghost predicate Quiet(s: State, t: State, loud: set<Node>) {
    && SameSetting(s, t) && t.nextId == s.nextId && t.cis.Keys == s.cis.Keys
    && (forall n | n in s.cis :: SameContent(s.cis[n], t.cis[n], n in loud))
    && (forall e: Entity | !(e.CiEntity? && e.node in loud) :: SameRecords(s, t, e))
  }

  lemma QuietTransitive(s: State, t: State, u: State, a: set<Node>, b: set<Node>)
    requires Quiet(s, t, a) && Quiet(t, u, b) && a !! b
    ensures Quiet(s, u, a + b)
  {
    forall e: Entity | !(e.CiEntity? && e.node in a + b)
      ensures SameRecords(s, u, e)
    {
      assert SameRecords(s, t, e) && SameRecords(t, u, e);
    }
  }

  lemma QuietKeepsSettled(s: State, t: State, loud: set<Node>, it: Item, source: string, ids: IdMap)
    requires TagsUnique(s) && Quiet(s, t, loud) && Settled(s, it, source, ids)
    ensures TagsUnique(t) && Settled(t, it, source, ids)
  {
    assert SameKnown(s, t, it, source);
    SettledCarriesOver(s, t, it, source, ids, ids);
  }

  lemma ReseenIsQuiet(s: State, n: Node, prov: Provenance)
    requires n in s.cis && prov.source == s.cis[n].prov.source && prov.extId == s.cis[n].prov.extId
    ensures Quiet(s, s.(cis := s.cis[n := s.cis[n].(prov := prov)]), {})
  {
  }

  lemma UnchangedIsReseen(s: State, it: Item, source: string, runId: string, n: Node)
    requires TagsUnique(s) && TaggedAs(s, n, it, source)
    requires ReplyTo(s, it, source, runId) == Ok((n.oid, Unchanged))
    ensures ApplyDiscovery(s, it.ciType, it.data, source, it.extId, runId).0 ==
            s.(cis := s.cis[n := s.cis[n].(prov := Seen(s.cis[n].prov, source, it.extId, runId))])
  {
    FoundIsTheOne(s, it, source, n);
    ReplyForStored(s, it, source, runId, n);
  }

  /** Upserting a settled item refreshes its provenance at most. */
  lemma SettledUpsertIsQuiet(s: State, it: Item, source: string, runId: string, ids: IdMap)
    requires TagsUnique(s) && Settled(s, it, source, ids)
    ensures Quiet(s, ApplyDiscovery(s, it.ciType, it.data, source, it.extId, runId).0, {})
    ensures if ItemKey(it) in ids then ReplyTo(s, it, source, runId) == Ok((ids[ItemKey(it)], Unchanged))
            else ReplyTo(s, it, source, runId).Err?
  {
    if ItemKey(it) !in ids {
      RefusedChangesNothing(s, it, source, runId);
    } else if forall n :: !TaggedAs(s, n, it, source) {
      ReplyForAbsent(s, it, source, runId);
    } else {
      var n :| TaggedAs(s, n, it, source);
      ReplyForStored(s, it, source, runId, n);
      UnchangedIsReseen(s, it, source, runId, n);
      ReseenIsQuiet(s, n, Seen(s.cis[n].prov, source, it.extId, runId));
    }
  }

  // ------------------------------------------------------------ groups

  ghost predicate PartOf(ids: IdMap, whole: IdMap) {
    forall k | k in ids :: k in whole && ids[k] == whole[k]
  }

  ghost predicate NothingNew(p: Pass, q: Pass) {
    q.report.created == p.report.created && q.report.updated == p.report.updated
  }

  /** The id map has every settled item of `items` that the whole map has. */
  ghost predicate Covers(ids: IdMap, whole: IdMap, items: seq<Item>) {
    forall it | it in items && ItemKey(it) in whole :: ItemKey(it) in ids
  }

  lemma {:induction false} SettledGroupIsQuiet(p: Pass, items: seq<Item>, source: string, runId: string, ids: IdMap)
    requires TagsUnique(p.s) && SettledAll(p.s, items, source, ids) && PartOf(p.ids, ids)
    ensures var q := ApplyItems(p, items, source, runId);
      && Quiet(p.s, q.s, {}) && NothingNew(p, q) && PartOf(q.ids, ids) && Covers(q.ids, ids, items)
      && (forall k | k in p.ids :: k in q.ids)
  {
    if items != [] {
      var n := |items| - 1;
      var earlier, last := items[..n], items[n];
      assert earlier + [last] == items && last in items && forall x | x in earlier :: x in items;
      SettledGroupIsQuiet(p, earlier, source, runId, ids);
      var m := ApplyItems(p, earlier, source, runId);
      QuietKeepsSettled(p.s, m.s, {}, last, source, ids);
      SettledItemIsQuiet(m, last, source, runId, ids);
      var none: set<Node> := {};
      QuietTransitive(p.s, m.s, ApplyItem(m, last, source, runId).s, none, none);
      assert none + none == none;
    }
  }

  lemma SettledItemIsQuiet(p: Pass, it: Item, source: string, runId: string, ids: IdMap)
    requires TagsUnique(p.s) && Settled(p.s, it, source, ids) && PartOf(p.ids, ids)
    ensures var q := ApplyItem(p, it, source, runId);
      && Quiet(p.s, q.s, {}) && NothingNew(p, q) && PartOf(q.ids, ids)
      && (ItemKey(it) in ids ==> ItemKey(it) in q.ids)
      && (forall k | k in p.ids :: k in q.ids)
  {
    SettledUpsertIsQuiet(p.s, it, source, runId, ids);
  }

  /** What a sweep adds: nothing in delete mode if nothing is stale, one revision per stale item in mark mode. */
  function Loud(stale: set<Node>, delete: bool): set<Node> {
    if delete then {} else stale
  }

  lemma MarkingIsQuietElsewhere(s: State, nodes: set<Node>, runId: string)
    ensures Quiet(s, MarkAllMissing(s, nodes, runId), nodes)
  {
    var t := MarkAllMissing(s, nodes, runId);
    assert t.cis.Keys == s.cis.Keys;
    forall e: Entity | !(e.CiEntity? && e.node in nodes)
      ensures SameRecords(s, t, e)
    {
      assert e !in CiEntities(s.cis, nodes);
    }
  }

  lemma RemovingNothingIsQuiet(s: State)
    ensures Quiet(s, RemoveCis(s, {}), {})
  {
    var t := RemoveCis(s, {});
    assert IncidentToAny(s.edges, {}) == {};
    assert t.edges == s.edges && t.cis == s.cis;
    forall e: Entity
      ensures SameRecords(s, t, e)
    {
      assert e !in EdgeEntities(s.edges, {}) && e !in CiEntities(s.cis, {});
    }
  }

  lemma SweepIsQuiet(p: Pass, ciType: string, stale: set<Node>, runId: string, delete: bool)
    requires delete && FindType(p.s, ciType).Some? ==> stale == {}
    ensures var q := Sweep(p, ciType, stale, runId, delete);
      Quiet(p.s, q.s, Loud(stale, delete)) && NothingNew(p, q) && q.ids == p.ids
  {
    var q := Sweep(p, ciType, stale, runId, delete);
    if !delete {
      assert q.s == MarkAllMissing(p.s, stale, runId);
      MarkingIsQuietElsewhere(p.s, stale, runId);
    } else if FindType(p.s, ciType).Some? {
      assert q.s == RemoveCis(p.s, {});
      RemovingNothingIsQuiet(p.s);
    }
  }

  lemma GroupRerunIsQuiet(p: Pass, g: Group, source: string, runId: string, delete: bool, ids: IdMap)
    requires TagsUnique(p.s) && SettledAll(p.s, g.items, source, ids) && PartOf(p.ids, ids)
    requires delete && FindType(p.s, g.ciType).Some? ==> StaleItems(p.s, g, source) == {}
    ensures var q := GroupPass(p, g, source, runId, delete);
      && Quiet(p.s, q.s, Loud(StaleItems(p.s, g, source), delete)) && NothingNew(p, q)
      && PartOf(q.ids, ids) && Covers(q.ids, ids, g.items) && (forall k | k in p.ids :: k in q.ids)
  {
    var stale := StaleItems(p.s, g, source);
    var m := ApplyItems(p, g.items, source, runId);
    SettledGroupIsQuiet(p, g.items, source, runId, ids);
    SweepIsQuiet(m, g.ciType, stale, runId, delete);
    QuietTransitive(p.s, m.s, Sweep(m, g.ciType, stale, runId, delete).s, {}, Loud(stale, delete));
    assert {} + Loud(stale, delete) == Loud(stale, delete);
  }

  lemma QuietKeepsStale(s: State, t: State, loud: set<Node>, g: Group, source: string)
    requires Quiet(s, t, loud)
    ensures StaleItems(t, g, source) == StaleItems(s, g, source)
  {
    forall n: Node
      ensures n in StaleItems(t, g, source) <==> n in StaleItems(s, g, source)
    {
    }
  }

  ghost predicate CoversAll(ids: IdMap, whole: IdMap, groups: seq<Group>) {
    forall it | Holds(groups, it) && ItemKey(it) in whole :: ItemKey(it) in ids
  }

  /** In delete mode no item of a registered type is stale. */
  ghost predicate SweptClean(s: State, groups: seq<Group>, source: string, delete: bool) {
    delete ==> forall g | g in groups && FindType(s, g.ciType).Some? :: StaleItems(s, g, source) == {}
  }

  ghost predicate Rerun(s: State, q: Pass, groups: seq<Group>, source: string, delete: bool, ids: IdMap) {
    && Quiet(s, q.s, Loud(StaleIn(s, groups, source), delete))
    && q.report.created == 0 && q.report.updated == 0
    && PartOf(q.ids, ids) && CoversAll(q.ids, ids, groups)
  }

  lemma NothingRerun(s: State, source: string, delete: bool, ids: IdMap)
    ensures Rerun(s, Pass(s, map[], EMPTY_CI_REPORT), [], source, delete, ids)
  {
    var none: seq<Group> := [];
    forall n
      ensures n !in StaleIn(s, none, source)
    {
    }
    NoElements(StaleIn(s, none, source));
  }

  lemma RerunStep(s: State, m: Pass, earlier: seq<Group>, g: Group, source: string, runId: string, delete: bool,
                  ids: IdMap)
    requires TagsUnique(s) && AllSettled(s, earlier + [g], source, ids) && SweptClean(s, earlier + [g], source, delete)
    requires forall h | h in earlier :: h.ciType != g.ciType
    requires Rerun(s, m, earlier, source, delete, ids)
    ensures Rerun(s, GroupPass(m, g, source, runId, delete), earlier + [g], source, delete, ids)
  {
    var groups := earlier + [g];
    var loud := Loud(StaleIn(s, earlier, source), delete);
    var q := GroupPass(m, g, source, runId, delete);
    assert g in groups;
    forall it | it in g.items
      ensures Settled(m.s, it, source, ids)
    {
      HoldsLonger(earlier, g, it);
      QuietKeepsSettled(s, m.s, loud, it, source, ids);
    }
    QuietKeepsStale(s, m.s, loud, g, source);
    SameUnique(s, m.s, loud);
    GroupRerunIsQuiet(m, g, source, runId, delete, ids);
    LoudAddsUp(s, earlier, g, source, delete);
    QuietTransitive(s, m.s, q.s, loud, Loud(StaleItems(s, g, source), delete));
    forall it | Holds(groups, it) && ItemKey(it) in ids
      ensures ItemKey(it) in q.ids
    {
      HoldsLonger(earlier, g, it);
    }
  }

  lemma SameUnique(s: State, t: State, loud: set<Node>)
    requires TagsUnique(s) && Quiet(s, t, loud)
    ensures TagsUnique(t)
  {
  }

  lemma LoudAddsUp(s: State, earlier: seq<Group>, g: Group, source: string, delete: bool)
    requires forall h | h in earlier :: h.ciType != g.ciType
    ensures var a, b := Loud(StaleIn(s, earlier, source), delete), Loud(StaleItems(s, g, source), delete);
      a !! b && Loud(StaleIn(s, earlier + [g], source), delete) == a + b
  {
    var groups := earlier + [g];
    assert forall h :: h in groups <==> h in earlier || h == g;
    assert StaleIn(s, groups, source) == StaleIn(s, earlier, source) + StaleItems(s, g, source);
  }

  lemma {:induction false} GroupsRerunIsQuiet(s: State, groups: seq<Group>, source: string, runId: string,
                                              delete: bool, ids: IdMap)
    requires TagsUnique(s) && GroupsOk(groups) && AllSettled(s, groups, source, ids)
    requires SweptClean(s, groups, source, delete)
    ensures Rerun(s, After(s, groups, source, runId, delete), groups, source, delete, ids)
  {
    if groups == [] {
      NothingRerun(s, source, delete, ids);
    } else {
      var earlier, g := groups[..|groups| - 1], groups[|groups| - 1];
      assert groups == earlier + [g];
      LastType(groups);
      forall it | Holds(earlier, it)
        ensures Settled(s, it, source, ids)
      {
        HoldsLonger(earlier, g, it);
      }
      assert forall h | h in earlier :: h in groups;
      GroupsRerunIsQuiet(s, earlier, source, runId, delete, ids);
      RerunStep(s, After(s, earlier, source, runId, delete), earlier, g, source, runId, delete, ids);
    }
  }

  lemma StillSettled(s: State, t: State, loud: set<Node>, groups: seq<Group>, source: string, delete: bool, ids: IdMap)
    requires TagsUnique(s) && Quiet(s, t, loud)
    requires AllSettled(s, groups, source, ids) && SweptClean(s, groups, source, delete)
    ensures AllSettled(t, groups, source, ids) && SweptClean(t, groups, source, delete)
  {
    forall it | Holds(groups, it)
      ensures Settled(t, it, source, ids)
    {
      QuietKeepsSettled(s, t, loud, it, source, ids);
    }
    forall g | g in groups
      ensures StaleItems(t, g, source) == StaleItems(s, g, source)
    {
      QuietKeepsStale(s, t, loud, g, source);
    }
  }

  lemma WholeMap(ids: IdMap, whole: IdMap, groups: seq<Group>)
    requires PartOf(ids, whole) && CoversAll(ids, whole, groups) && IdsOf(whole, groups)
    ensures ids == whole
  {
    forall k | k in whole
      ensures k in ids
    {
      var it :| Holds(groups, it) && k == ItemKey(it);
    }
  }

  /**
   An item pass over a settled inventory finds every item where it was: the same ids, nothing created or updated, no
   edge or contract touched. In delete mode nothing but provenance changes; otherwise each stale item is flagged, and
   recorded, once more.
   */
  lemma RerunIsQuiet(s: State, items: seq<Item>, source: string, runId: string, delete: bool, ids: IdMap)
    requires TagsUnique(s) && AllSettled(s, Grouped(items), source, ids) && IdsOf(ids, Grouped(items))
    requires SweptClean(s, Grouped(items), source, delete)
    ensures var q := CiPass(s, items, source, runId, delete);
      && Quiet(s, q.s, Loud(Stale(s, items, source), delete))
      && q.ids == ids && q.report.created == 0 && q.report.updated == 0
      && AllSettled(q.s, Grouped(items), source, ids) && SweptClean(q.s, Grouped(items), source, delete)
  {
    var groups := Grouped(items);
    var q := CiPass(s, items, source, runId, delete);
    GroupedKeepsLast(items);
    GroupsRerunIsQuiet(s, groups, source, runId, delete, ids);
    GroupedKeysAndStale(s, items, source);
    StillSettled(s, q.s, Loud(Stale(s, items, source), delete), groups, source, delete, ids);
    WholeMap(q.ids, ids, groups);
  }

  /** After a pass in delete mode nothing of a registered type is stale. */
  lemma PassLeavesClean(s: State, items: seq<Item>, source: string, runId: string, delete: bool, depth: nat)
    requires Integrity(s, depth)
    ensures SweptClean(CiPass(s, items, source, runId, delete).s, Grouped(items), source, delete)
  {
    if delete {
      var groups := Grouped(items);
      var q := CiPass(s, items, source, runId, true);
      GroupedKeepsLast(items);
      GroupsSweepExactly(s, groups, source, runId, depth);
      CiPassStaysConfined(s, items, source, runId, true, depth);
      forall g | g in groups && FindType(q.s, g.ciType).Some?
        ensures StaleItems(q.s, g, source) == {}
      {
        assert FindType(s, g.ciType).Some?;
        ExactHasNoStale(s, q, g, source);
      }
    }
  }

  lemma ExactHasNoStale(s: State, q: Pass, g: Group, source: string)
    requires SweptExactly(s, q.s, q.ids, g, source)
    ensures StaleItems(q.s, g, source) == {}
  {
    forall n | n in StaleItems(q.s, g, source)
      ensures false
    {
      var extId := q.s.cis[n].prov.extId.value;
      assert Tagged(q.s, n, g.ciType, source, extId);
      assert Stored(q.s, g.ciType, source, extId);
    }
  }
}
