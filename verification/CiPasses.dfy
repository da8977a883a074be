/** What whole item passes guarantee: integrity, framing, settling, exact sweeping, accounting and quiet re-runs. */
module CiPasses {
  import opened Prelude
  import opened Walks
  import opened Schema
  import opened Inventory
  import opened GraphIntegrity
  import opened EdgeReconciliation
  import opened CiReconciliation
  import opened CiConvergence

  // ------------------------------------------------------------ framing

  /** Edges only go together with an end that is gone. */
  ghost predicate EdgesFramed(s: State, t: State) {
    && (forall id | id in t.edges :: id in s.edges && t.edges[id] == s.edges[id])
    && (forall id | id in s.edges && id !in t.edges :: Gone(s, t, s.edges[id].from) || Gone(s, t, s.edges[id].to))
  }

  ghost predicate Gone(s: State, t: State, n: Node) {
    n in s.cis && n !in t.cis
  }

  /** Items of other sources, or of none, are untouched, new items belong to the source, and no item changes its tag. */
  ghost predicate ItemsFramed(s: State, t: State, source: string) {
    && s.nextId <= t.nextId
    && (forall n | n in s.cis && !Owned(s.cis[n], source) :: n in t.cis && t.cis[n] == s.cis[n])
    && (forall n | n in t.cis && n !in s.cis :: Owned(t.cis[n], source) && n.oid >= s.nextId)
    && (forall n | n in s.cis && n in t.cis ::
          t.cis[n].prov.source == s.cis[n].prov.source && t.cis[n].prov.extId == s.cis[n].prov.extId)
  }

  ghost predicate Framed(s: State, t: State, source: string) {
    && t.types == s.types && t.relTypes == s.relTypes && t.relCache == s.relCache
    && ItemsFramed(s, t, source)
    && EdgesFramed(s, t)
  }

  lemma GoneForGood(s: State, t: State, u: State, n: Node, source: string)
    requires IdsFresh(s) && ItemsFramed(s, t, source) && ItemsFramed(t, u, source) && Gone(s, t, n)
    ensures Gone(s, u, n)
  {
    assert n in u.cis ==> n.oid >= t.nextId;
  }

  lemma ItemsFramedTransitive(s: State, t: State, u: State, source: string)
    requires IdsFresh(s) && ItemsFramed(s, t, source) && ItemsFramed(t, u, source)
    ensures ItemsFramed(s, u, source)
  {
    forall n | n in s.cis && n in u.cis
      ensures n in t.cis
    {
      if n !in t.cis {
        GoneForGood(s, t, u, n, source);
      }
    }
  }

  lemma FramedTransitive(s: State, t: State, u: State, source: string)
    requires EndpointsExist(s) && IdsFresh(s) && Framed(s, t, source) && Framed(t, u, source)
    ensures Framed(s, u, source)
  {
    ItemsFramedTransitive(s, t, u, source);
    forall id | id in s.edges && id !in u.edges
      ensures Gone(s, u, s.edges[id].from) || Gone(s, u, s.edges[id].to)
    {
      var e := s.edges[id];
      if id in t.edges {
        assert t.edges[id] == e;
        assert Gone(t, u, e.from) || Gone(t, u, e.to);
      } else {
        if Gone(s, t, e.from) {
          GoneForGood(s, t, u, e.from, source);
        } else {
          GoneForGood(s, t, u, e.to, source);
        }
      }
    }
  }

  lemma UpsertFramed(s: State, t: State, it: Item, source: string)
    requires OnlyTagged(s, t, it, source)
    ensures Framed(s, t, source)
  {
  }

  /** The items of one type are the same in both states. */
  ghost predicate SameOfType(s: State, t: State, ciType: string) {
    forall n: Node | n.ciType == ciType :: (n in s.cis <==> n in t.cis) && (n in s.cis ==> t.cis[n] == s.cis[n])
  }

  ghost predicate OnlyType(s: State, t: State, ciType: string) {
    forall other | other != ciType :: SameOfType(s, t, other)
  }

  // ------------------------------------------------------------ the sweep

  ghost predicate OwnedNodes(s: State, nodes: set<Node>, source: string) {
    forall n | n in nodes :: n in s.cis && Owned(s.cis[n], source)
  }

  /** Changing items without adding, removing or retagging any. */
  lemma SameTagsKeep(s: State, t: State, depth: nat)
    requires Integrity(s, depth)
    requires t.edges == s.edges && t.relTypes == s.relTypes && t.relCache == s.relCache && t.nextId == s.nextId
    requires t.cis.Keys == s.cis.Keys
    requires forall n | n in s.cis ::
      t.cis[n].prov.source == s.cis[n].prov.source && t.cis[n].prov.extId == s.cis[n].prov.extId
    ensures Integrity(t, depth)
  {
    assert EndpointsExist(t) && ContractsMet(t) && NoDuplicates(t);
  }

  lemma MarkAllMissingKeeps(s: State, nodes: set<Node>, runId: string, depth: nat)
    requires Integrity(s, depth)
    ensures Integrity(MarkAllMissing(s, nodes, runId), depth)
  {
    var t := MarkAllMissing(s, nodes, runId);
    assert t.cis.Keys == s.cis.Keys;
    SameTagsKeep(s, t, depth);
  }

  /** What a sweep does to the items: stale ones go or are flagged, all others stay as they are. */
  lemma SweepItems(p: Pass, ciType: string, stale: set<Node>, runId: string, delete: bool)
    ensures var t := Sweep(p, ciType, stale, runId, delete).s;
      && t.types == p.s.types && t.relTypes == p.s.relTypes && t.relCache == p.s.relCache && t.nextId == p.s.nextId
      && (forall n | n !in stale :: (n in t.cis <==> n in p.s.cis) && (n in t.cis ==> t.cis[n] == p.s.cis[n]))
      && (forall n | n in stale && n in t.cis :: n in p.s.cis &&
            t.cis[n] == if delete then p.s.cis[n] else MarkedMissing(p.s.cis[n], runId))
      && (forall n | n in stale && n in p.s.cis :: n in t.cis <==> !delete || FindType(p.s, ciType).None?)
  {
  }

  lemma SweepFramed(p: Pass, ciType: string, stale: set<Node>, source: string, runId: string, delete: bool)
    requires OwnedNodes(p.s, stale, source)
    ensures Framed(p.s, Sweep(p, ciType, stale, runId, delete).s, source)
  {
    SweepItems(p, ciType, stale, runId, delete);
  }

  lemma SweepKeeps(p: Pass, ciType: string, stale: set<Node>, runId: string, delete: bool, depth: nat)
    requires Integrity(p.s, depth)
    ensures Integrity(Sweep(p, ciType, stale, runId, delete).s, depth)
  {
    var t := Sweep(p, ciType, stale, runId, delete).s;
    if !delete {
      assert t == MarkAllMissing(p.s, stale, runId);
      MarkAllMissingKeeps(p.s, stale, runId, depth);
    } else if FindType(p.s, ciType).None? {
      assert t == p.s;
    } else {
      assert t == RemoveCis(p.s, stale);
      RemoveCisKeeps(p.s, stale, depth);
    }
  }

  // ------------------------------------------------------------ the upserts of one group

  ghost predicate SettledAll(s: State, items: seq<Item>, source: string, ids: IdMap) {
    forall it | it in items :: Settled(s, it, source, ids)
  }

  function ItemKey(it: Item): (string, string) {
    (it.ciType, it.extId)
  }

  /** The id map has grown by keys of `items` only. */
  ghost predicate IdsGrown(ids: IdMap, ids': IdMap, items: seq<Item>) {
    && (forall k | k in ids :: k in ids' && ids'[k] == ids[k])
    && (forall k | k in ids' && k !in ids :: exists it | it in items :: k == ItemKey(it))
  }

  /** The source has an item of this type stored under this external id. */
  ghost predicate Stored(s: State, ciType: string, source: string, extId: string) {
    exists n :: Tagged(s, n, ciType, source, extId)
  }

  /** What landed in the id map is stored. */
  ghost predicate LandedAreStored(s: State, ids: IdMap, items: seq<Item>, source: string) {
    forall it | it in items && ItemKey(it) in ids :: Stored(s, it.ciType, source, it.extId)
  }

  /** Nothing is removed, only items tagged by `items` change, and every new item is in the id map. */
  ghost predicate Filled(s: State, q: Pass, items: seq<Item>, source: string) {
    && (forall n | n in s.cis ::
          n in q.s.cis && (q.s.cis[n] == s.cis[n] || exists it | it in items :: TaggedAs(s, n, it, source)))
    && (forall n | n in q.s.cis && n !in s.cis ::
          q.s.cis[n].prov.extId.Some? && (n.ciType, q.s.cis[n].prov.extId.value) in q.ids)
  }

  lemma UpsertStep(p: Pass, it: Item, source: string, runId: string, depth: nat)
    requires Integrity(p.s, depth)
    ensures var q := ApplyItem(p, it, source, runId);
      && Integrity(q.s, depth) && OnlyTagged(p.s, q.s, it, source)
      && Framed(p.s, q.s, source) && OnlyType(p.s, q.s, it.ciType)
      && q.s.edges == p.s.edges
      && (forall k | k != ItemKey(it) :: (k in q.ids <==> k in p.ids) && (k in q.ids ==> q.ids[k] == p.ids[k]))
  {
    var q := ApplyItem(p, it, source, runId);
    assert q.s == ApplyDiscovery(p.s, it.ciType, it.data, source, it.extId, runId).0;
    ApplyDiscoveryKeeps(p.s, it.ciType, it.data, source, it.extId, runId, depth);
    UpsertOnlyTagged(p.s, it, source, runId);
    UpsertFramed(p.s, q.s, it, source);
  }

  lemma UpsertReports(p: Pass, it: Item, source: string, runId: string)
    requires TagsUnique(p.s) && IdsFresh(p.s)
    ensures var q := ApplyItem(p, it, source, runId);
      if q.s == p.s && ReplyTo(p.s, it, source, runId).Err? then q.ids == p.ids
      else ItemKey(it) in q.ids && TaggedAs(q.s, Node(it.ciType, q.ids[ItemKey(it)]), it, source)
  {
    UpsertStores(p.s, it, source, runId);
  }

  lemma OthersStaySettled(p: Pass, it: Item, earlier: seq<Item>, source: string, runId: string, depth: nat)
    requires Integrity(p.s, depth) && SettledAll(p.s, earlier, source, p.ids)
    requires forall other | other in earlier :: !SameKey(it, other)
    ensures var q := ApplyItem(p, it, source, runId); SettledAll(q.s, earlier, source, q.ids)
  {
    var q := ApplyItem(p, it, source, runId);
    UpsertStep(p, it, source, runId, depth);
    forall other | other in earlier
      ensures Settled(q.s, other, source, q.ids)
    {
      UpsertLeavesOther(p.s, q.s, it, other, source);
      assert ItemKey(other) != ItemKey(it);
      SettledCarriesOver(p.s, q.s, other, source, p.ids, q.ids);
    }
  }

  lemma FilledStep(s: State, p: Pass, earlier: seq<Item>, it: Item, source: string, runId: string, depth: nat)
    requires Integrity(p.s, depth) && Filled(s, p, earlier, source) && ItemsFramed(s, p.s, source)
    ensures Filled(s, ApplyItem(p, it, source, runId), earlier + [it], source)
  {
    var q := ApplyItem(p, it, source, runId);
    var items := earlier + [it];
    UpsertStep(p, it, source, runId, depth);
    UpsertReports(p, it, source, runId);
    assert it in items && forall x | x in earlier :: x in items;
    forall n | n in s.cis
      ensures n in q.s.cis && (q.s.cis[n] == s.cis[n] || exists x | x in items :: TaggedAs(s, n, x, source))
    {
      if q.s.cis[n] != p.s.cis[n] {
        assert TaggedAs(s, n, it, source);
      }
    }
    forall n | n in q.s.cis && n !in s.cis
      ensures q.s.cis[n].prov.extId.Some? && (n.ciType, q.s.cis[n].prov.extId.value) in q.ids
    {
      assert n in p.s.cis ==> q.s.cis[n].prov.extId == p.s.cis[n].prov.extId;
      assert n !in p.s.cis ==> TaggedAs(q.s, n, it, source);
    }
  }

  /** What upserting `items` has done so far: everything outside their type is as it was, and what landed is stored. */
  ghost predicate Upserted(p: Pass, q: Pass, items: seq<Item>, ciType: string, source: string, depth: nat) {
    && Integrity(q.s, depth) && Framed(p.s, q.s, source) && OnlyType(p.s, q.s, ciType) && q.s.edges == p.s.edges
    && IdsGrown(p.ids, q.ids, items)
    && LandedAreStored(q.s, q.ids, items, source)
    && Filled(p.s, q, items, source)
  }

  lemma OnlyTypeTransitive(s: State, t: State, u: State, ciType: string)
    requires OnlyType(s, t, ciType) && OnlyType(t, u, ciType)
    ensures OnlyType(s, u, ciType)
  {
    forall other | other != ciType
      ensures SameOfType(s, u, other)
    {
      assert SameOfType(s, t, other) && SameOfType(t, u, other);
    }
  }

  lemma IdsStep(ids: IdMap, m: Pass, earlier: seq<Item>, it: Item, source: string, runId: string)
    requires IdsGrown(ids, m.ids, earlier) && ItemKey(it) !in m.ids
    ensures IdsGrown(ids, ApplyItem(m, it, source, runId).ids, earlier + [it])
  {
    var ids' := ApplyItem(m, it, source, runId).ids;
    var items := earlier + [it];
    assert it in items && forall x | x in earlier :: x in items;
    forall k | k in ids' && k !in ids
      ensures exists x | x in items :: k == ItemKey(x)
    {
      if k in m.ids {
        var x :| x in earlier && k == ItemKey(x);
      } else {
        assert k == ItemKey(it);
      }
    }
  }

  /** Tags outlast whatever adds, keeps and retags nothing. */
  lemma StoredLasts(s: State, t: State, ciType: string, source: string, extId: string)
    requires s.cis.Keys <= t.cis.Keys && ItemsFramed(s, t, source) && Stored(s, ciType, source, extId)
    ensures Stored(t, ciType, source, extId)
  {
    var n :| Tagged(s, n, ciType, source, extId);
    assert Tagged(t, n, ciType, source, extId);
  }

  lemma StoredStep(m: Pass, earlier: seq<Item>, it: Item, source: string, runId: string, depth: nat)
    requires Integrity(m.s, depth) && LandedAreStored(m.s, m.ids, earlier, source) && ItemKey(it) !in m.ids
    requires forall other | other in earlier :: !SameKey(it, other)
    ensures var q := ApplyItem(m, it, source, runId); LandedAreStored(q.s, q.ids, earlier + [it], source)
  {
    var q := ApplyItem(m, it, source, runId);
    UpsertStep(m, it, source, runId, depth);
    UpsertReports(m, it, source, runId);
    forall other | other in earlier + [it] && ItemKey(other) in q.ids
      ensures Stored(q.s, other.ciType, source, other.extId)
    {
      if other in earlier {
        assert ItemKey(other) != ItemKey(it) && ItemKey(other) in m.ids;
        StoredLasts(m.s, q.s, other.ciType, source, other.extId);
      } else {
        assert other == it && TaggedAs(q.s, Node(it.ciType, q.ids[ItemKey(it)]), it, source);
        assert Tagged(q.s, Node(it.ciType, q.ids[ItemKey(it)]), it.ciType, source, it.extId);
      }
    }
  }

  lemma UpsertedStep(p: Pass, m: Pass, earlier: seq<Item>, it: Item, source: string, runId: string, depth: nat)
    requires Integrity(p.s, depth) && Upserted(p, m, earlier, it.ciType, source, depth)
    requires ItemKey(it) !in m.ids && forall other | other in earlier :: !SameKey(it, other)
    ensures Upserted(p, ApplyItem(m, it, source, runId), earlier + [it], it.ciType, source, depth)
  {
    var q := ApplyItem(m, it, source, runId);
    UpsertStep(m, it, source, runId, depth);
    FramedTransitive(p.s, m.s, q.s, source);
    OnlyTypeTransitive(p.s, m.s, q.s, it.ciType);
    FilledStep(p.s, m, earlier, it, source, runId, depth);
    IdsStep(p.ids, m, earlier, it, source, runId);
    StoredStep(m, earlier, it, source, runId, depth);
  }

  lemma NothingUpserted(p: Pass, ciType: string, source: string, depth: nat)
    requires Integrity(p.s, depth)
    ensures Upserted(p, p, [], ciType, source, depth)
  {
  }

  /** Upserting the items of one group stores what lands and touches nothing else. */
  lemma {:induction false} UpsertsOfGroup(p: Pass, items: seq<Item>, ciType: string, source: string, runId: string,
                                          depth: nat)
    requires Integrity(p.s, depth) && GroupOk(Group(ciType, items))
    requires forall it | it in items :: ItemKey(it) !in p.ids
    ensures Upserted(p, ApplyItems(p, items, source, runId), items, ciType, source, depth)
  {
    if items == [] {
      NothingUpserted(p, ciType, source, depth);
    } else {
      var n := |items| - 1;
      var earlier, last := items[..n], items[n];
      assert earlier + [last] == items && Group(ciType, items).items[n].ciType == ciType;
      ShorterGroup(items, ciType);
      UpsertsOfGroup(p, earlier, ciType, source, runId, depth);
      LastKeyIsNew(items, ciType, p.ids, ApplyItems(p, earlier, source, runId).ids);
      UpsertedStep(p, ApplyItems(p, earlier, source, runId), earlier, last, source, runId, depth);
    }
  }

  lemma ShorterGroup(items: seq<Item>, ciType: string)
    requires items != [] && GroupOk(Group(ciType, items))
    ensures GroupOk(Group(ciType, items[..|items| - 1])) && forall it | it in items[..|items| - 1] :: it in items
  {
    assert Group(ciType, items).items[|items| - 1].ciType == ciType;
  }

  lemma LastKeyIsNew(items: seq<Item>, ciType: string, ids: IdMap, ids': IdMap)
    requires items != [] && GroupOk(Group(ciType, items)) && forall it | it in items :: ItemKey(it) !in ids
    requires IdsGrown(ids, ids', items[..|items| - 1])
    ensures var last := items[|items| - 1];
      ItemKey(last) !in ids' && forall it | it in items[..|items| - 1] :: !SameKey(last, it)
  {
    var last := items[|items| - 1];
    forall it | it in items[..|items| - 1]
      ensures !SameKey(last, it)
    {
      var i :| 0 <= i < |items| - 1 && items[i] == it;
      assert Group(ciType, items).items[i].extId != last.extId;
    }
    assert last in items;
  }

  // ------------------------------------------------------------ one group

  /** What a group pass keeps, and to what it confines itself. */
  ghost predicate Confined(p: Pass, q: Pass, g: Group, source: string, depth: nat) {
    && Integrity(q.s, depth) && Framed(p.s, q.s, source) && OnlyType(p.s, q.s, g.ciType)
    && IdsGrown(p.ids, q.ids, g.items)
    && LandedAreStored(q.s, q.ids, g.items, source)
  }

  /**
   Stale items were owned before the group began, are still as they were when the sweep begins, and carry no wanted
   tag.
   */
  lemma StaleStayStale(p: Pass, m: Pass, g: Group, source: string, depth: nat)
    requires Upserted(p, m, g.items, g.ciType, source, depth)
    ensures var stale := StaleItems(p.s, g, source);
      && OwnedNodes(m.s, stale, source)
      && (forall n | n in stale :: n.ciType == g.ciType && n in p.s.cis && m.s.cis[n] == p.s.cis[n])
      && (forall n, it | n in stale && it in g.items :: !TaggedAs(m.s, n, it, source))
  {
  }

  lemma SweepOnlyType(p: Pass, ciType: string, stale: set<Node>, runId: string, delete: bool)
    requires forall n | n in stale :: n.ciType == ciType
    ensures OnlyType(p.s, Sweep(p, ciType, stale, runId, delete).s, ciType)
    ensures Sweep(p, ciType, stale, runId, delete).ids == p.ids
  {
    SweepItems(p, ciType, stale, runId, delete);
  }

  /** The sweep takes no wanted item. */
  lemma SweepKeepsKnown(p: Pass, m: Pass, g: Group, it: Item, source: string, runId: string, delete: bool, depth: nat)
    requires Upserted(p, m, g.items, g.ciType, source, depth) && it in g.items
    ensures SameKnown(m.s, Sweep(m, g.ciType, StaleItems(p.s, g, source), runId, delete).s, it, source)
  {
    var stale := StaleItems(p.s, g, source);
    var q := Sweep(m, g.ciType, stale, runId, delete);
    StaleStayStale(p, m, g, source, depth);
    SweepItems(m, g.ciType, stale, runId, delete);
    forall n
      ensures TaggedAs(m.s, n, it, source) <==> TaggedAs(q.s, n, it, source)
      ensures TaggedAs(m.s, n, it, source) ==> q.s.cis[n].fields == m.s.cis[n].fields
    {
      assert n in stale ==> !TaggedAs(m.s, n, it, source);
    }
  }

  lemma SweepKeepsLanded(p: Pass, m: Pass, g: Group, source: string, runId: string, delete: bool, depth: nat)
    requires Upserted(p, m, g.items, g.ciType, source, depth)
    ensures LandedAreStored(Sweep(m, g.ciType, StaleItems(p.s, g, source), runId, delete).s, m.ids, g.items, source)
  {
    var q := Sweep(m, g.ciType, StaleItems(p.s, g, source), runId, delete);
    forall it | it in g.items && ItemKey(it) in m.ids
      ensures Stored(q.s, it.ciType, source, it.extId)
    {
      SweepKeepsKnown(p, m, g, it, source, runId, delete, depth);
      var n :| Tagged(m.s, n, it.ciType, source, it.extId);
      assert TaggedAs(m.s, n, it, source) && TaggedAs(q.s, n, it, source);
    }
  }

  lemma SweepStaysConfined(p: Pass, m: Pass, g: Group, source: string, runId: string, delete: bool, depth: nat)
    requires Integrity(p.s, depth) && Upserted(p, m, g.items, g.ciType, source, depth)
    ensures Confined(p, Sweep(m, g.ciType, StaleItems(p.s, g, source), runId, delete), g, source, depth)
  {
    var stale := StaleItems(p.s, g, source);
    var q := Sweep(m, g.ciType, stale, runId, delete);
    StaleStayStale(p, m, g, source, depth);
    SweepKeeps(m, g.ciType, stale, runId, delete, depth);
    SweepFramed(m, g.ciType, stale, source, runId, delete);
    FramedTransitive(p.s, m.s, q.s, source);
    SweepOnlyType(m, g.ciType, stale, runId, delete);
    OnlyTypeTransitive(p.s, m.s, q.s, g.ciType);
    SweepKeepsLanded(p, m, g, source, runId, delete, depth);
  }

  /** A group pass keeps the inventory sound and confines itself to its type and source. */
  lemma GroupStaysConfined(p: Pass, g: Group, source: string, runId: string, delete: bool, depth: nat)
    requires Integrity(p.s, depth) && GroupOk(g)
    requires forall it | it in g.items :: ItemKey(it) !in p.ids
    ensures Confined(p, GroupPass(p, g, source, runId, delete), g, source, depth)
  {
    assert Group(g.ciType, g.items) == g;
    UpsertsOfGroup(p, g.items, g.ciType, source, runId, depth);
    SweepStaysConfined(p, ApplyItems(p, g.items, source, runId), g, source, runId, delete, depth);
  }

  // ------------------------------------------------------------ settling one group

  lemma UpsertsSettleStep(p: Pass, m: Pass, earlier: seq<Item>, it: Item, source: string, runId: string, depth: nat)
    requires GoodTypes(p.s) && Upserted(p, m, earlier, it.ciType, source, depth)
    requires SettledAll(m.s, earlier, source, m.ids)
    requires ItemKey(it) !in m.ids && forall other | other in earlier :: !SameKey(it, other)
    ensures var q := ApplyItem(m, it, source, runId); SettledAll(q.s, earlier + [it], source, q.ids)
  {
    OthersStaySettled(m, it, earlier, source, runId, depth);
    UpsertSettles(m, it, source, runId);
  }

  /** Upserting the items of one group settles them all, provided that fields accept their own defaults. */
  lemma {:induction false} UpsertsSettle(p: Pass, items: seq<Item>, ciType: string, source: string, runId: string,
                                         depth: nat)
    requires Integrity(p.s, depth) && GoodTypes(p.s) && GroupOk(Group(ciType, items))
    requires forall it | it in items :: ItemKey(it) !in p.ids
    ensures var q := ApplyItems(p, items, source, runId); SettledAll(q.s, items, source, q.ids)
  {
    if items != [] {
      var n := |items| - 1;
      var earlier, last := items[..n], items[n];
      assert earlier + [last] == items && Group(ciType, items).items[n].ciType == ciType;
      ShorterGroup(items, ciType);
      UpsertsSettle(p, earlier, ciType, source, runId, depth);
      UpsertsOfGroup(p, earlier, ciType, source, runId, depth);
      LastKeyIsNew(items, ciType, p.ids, ApplyItems(p, earlier, source, runId).ids);
      UpsertsSettleStep(p, ApplyItems(p, earlier, source, runId), earlier, last, source, runId, depth);
    }
  }

  lemma GroupSettles(p: Pass, g: Group, source: string, runId: string, delete: bool, depth: nat)
    requires Integrity(p.s, depth) && GoodTypes(p.s) && GroupOk(g)
    requires forall it | it in g.items :: ItemKey(it) !in p.ids
    ensures var q := GroupPass(p, g, source, runId, delete); SettledAll(q.s, g.items, source, q.ids)
  {
    var m, q := ApplyItems(p, g.items, source, runId), GroupPass(p, g, source, runId, delete);
    assert Group(g.ciType, g.items) == g;
    UpsertsOfGroup(p, g.items, g.ciType, source, runId, depth);
    UpsertsSettle(p, g.items, g.ciType, source, runId, depth);
    SweepStaysConfined(p, m, g, source, runId, delete, depth);
    forall it | it in g.items
      ensures Settled(q.s, it, source, q.ids)
    {
      SweepKeepsKnown(p, m, g, it, source, runId, delete, depth);
      SettledCarriesOver(m.s, q.s, it, source, m.ids, q.ids);
    }
  }

  // ------------------------------------------------------------ all groups

  ghost predicate AllSettled(s: State, groups: seq<Group>, source: string, ids: IdMap) {
    forall it | Holds(groups, it) :: Settled(s, it, source, ids)
  }

  ghost predicate IdsOf(ids: IdMap, groups: seq<Group>) {
    forall k | k in ids :: exists it :: Holds(groups, it) && k == ItemKey(it)
  }

  lemma HoldsLonger(groups: seq<Group>, g: Group, it: Item)
    ensures Holds(groups + [g], it) <==> Holds(groups, it) || it in g.items
  {
    if Holds(groups, it) {
      var h :| h in groups && it in h.items;
      assert h in groups + [g];
    }
    assert g in groups + [g];
  }

  /** Splits off the last group: its type is new, so are the keys of its items. */
  lemma LastGroup(groups: seq<Group>, ids: IdMap)
    requires groups != [] && GroupsOk(groups) && IdsOf(ids, groups[..|groups| - 1])
    ensures var earlier, g := groups[..|groups| - 1], groups[|groups| - 1];
      && GroupsOk(earlier) && GroupOk(g) && groups == earlier + [g]
      && (forall it | Holds(earlier, it) :: it.ciType != g.ciType)
      && (forall it | it in g.items :: it.ciType == g.ciType && ItemKey(it) !in ids)
  {
    var earlier, g := groups[..|groups| - 1], groups[|groups| - 1];
    assert forall h | h in earlier :: h in groups;
    forall it | Holds(earlier, it)
      ensures it.ciType != g.ciType
    {
      var h :| h in earlier && it in h.items;
      var i :| 0 <= i < |earlier| && earlier[i] == h;
      assert groups[i].ciType != g.ciType && GroupOk(h);
    }
  }

  lemma SettledAcrossGroup(p: Pass, q: Pass, g: Group, it: Item, source: string, depth: nat)
    requires TagsUnique(p.s) && GroupOk(g) && Confined(p, q, g, source, depth) && it.ciType != g.ciType
    requires Settled(p.s, it, source, p.ids)
    ensures Settled(q.s, it, source, q.ids)
  {
    assert SameOfType(p.s, q.s, it.ciType);
    assert SameKnown(p.s, q.s, it, source);
    SettledCarriesOver(p.s, q.s, it, source, p.ids, q.ids);
  }

  lemma AllSettledStep(p: Pass, q: Pass, earlier: seq<Group>, g: Group, source: string, depth: nat)
    requires TagsUnique(p.s) && GroupOk(g) && Confined(p, q, g, source, depth)
    requires SettledAll(q.s, g.items, source, q.ids)
    requires AllSettled(p.s, earlier, source, p.ids) && forall it | Holds(earlier, it) :: it.ciType != g.ciType
    ensures AllSettled(q.s, earlier + [g], source, q.ids)
  {
    forall it | Holds(earlier + [g], it)
      ensures Settled(q.s, it, source, q.ids)
    {
      HoldsLonger(earlier, g, it);
      if it !in g.items {
        SettledAcrossGroup(p, q, g, it, source, depth);
      }
    }
  }

  lemma IdsOfStep(ids: IdMap, ids': IdMap, earlier: seq<Group>, g: Group)
    requires IdsOf(ids, earlier) && IdsGrown(ids, ids', g.items)
    ensures IdsOf(ids', earlier + [g])
  {
    forall k | k in ids'
      ensures exists it :: Holds(earlier + [g], it) && k == ItemKey(it)
    {
      var it :| (Holds(earlier, it) || it in g.items) && k == ItemKey(it);
      HoldsLonger(earlier, g, it);
    }
  }

  /** Item passes over a sequence of groups, one after the other. */
  ghost function After(s: State, groups: seq<Group>, source: string, runId: string, delete: bool): Pass {
    GroupPasses(Pass(s, map[], EMPTY_CI_REPORT), groups, source, runId, delete)
  }

  lemma GroupStep(s: State, p: Pass, earlier: seq<Group>, g: Group, source: string, runId: string, delete: bool,
                  depth: nat)
    requires Integrity(s, depth) && Integrity(p.s, depth) && GroupsOk(earlier + [g]) && Framed(s, p.s, source) &&
        IdsOf(p.ids, earlier)
    ensures var q := GroupPass(p, g, source, runId, delete);
      Confined(p, q, g, source, depth) && Framed(s, q.s, source) && IdsOf(q.ids, earlier + [g])
  {
    var q := GroupPass(p, g, source, runId, delete);
    var groups := earlier + [g];
    assert groups[..|groups| - 1] == earlier;
    LastGroup(groups, p.ids);
    GroupStaysConfined(p, g, source, runId, delete, depth);
    FramedTransitive(s, p.s, q.s, source);
    IdsOfStep(p.ids, q.ids, earlier, g);
  }

  lemma NoGroups(s: State, source: string)
    ensures Framed(s, s, source) && IdsOf(map[], []) && AllSettled(s, [], source, map[])
  {
  }

  lemma EarlierGroupsOk(groups: seq<Group>)
    requires GroupsOk(groups) && groups != []
    ensures GroupsOk(groups[..|groups| - 1])
  {
    assert forall h | h in groups[..|groups| - 1] :: h in groups;
  }

  lemma {:induction false} GroupsStayConfined(s: State, groups: seq<Group>, source: string, runId: string,
                                              delete: bool, depth: nat)
    requires Integrity(s, depth) && GroupsOk(groups)
    ensures var q := After(s, groups, source, runId, delete);
      Integrity(q.s, depth) && Framed(s, q.s, source) && IdsOf(q.ids, groups)
  {
    if groups == [] {
      NoGroups(s, source);
    } else {
      var earlier, g := groups[..|groups| - 1], groups[|groups| - 1];
      assert groups == earlier + [g];
      EarlierGroupsOk(groups);
      GroupsStayConfined(s, earlier, source, runId, delete, depth);
      GroupStep(s, After(s, earlier, source, runId, delete), earlier, g, source, runId, delete, depth);
    }
  }

  /** After all groups every wanted item is settled, provided that fields accept their own defaults. */
  lemma {:induction false} GroupsSettle(s: State, groups: seq<Group>, source: string, runId: string, delete: bool,
                                        depth: nat)
    requires Integrity(s, depth) && GoodTypes(s) && GroupsOk(groups)
    ensures var q := After(s, groups, source, runId, delete); AllSettled(q.s, groups, source, q.ids)
  {
    if groups == [] {
      NoGroups(s, source);
    } else {
      var earlier, g := groups[..|groups| - 1], groups[|groups| - 1];
      var m := After(s, earlier, source, runId, delete);
      assert groups == earlier + [g];
      assert forall h | h in earlier :: h in groups;
      GroupsSettle(s, earlier, source, runId, delete, depth);
      GroupsStayConfined(s, earlier, source, runId, delete, depth);
      LastGroup(groups, m.ids);
      GroupStaysConfined(m, g, source, runId, delete, depth);
      GroupSettles(m, g, source, runId, delete, depth);
      AllSettledStep(m, GroupPass(m, g, source, runId, delete), earlier, g, source, depth);
    }
  }

  /**
   An item pass keeps the inventory sound and confines itself to its source: items of other sources or of none are
   untouched, new items belong to the source, and an edge goes only when one of its ends was deleted.
   */
  lemma CiPassStaysConfined(s: State, items: seq<Item>, source: string, runId: string, delete: bool, depth: nat)
    requires Integrity(s, depth)
    ensures var q := CiPass(s, items, source, runId, delete);
      Integrity(q.s, depth) && Framed(s, q.s, source) && IdsOf(q.ids, Grouped(items))
  {
    GroupedKeepsLast(items);
    GroupsStayConfined(s, Grouped(items), source, runId, delete, depth);
  }

  /** Every wanted item ends up settled. */
  lemma CiPassSettles(s: State, items: seq<Item>, source: string, runId: string, delete: bool, depth: nat)
    requires Integrity(s, depth) && GoodTypes(s)
    ensures var q := CiPass(s, items, source, runId, delete); AllSettled(q.s, Grouped(items), source, q.ids)
  {
    GroupedKeepsLast(items);
    GroupsSettle(s, Grouped(items), source, runId, delete, depth);
  }
}
