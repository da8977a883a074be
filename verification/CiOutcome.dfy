/** What an item pass leaves behind and what it reports: exact sweeping in delete mode and conservation of work. */
module CiOutcome {
  import opened Prelude
  import opened Walks
  import opened Schema
  import opened Inventory
  import opened GraphIntegrity
  import opened EdgeReconciliation
  import opened CiReconciliation
  import opened CiConvergence
  import opened CiPasses

  /** Of one group exactly the wanted external ids remain that were applied now or stored before. */
  ghost predicate SweptExactly(s: State, t: State, ids: IdMap, g: Group, source: string) {
    forall extId :: Stored(t, g.ciType, source, extId) <==>
      Wanted(g.items, extId) && ((g.ciType, extId) in ids || Stored(s, g.ciType, source, extId))
  }

  /** Upserting loses no stored tag of a wanted item. */
  lemma StoredStaysStored(s: State, m: Pass, q: State, g: Group, extId: string, source: string, depth: nat)
    requires Filled(s, m, g.items, source) && ItemsFramed(s, m.s, source) && Wanted(g.items, extId)
    requires forall n | n !in StaleItems(s, g, source) ::
      (n in q.cis <==> n in m.s.cis) && (n in q.cis ==> q.cis[n] == m.s.cis[n])
    requires Stored(s, g.ciType, source, extId)
    ensures Stored(q, g.ciType, source, extId)
  {
    var n :| Tagged(s, n, g.ciType, source, extId);
    assert n !in StaleItems(s, g, source);
    assert Tagged(q, n, g.ciType, source, extId);
  }

  /** What the sweep leaves was wanted, and is either new and reported or was there before. */
  lemma RemainderIsWanted(s: State, ids: IdMap, m: Pass, q: State, g: Group, extId: string, source: string)
    requires Filled(s, m, g.items, source) && ItemsFramed(s, m.s, source) && IdsGrown(ids, m.ids, g.items)
    requires forall k | k in ids :: k.0 != g.ciType
    requires forall n | n in q.cis :: n in m.s.cis && q.cis[n] == m.s.cis[n] && n !in StaleItems(s, g, source)
    requires Stored(q, g.ciType, source, extId)
    ensures Wanted(g.items, extId) && ((g.ciType, extId) in m.ids || Stored(s, g.ciType, source, extId))
  {
    var n :| Tagged(q, n, g.ciType, source, extId);
    if n in s.cis {
      assert Tagged(s, n, g.ciType, source, extId);
      assert n in SourceItems(s, g.ciType, source);
    } else {
      assert (g.ciType, extId) in m.ids && (g.ciType, extId) !in ids;
      var it :| it in g.items && (g.ciType, extId) == ItemKey(it);
    }
  }

  /** What the sweep of a group has to go by: the upserts before it and which items it takes. */
  ghost predicate Swept(p: Pass, m: Pass, q: State, g: Group, source: string, depth: nat) {
    && Upserted(p, m, g.items, g.ciType, source, depth)
    && (forall n | n !in StaleItems(p.s, g, source) ::
          (n in q.cis <==> n in m.s.cis) && (n in q.cis ==> q.cis[n] == m.s.cis[n]))
    && (forall n | n in q.cis :: n !in StaleItems(p.s, g, source))
  }

  lemma DeletingSweeps(p: Pass, m: Pass, g: Group, source: string, runId: string, depth: nat)
    requires Upserted(p, m, g.items, g.ciType, source, depth) && FindType(p.s, g.ciType).Some?
    ensures Swept(p, m, Sweep(m, g.ciType, StaleItems(p.s, g, source), runId, true).s, g, source, depth)
  {
    StaleStayStale(p, m, g, source, depth);
    SweepItems(m, g.ciType, StaleItems(p.s, g, source), runId, true);
  }

  lemma SweptIsExact(p: Pass, m: Pass, q: Pass, g: Group, source: string, depth: nat, extId: string)
    requires Swept(p, m, q.s, g, source, depth) && q.ids == m.ids && GroupOk(g)
    requires LandedAreStored(q.s, q.ids, g.items, source)
    requires forall k | k in p.ids :: k.0 != g.ciType
    ensures Stored(q.s, g.ciType, source, extId) <==>
              Wanted(g.items, extId) && ((g.ciType, extId) in q.ids || Stored(p.s, g.ciType, source, extId))
  {
    if Stored(q.s, g.ciType, source, extId) {
      RemainderIsWanted(p.s, p.ids, m, q.s, g, extId, source);
    }
    if Wanted(g.items, extId) {
      var it :| it in g.items && it.extId == extId;
      if (g.ciType, extId) in q.ids {
        assert it.ciType == g.ciType && ItemKey(it) in q.ids;
      } else if Stored(p.s, g.ciType, source, extId) {
        StoredStaysStored(p.s, m, q.s, g, extId, source, depth);
      }
    }
  }

  lemma GroupSweepsExactly(p: Pass, g: Group, source: string, runId: string, depth: nat)
    requires Integrity(p.s, depth) && GroupOk(g) && FindType(p.s, g.ciType).Some?
    requires forall k | k in p.ids :: k.0 != g.ciType
    ensures var q := GroupPass(p, g, source, runId, true); SweptExactly(p.s, q.s, q.ids, g, source)
  {
    var m, q := ApplyItems(p, g.items, source, runId), GroupPass(p, g, source, runId, true);
    assert Group(g.ciType, g.items) == g;
    UpsertsOfGroup(p, g.items, g.ciType, source, runId, depth);
    GroupStaysConfined(p, g, source, runId, true, depth);
    DeletingSweeps(p, m, g, source, runId, depth);
    forall extId
      ensures Stored(q.s, g.ciType, source, extId) <==>
                Wanted(g.items, extId) && ((g.ciType, extId) in q.ids || Stored(p.s, g.ciType, source, extId))
    {
      SweptIsExact(p, m, q, g, source, depth, extId);
    }
  }

  // ------------------------------------------------------------ all groups

  lemma LastType(groups: seq<Group>)
    requires GroupsOk(groups) && groups != []
    ensures var earlier, g := groups[..|groups| - 1], groups[|groups| - 1];
      GroupsOk(earlier) && GroupOk(g) && forall h | h in earlier :: GroupOk(h) && h.ciType != g.ciType
  {
    var earlier, g := groups[..|groups| - 1], groups[|groups| - 1];
    assert forall h | h in earlier :: h in groups;
    forall h | h in earlier
      ensures h.ciType != g.ciType
    {
      var i :| 0 <= i < |earlier| && earlier[i] == h;
      assert groups[i].ciType != groups[|groups| - 1].ciType;
    }
  }

  /** The state in which the last group begins, and that its type has not come up before. */
  lemma BeforeLast(s: State, groups: seq<Group>, source: string, runId: string, delete: bool, depth: nat)
    requires Integrity(s, depth) && GroupsOk(groups) && groups != []
    ensures var g := groups[|groups| - 1];
      var m := After(s, groups[..|groups| - 1], source, runId, delete);
      && Integrity(m.s, depth) && m.s.types == s.types
      && (forall k | k in m.ids :: k.0 != g.ciType)
  {
    var earlier, g := groups[..|groups| - 1], groups[|groups| - 1];
    LastType(groups);
    GroupsStayConfined(s, earlier, source, runId, delete, depth);
    var m := After(s, earlier, source, runId, delete);
    forall k | k in m.ids
      ensures k.0 != g.ciType
    {
      var it :| Holds(earlier, it) && k == ItemKey(it);
    }
  }

  /** One more group: the state in which it begins and what it does. */
  lemma AfterStep(s: State, groups: seq<Group>, source: string, runId: string, delete: bool, depth: nat)
    requires Integrity(s, depth) && GroupsOk(groups) && groups != []
    ensures var g := groups[|groups| - 1];
      var m := After(s, groups[..|groups| - 1], source, runId, delete);
      && Integrity(m.s, depth) && m.s.types == s.types && (forall k | k in m.ids :: k.0 != g.ciType)
      && After(s, groups, source, runId, delete) == GroupPass(m, g, source, runId, delete)
      && Confined(m, GroupPass(m, g, source, runId, delete), g, source, depth)
  {
    LastType(groups);
    BeforeLast(s, groups, source, runId, delete, depth);
    GroupStaysConfined(After(s, groups[..|groups| - 1], source, runId, delete), groups[|groups| - 1], source, runId,
                       delete, depth);
  }

  /** Items of a type the snapshot does not mention are untouched, whoever owns them. */
  lemma {:induction false} OtherTypesUntouched(s: State, groups: seq<Group>, source: string, runId: string,
                                               delete: bool, depth: nat, ciType: string)
    requires Integrity(s, depth) && GroupsOk(groups)
    requires forall g | g in groups :: g.ciType != ciType
    ensures SameOfType(s, After(s, groups, source, runId, delete).s, ciType)
  {
    if groups != [] {
      var earlier, g := groups[..|groups| - 1], groups[|groups| - 1];
      LastType(groups);
      AfterStep(s, groups, source, runId, delete, depth);
      OtherTypesUntouched(s, earlier, source, runId, delete, depth, ciType);
      assert SameOfType(After(s, earlier, source, runId, delete).s, After(s, groups, source, runId, delete).s, ciType);
    }
  }

  lemma ExactCarriesOver(s: State, p: Pass, q: Pass, h: Group, g: Group, source: string, depth: nat)
    requires SweptExactly(s, p.s, p.ids, h, source) && h.ciType != g.ciType && GroupOk(g)
    requires Confined(p, q, g, source, depth)
    ensures SweptExactly(s, q.s, q.ids, h, source)
  {
    assert SameOfType(p.s, q.s, h.ciType);
    forall extId
      ensures Stored(q.s, h.ciType, source, extId) <==> Stored(p.s, h.ciType, source, extId)
      ensures (h.ciType, extId) in q.ids <==> (h.ciType, extId) in p.ids
    {
      assert forall n :: Tagged(q.s, n, h.ciType, source, extId) <==> Tagged(p.s, n, h.ciType, source, extId);
    }
  }

  lemma {:induction false} GroupsSweepExactly(s: State, groups: seq<Group>, source: string, runId: string, depth: nat)
    requires Integrity(s, depth) && GroupsOk(groups)
    ensures var q := After(s, groups, source, runId, true);
      forall g | g in groups && FindType(s, g.ciType).Some? :: SweptExactly(s, q.s, q.ids, g, source)
  {
    if groups != [] {
      var earlier, g := groups[..|groups| - 1], groups[|groups| - 1];
      var m, q := After(s, earlier, source, runId, true), After(s, groups, source, runId, true);
      LastType(groups);
      AfterStep(s, groups, source, runId, true, depth);
      GroupsSweepExactly(s, earlier, source, runId, depth);
      forall h | h in groups && FindType(s, h.ciType).Some?
        ensures SweptExactly(s, q.s, q.ids, h, source)
      {
        if h in earlier {
          ExactCarriesOver(s, m, q, h, g, source, depth);
        } else {
          GroupSweepsExactly(m, g, source, runId, depth);
          OtherTypesUntouched(s, earlier, source, runId, true, depth, g.ciType);
          ExactFromStart(s, m.s, q, g, source);
        }
      }
    }
  }

  lemma ExactFromStart(s: State, m: State, q: Pass, g: Group, source: string)
    requires SweptExactly(m, q.s, q.ids, g, source) && SameOfType(s, m, g.ciType)
    ensures SweptExactly(s, q.s, q.ids, g, source)
  {
    forall extId
      ensures Stored(s, g.ciType, source, extId) <==> Stored(m, g.ciType, source, extId)
    {
      assert forall n :: Tagged(s, n, g.ciType, source, extId) <==> Tagged(m, n, g.ciType, source, extId);
    }
  }

  // ------------------------------------------------------------ in terms of the snapshot

  function Keys(items: seq<Item>): set<(string, string)> {
    set it | it in items :: ItemKey(it)
  }

  lemma {:induction false} EveryKeyHasLast(items: seq<Item>, key: (string, string))
    ensures key in Keys(items) <==> exists it :: LastOf(items, it) && ItemKey(it) == key
  {
    if items != [] {
      var earlier, last := items[..|items| - 1], items[|items| - 1];
      assert items == earlier + [last];
      EveryKeyHasLast(earlier, key);
      forall it
        ensures LastOf(items, it) <==> it == last || (LastOf(earlier, it) && !SameKey(it, last))
      {
        LastOfLonger(earlier, last, it);
      }
      assert Keys(items) == Keys(earlier) + {ItemKey(last)};
      if key in Keys(earlier) && key != ItemKey(last) {
        var it :| LastOf(earlier, it) && ItemKey(it) == key;
        assert LastOf(items, it);
      }
    }
  }

  lemma WantedIffInSnapshot(items: seq<Item>, g: Group, extId: string)
    requires g in Grouped(items)
    ensures Wanted(g.items, extId) <==> (g.ciType, extId) in Keys(items)
  {
    GroupedKeepsLast(items);
    EveryKeyHasLast(items, (g.ciType, extId));
    if (g.ciType, extId) in Keys(items) {
      var it :| LastOf(items, it) && ItemKey(it) == (g.ciType, extId);
      var h :| h in Grouped(items) && it in h.items;
      assert GroupOk(h) && GroupOk(g);
    }
    if Wanted(g.items, extId) {
      var it :| it in g.items && it.extId == extId;
      assert GroupOk(g) && Holds(Grouped(items), it);
    }
  }

  lemma GroupOfType(items: seq<Item>, ciType: string)
    requires exists k | k in Keys(items) :: k.0 == ciType
    ensures exists g :: g in Grouped(items) && g.ciType == ciType
  {
    GroupedKeepsLast(items);
    var k :| k in Keys(items) && k.0 == ciType;
    EveryKeyHasLast(items, k);
    var it :| LastOf(items, it) && ItemKey(it) == k;
    var g :| g in Grouped(items) && it in g.items;
    assert GroupOk(g);
  }

  /**
   In delete mode, for each registered type of the snapshot, the external ids the source has left are exactly the ones
   the snapshot wants that were applied in this run or stored before it.
   */
  lemma DeleteModeIsExact(s: State, items: seq<Item>, source: string, runId: string, depth: nat, ciType: string,
                          extId: string)
    requires Integrity(s, depth) && FindType(s, ciType).Some?
    requires exists k | k in Keys(items) :: k.0 == ciType
    ensures var q := CiPass(s, items, source, runId, true);
      Stored(q.s, ciType, source, extId) <==>
        (ciType, extId) in Keys(items) && ((ciType, extId) in q.ids || Stored(s, ciType, source, extId))
  {
    GroupedKeepsLast(items);
    GroupOfType(items, ciType);
    var g :| g in Grouped(items) && g.ciType == ciType;
    GroupsSweepExactly(s, Grouped(items), source, runId, depth);
    WantedIffInSnapshot(items, g, extId);
  }

  // ------------------------------------------------------------ reports

  function Landed(r: CiReport): nat {
    r.created + r.updated + r.unmodified
  }

  function Total(r: CiReport): nat {
    Landed(r) + r.errors + r.deleted + r.markedMissing
  }

  /** Each upsert is counted once, and the ones that landed are the ones in the id map. */
  lemma ItemCountedOnce(p: Pass, it: Item, source: string, runId: string)
    requires ItemKey(it) !in p.ids && |p.ids.Keys| == Landed(p.report)
    ensures var q := ApplyItem(p, it, source, runId);
      Total(q.report) == Total(p.report) + 1 && |q.ids.Keys| == Landed(q.report)
  {
    var q := ApplyItem(p, it, source, runId);
    var reply := ReplyTo(p.s, it, source, runId);
    if reply.Ok? {
      assert q.ids == p.ids[ItemKey(it) := reply.value.0] && q.report == Bump(p.report, reply.value.1);
      assert q.ids.Keys == p.ids.Keys + {ItemKey(it)};
    }
  }

  ghost predicate CountedSoFar(p: Pass, q: Pass, n: nat) {
    Total(q.report) == Total(p.report) + n && |q.ids.Keys| == Landed(q.report)
  }

  lemma {:induction false} GroupItemsCounted(p: Pass, items: seq<Item>, ciType: string, source: string,
                                             runId: string, depth: nat)
    requires Integrity(p.s, depth) && GroupOk(Group(ciType, items))
    requires (forall it | it in items :: ItemKey(it) !in p.ids) && |p.ids.Keys| == Landed(p.report)
    ensures CountedSoFar(p, ApplyItems(p, items, source, runId), |items|)
  {
    if items == [] {
      assert ApplyItems(p, items, source, runId) == p;
    } else {
      var n := |items| - 1;
      var earlier := items[..n];
      var m := ApplyItems(p, earlier, source, runId);
      ShorterGroup(items, ciType);
      GroupItemsCounted(p, earlier, ciType, source, runId, depth);
      KeyAfterUpserts(p, items, ciType, source, runId, depth);
      ItemCountedOnce(m, items[n], source, runId);
      assert ApplyItems(p, items, source, runId) == ApplyItem(m, items[n], source, runId);
    }
  }

  lemma KeyAfterUpserts(p: Pass, items: seq<Item>, ciType: string, source: string, runId: string, depth: nat)
    requires Integrity(p.s, depth) && items != [] && GroupOk(Group(ciType, items))
    requires forall it | it in items :: ItemKey(it) !in p.ids
    ensures ItemKey(items[|items| - 1]) !in ApplyItems(p, items[..|items| - 1], source, runId).ids
  {
    ShorterGroup(items, ciType);
    UpsertsOfGroup(p, items[..|items| - 1], ciType, source, runId, depth);
    LastKeyIsNew(items, ciType, p.ids, ApplyItems(p, items[..|items| - 1], source, runId).ids);
  }

  lemma GroupCounted(p: Pass, g: Group, source: string, runId: string, delete: bool, depth: nat)
    requires Integrity(p.s, depth) && GroupOk(g) && forall k | k in p.ids :: k.0 != g.ciType
    requires |p.ids.Keys| == Landed(p.report)
    ensures var q := GroupPass(p, g, source, runId, delete);
      && Total(q.report) == Total(p.report) + |g.items| + |StaleItems(p.s, g, source)|
      && |q.ids.Keys| == Landed(q.report)
  {
    assert Group(g.ciType, g.items) == g;
    GroupItemsCounted(p, g.items, g.ciType, source, runId, depth);
  }

  function GroupKeys(groups: seq<Group>): set<(string, string)> {
    set g, it | g in groups && it in g.items :: ItemKey(it)
  }

  /** The source's items whose type the groups mention but whose external id they do not want. */
  function StaleIn(s: State, groups: seq<Group>, source: string): set<Node> {
    set n, g | g in groups && n in StaleItems(s, g, source) :: n
  }

  lemma {:induction false} DistinctKeys(items: seq<Item>, ciType: string)
    requires GroupOk(Group(ciType, items))
    ensures |Keys(items)| == |items|
  {
    if items != [] {
      var n := |items| - 1;
      var earlier, last := items[..n], items[n];
      assert items == earlier + [last];
      assert forall i | 0 <= i < n :: Group(ciType, items).items[i].extId != last.extId && earlier[i] == items[i];
      assert GroupOk(Group(ciType, earlier));
      DistinctKeys(earlier, ciType);
      assert Keys(items) == Keys(earlier) + {ItemKey(last)};
      assert ItemKey(last) !in Keys(earlier);
    }
  }

  lemma MoreKeys(earlier: seq<Group>, g: Group)
    requires GroupOk(g) && forall h | h in earlier :: GroupOk(h) && h.ciType != g.ciType
    ensures |GroupKeys(earlier + [g])| == |GroupKeys(earlier)| + |g.items|
  {
    var groups := earlier + [g];
    assert forall h :: h in groups <==> h in earlier || h == g;
    assert GroupKeys(groups) == GroupKeys(earlier) + Keys(g.items);
    assert GroupKeys(earlier) !! Keys(g.items);
    assert Group(g.ciType, g.items) == g;
    DistinctKeys(g.items, g.ciType);
  }

  lemma MoreStale(s: State, earlier: seq<Group>, g: Group, source: string)
    requires forall h | h in earlier :: h.ciType != g.ciType
    ensures |StaleIn(s, earlier + [g], source)| == |StaleIn(s, earlier, source)| + |StaleItems(s, g, source)|
  {
    var groups := earlier + [g];
    assert forall h :: h in groups <==> h in earlier || h == g;
    assert StaleIn(s, groups, source) == StaleIn(s, earlier, source) + StaleItems(s, g, source);
    assert StaleIn(s, earlier, source) !! StaleItems(s, g, source);
  }

  lemma SameStale(s: State, t: State, g: Group, source: string)
    requires SameOfType(s, t, g.ciType)
    ensures StaleItems(s, g, source) == StaleItems(t, g, source)
  {
    forall n: Node
      ensures n in StaleItems(s, g, source) <==> n in StaleItems(t, g, source)
    {
    }
  }

  ghost predicate Counted(s: State, groups: seq<Group>, q: Pass, source: string) {
    Total(q.report) == |GroupKeys(groups)| + |StaleIn(s, groups, source)| && |q.ids.Keys| == Landed(q.report)
  }

  lemma NothingCounted(s: State, source: string)
    ensures Counted(s, [], Pass(s, map[], EMPTY_CI_REPORT), source)
  {
    var none: seq<Group> := [];
    forall k
      ensures k !in GroupKeys(none)
    {
    }
    forall n
      ensures n !in StaleIn(s, none, source)
    {
    }
    NoElements(GroupKeys(none));
    NoElements(StaleIn(s, none, source));
    var ids: IdMap := map[];
    NoElements(ids.Keys);
  }

  lemma NoElements<T>(xs: set<T>)
    requires forall x :: x !in xs
    ensures |xs| == 0
  {
  }

  lemma CountedStep(s: State, groups: seq<Group>, earlier: seq<Group>, g: Group, m: Pass, q: Pass, source: string,
                    runId: string, delete: bool, depth: nat)
    requires groups == earlier + [g] && q == GroupPass(m, g, source, runId, delete)
    requires Integrity(m.s, depth) && GroupOk(g) && forall h | h in earlier :: GroupOk(h) && h.ciType != g.ciType
    requires Counted(s, earlier, m, source) && SameOfType(s, m.s, g.ciType) && forall k | k in m.ids :: k.0 != g.ciType
    ensures Counted(s, groups, q, source)
  {
    GroupCounted(m, g, source, runId, delete, depth);
    SameStale(s, m.s, g, source);
    MoreKeys(earlier, g);
    MoreStale(s, earlier, g, source);
  }

  /** All that counting the last group needs of the groups before it. */
  lemma LastGroupReady(s: State, groups: seq<Group>, source: string, runId: string, delete: bool, depth: nat)
    requires Integrity(s, depth) && GroupsOk(groups) && groups != []
    ensures var earlier, g := groups[..|groups| - 1], groups[|groups| - 1];
      var m := After(s, earlier, source, runId, delete);
      && GroupsOk(earlier) && GroupOk(g) && (forall h | h in earlier :: GroupOk(h) && h.ciType != g.ciType)
      && Integrity(m.s, depth) && SameOfType(s, m.s, g.ciType) && (forall k | k in m.ids :: k.0 != g.ciType)
      && After(s, groups, source, runId, delete) == GroupPass(m, g, source, runId, delete)
  {
    LastType(groups);
    AfterStep(s, groups, source, runId, delete, depth);
    OtherTypesUntouched(s, groups[..|groups| - 1], source, runId, delete, depth, groups[|groups| - 1].ciType);
  }

  lemma {:induction false} GroupsCounted(s: State, groups: seq<Group>, source: string, runId: string, delete: bool,
                                         depth: nat)
    requires Integrity(s, depth) && GroupsOk(groups)
    ensures Counted(s, groups, After(s, groups, source, runId, delete), source)
  {
    if groups == [] {
      NothingCounted(s, source);
    } else {
      var earlier, g := groups[..|groups| - 1], groups[|groups| - 1];
      assert groups == earlier + [g];
      LastGroupReady(s, groups, source, runId, delete, depth);
      GroupsCounted(s, earlier, source, runId, delete, depth);
      CountedStep(s, groups, earlier, g, After(s, earlier, source, runId, delete),
                  After(s, groups, source, runId, delete), source, runId, delete, depth);
    }
  }

  /** The source's items of the snapshot's types that the snapshot does not hold. */
  function Stale(s: State, items: seq<Item>, source: string): set<Node> {
    set n | n in s.cis && Owned(s.cis[n], source) && s.cis[n].prov.extId.Some? &&
            (exists k | k in Keys(items) :: k.0 == n.ciType) && (n.ciType, s.cis[n].prov.extId.value) !in Keys(items)
  }

  lemma {:induction false} AddItemFills(groups: seq<Group>, it: Item)
    requires forall g | g in groups :: g.items != []
    ensures forall g | g in AddItem(groups, it) :: g.items != []
  {
    if groups != [] && groups[0].ciType != it.ciType {
      AddItemFills(groups[1..], it);
    }
  }

  lemma {:induction false} NoEmptyGroup(items: seq<Item>)
    ensures forall g | g in Grouped(items) :: g.items != []
  {
    if items != [] {
      NoEmptyGroup(items[..|items| - 1]);
      AddItemFills(Grouped(items[..|items| - 1]), items[|items| - 1]);
    }
  }

  /** Every group's type is one the snapshot mentions. */
  lemma TypeOfGroup(items: seq<Item>, g: Group)
    requires g in Grouped(items)
    ensures exists k | k in Keys(items) :: k.0 == g.ciType
  {
    NoEmptyGroup(items);
    GroupedKeepsLast(items);
    var it := g.items[0];
    assert it in g.items && GroupOk(g);
    EveryKeyHasLast(items, ItemKey(it));
  }

  lemma GroupedKeysAndStale(s: State, items: seq<Item>, source: string)
    ensures GroupKeys(Grouped(items)) == Keys(items) && StaleIn(s, Grouped(items), source) == Stale(s, items, source)
  {
    GroupedKeepsLast(items);
    forall key
      ensures key in GroupKeys(Grouped(items)) <==> key in Keys(items)
    {
      EveryKeyHasLast(items, key);
      if key in GroupKeys(Grouped(items)) {
        var g, it :| g in Grouped(items) && it in g.items && key == ItemKey(it);
        assert Holds(Grouped(items), it);
      }
    }
    forall n
      ensures n in StaleIn(s, Grouped(items), source) <==> n in Stale(s, items, source)
    {
      if n in StaleIn(s, Grouped(items), source) {
        var g :| g in Grouped(items) && n in StaleItems(s, g, source);
        TypeOfGroup(items, g);
        WantedIffInSnapshot(items, g, s.cis[n].prov.extId.value);
      }
      if n in Stale(s, items, source) {
        GroupOfType(items, n.ciType);
        var g :| g in Grouped(items) && g.ciType == n.ciType;
        WantedIffInSnapshot(items, g, s.cis[n].prov.extId.value);
        assert n in StaleItems(s, g, source);
      }
    }
  }

  /** A report conserves work: every distinct wanted item and every stale item is counted exactly once. */
  lemma CiReportConserves(s: State, items: seq<Item>, source: string, runId: string, delete: bool, depth: nat)
    requires Integrity(s, depth)
    ensures var q := CiPass(s, items, source, runId, delete);
      && Total(q.report) == |Keys(items)| + |Stale(s, items, source)|
      && Landed(q.report) == |q.ids.Keys|
  {
    GroupedKeepsLast(items);
    GroupsCounted(s, Grouped(items), source, runId, delete, depth);
    GroupedKeysAndStale(s, items, source);
  }
}
