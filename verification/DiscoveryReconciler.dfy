/** The reconciler: the loops that drive the repositories through one discovery run. */
module DiscoveryReconciler {
  import opened Prelude
  import opened Walks
  import opened Schema
  import opened Inventory
  import opened Database
  import opened GraphIntegrity
  import opened EdgeReconciliation
  import opened CiReconciliation
  import CiConvergence
  import CiPasses
  import Batches
  import Discovery
  import GraphRepository
  import ItemRepository

  class Reconciler {
    const items: ItemRepository.CiRepository
    const rels: GraphRepository.RelationshipRepository

    constructor (items: ItemRepository.CiRepository, rels: GraphRepository.RelationshipRepository)
      requires items.Valid() && items.guard == rels
      ensures this.items == items && this.rels == rels && Valid()
    {
      this.items, this.rels := items, rels;
    }

    ghost predicate Valid() {
      items.Valid() && items.guard == rels
    }

    ghost function View(): State
      reads rels.registry, rels.registry.db
    {
      rels.View()
    }

    // ---------------------------------------------------------- items

    /** Upserts the desired items of one type. */
    method ApplyGroup(desired: seq<Item>, source: string, runId: string, ids0: IdMap, report0: CiReport)
      returns (ids: IdMap, report: CiReport)
      requires Valid() && Integrity(View(), rels.maxDepth)
      modifies items.db`cis, items.db`nextId, items.db`audit, items.db`outbox
      ensures Pass(View(), ids, report) == ApplyItems(Pass(old(View()), ids0, report0), desired, source, runId)
      ensures Integrity(View(), rels.maxDepth) && old(View()).cis.Keys <= View().cis.Keys
    {
      ids, report := ids0, report0;
      ghost var s := View();
      for i := 0 to |desired|
        invariant Pass(View(), ids, report) == ApplyItems(Pass(s, ids0, report0), desired[..i], source, runId)
        invariant Integrity(View(), rels.maxDepth) && s.cis.Keys <= View().cis.Keys
      {
        NextItem(Pass(s, ids0, report0), desired, i, source, runId);
        ids, report := ApplyOne(desired[i], source, runId, ids, report);
      }
      assert desired[..|desired|] == desired;
    }

    method ApplyOne(it: Item, source: string, runId: string, ids0: IdMap, report0: CiReport) returns (ids: IdMap,
                    report: CiReport)
      requires Valid() && Integrity(View(), rels.maxDepth)
      modifies items.db`cis, items.db`nextId, items.db`audit, items.db`outbox
      ensures Pass(View(), ids, report) == ApplyItem(Pass(old(View()), ids0, report0), it, source, runId)
      ensures Integrity(View(), rels.maxDepth) && old(View()).cis.Keys <= View().cis.Keys
    {
      CiPasses.UpsertStep(Pass(View(), ids0, report0), it, source, runId, rels.maxDepth);
      var reply := items.ApplyDiscovery(it.ciType, it.data, source, it.extId, runId);
      match reply {
        case Ok((id, action)) =>
          ids := ids0[(it.ciType, it.extId) := id];
          report := Bump(report0, action);
        case Err(_) =>
          ids := ids0;
          report := report0.(errors := report0.errors + 1);
      }
    }

    /** Deletes or flags one stale item. */
    method DropOne(node: Node, runId: string, delete: bool, report0: CiReport, ghost p: Pass,
                   ghost done: set<Node>) returns (report: CiReport)
      requires Valid() && node in p.s.cis && node !in done
      requires Pass(View(), p.ids, report0) == Sweep(p, node.ciType, done, runId, delete)
      modifies items.db`cis, items.db`edges, items.db`audit, items.db`outbox
      ensures Pass(View(), p.ids, report) == Sweep(p, node.ciType, done + {node}, runId, delete)
    {
      SweepOneMore(p, node, done, runId, delete);
      CiPasses.SweepItems(p, node.ciType, done, runId, delete);
      assert View() == Sweep(p, node.ciType, done, runId, delete).s;
      if delete {
        var reply := items.Delete(node, None, true);
        if reply.Ok? {
          report := report0.(deleted := report0.deleted + 1);
        } else {
          report := report0.(errors := report0.errors + 1);
        }
      } else {
        items.MarkMissing(node, runId);
        report := report0.(markedMissing := report0.markedMissing + 1);
      }
    }

    /** One turn of the dropping loop. */
    method DropNext(extId: string, ciType: string, existing: map<string, nat>, desired: seq<Item>, runId: string,
                    delete: bool,
                    report0: CiReport, ghost p: Pass, ghost seen: set<string>)
      returns (report: CiReport)
      requires Valid() && Injective(existing) && extId in existing && extId !in seen
      requires forall n | n in Undesired(ciType, existing, desired, existing.Keys) :: n in p.s.cis
      requires Pass(View(), p.ids, report0) ==
        Sweep(p, ciType, Undesired(ciType, existing, desired, seen), runId, delete)
      modifies items.db`cis, items.db`edges, items.db`audit, items.db`outbox
      ensures Pass(View(), p.ids, report) ==
        Sweep(p, ciType, Undesired(ciType, existing, desired, seen + {extId}), runId, delete)
    {
      OneMoreSeen(ciType, existing, desired, seen, extId);
      if Wanted(desired, extId) {
        report := report0;
      } else {
        report := DropOne(Node(ciType, existing[extId]), runId, delete, report0, p,
                          Undesired(ciType, existing, desired, seen));
      }
    }

    /** Goes through the items the source had before and drops the ones no longer desired. */
    method DropStale(ciType: string, existing: map<string, nat>, desired: seq<Item>, runId: string, delete: bool,
                     report0: CiReport, ghost ids: IdMap)
      returns (report: CiReport)
      requires Valid() && Injective(existing)
      requires forall n | n in Undesired(ciType, existing, desired, existing.Keys) :: n in View().cis
      modifies items.db`cis, items.db`edges, items.db`audit, items.db`outbox
      ensures Pass(View(), ids, report) ==
              Sweep(Pass(old(View()), ids, report0), ciType, Undesired(ciType, existing, desired, existing.Keys),
                    runId, delete)
    {
      report := report0;
      ghost var p := Pass(View(), ids, report0);
      ghost var seen: set<string> := {};
      SweepNothing(p, ciType, runId, delete);
      assert Undesired(ciType, existing, desired, {}) == {};
      var exts := Scan(existing.Keys);
      for i := 0 to |exts|
        invariant forall x :: x in seen <==> x in exts[..i]
        invariant Pass(View(), ids, report) ==
          Sweep(p, ciType, Undesired(ciType, existing, desired, seen), runId, delete)
      {
        var extId := exts[i];
        assert extId in exts && exts[..i + 1] == exts[..i] + [extId];
        report := DropNext(extId, ciType, existing, desired, runId, delete, report, p, seen);
        seen := seen + {extId};
      }
      assert seen == existing.Keys;
    }

    /** One type of the snapshot: upsert its items, then drop what the source had and no longer reports. */
    method ReconcileGroup(g: Group, source: string, runId: string, delete: bool, ids0: IdMap, report0: CiReport)
      returns (ids: IdMap, report: CiReport)
      requires Valid() && Integrity(View(), rels.maxDepth)
      modifies items.db`cis, items.db`edges, items.db`nextId, items.db`audit, items.db`outbox
      ensures Pass(View(), ids, report) == GroupPass(Pass(old(View()), ids0, report0), g, source, runId, delete)
      ensures Integrity(View(), rels.maxDepth)
    {
      ghost var s := View();
      var existing := items.IterSource(g.ciType, source);
      ListedAreStale(s, g, source, existing);
      ids, report := ApplyGroup(g.items, source, runId, ids0, report0);
      ghost var m := Pass(View(), ids, report);
      report := DropStale(g.ciType, existing, g.items, runId, delete, report, ids);
      CiPasses.SweepKeeps(m, g.ciType, StaleItems(s, g, source), runId, delete, rels.maxDepth);
    }

    /** Files the items under their types; a repeated external id takes the later item. */
    method GroupItems(wanted: seq<Item>) returns (groups: seq<Group>)
      ensures groups == Grouped(wanted)
    {
      groups := [];
      for i := 0 to |wanted|
        invariant groups == Grouped(wanted[..i])
      {
        assert wanted[..i + 1][..|wanted[..i + 1]| - 1] == wanted[..i];
        groups := AddItem(groups, wanted[i]);
      }
      assert wanted[..|wanted|] == wanted;
    }

    method ReconcileItems(wanted: seq<Item>, source: string, runId: string, delete: bool) returns (ids: IdMap,
                          report: CiReport)
      requires Valid() && Integrity(View(), rels.maxDepth)
      modifies items.db`cis, items.db`edges, items.db`nextId, items.db`audit, items.db`outbox
      ensures Pass(View(), ids, report) == CiPass(old(View()), wanted, source, runId, delete)
      ensures Integrity(View(), rels.maxDepth)
    {
      var groups := GroupItems(wanted);
      ids, report := ReconcileGroups(groups, source, runId, delete);
    }

    method ReconcileGroups(groups: seq<Group>, source: string, runId: string, delete: bool) returns (ids: IdMap,
                           report: CiReport)
      requires Valid() && Integrity(View(), rels.maxDepth)
      modifies items.db`cis, items.db`edges, items.db`nextId, items.db`audit, items.db`outbox
      ensures Pass(View(), ids, report) ==
        GroupPasses(Pass(old(View()), map[], EMPTY_CI_REPORT), groups, source, runId, delete)
      ensures Integrity(View(), rels.maxDepth)
    {
      ghost var start := Pass(View(), map[], EMPTY_CI_REPORT);
      ids, report := map[], EMPTY_CI_REPORT;
      for i := 0 to |groups|
        invariant Pass(View(), ids, report) == GroupPasses(start, groups[..i], source, runId, delete)
        invariant Integrity(View(), rels.maxDepth)
      {
        NextGroup(start, groups, i, source, runId, delete);
        ids, report := ReconcileGroup(groups[i], source, runId, delete, ids, report);
      }
      assert groups[..|groups|] == groups;
    }

    // ---------------------------------------------------------- edges

    /** Asks for one desired edge and files the answer. */
    method WantOne(e: EdgeRef, ids: IdMap, source: string, runId: string, report0: RelReport)
      returns (report: RelReport)
      requires Valid()
      modifies rels.registry`cache, items.db`edges, items.db`nextId, items.db`audit, items.db`outbox
      ensures EdgePassState(View(), report) ==
        Want(EdgePassState(old(View()), report0), e, ids, source, runId, rels.maxDepth)
    {
      if (e.fromType, e.fromExt) !in ids || (e.toType, e.toExt) !in ids {
        return report0.(errors := report0.errors + [Issue(e.relType, UnresolvedEndpoint)]);
      }
      var f, t := ids[(e.fromType, e.fromExt)], ids[(e.toType, e.toExt)];
      var reply := rels.CreateEdge(EdgeRequest(e.relType, e.fromType, f, e.toType, t, e.attributes, Some(source),
                                               Some(runId)));
      match reply {
        case Ok(_) => report := report0.(created := report0.created + 1);
        case Err(DuplicateEdge) => report := report0.(unmodified := report0.unmodified + 1);
        case Err(error) => report := report0.(errors := report0.errors + [Issue(e.relType, Refused(error))]);
      }
    }

    /** One turn of the creating loop. */
    method WantNext(e: EdgeRef, ids: IdMap, source: string, runId: string, report0: RelReport, desired0: set<EdgeKey>)
      returns (report: RelReport, desired: set<EdgeKey>)
      requires Valid() && Integrity(View(), rels.maxDepth)
      modifies rels.registry`cache, items.db`edges, items.db`nextId, items.db`audit, items.db`outbox
      ensures EdgePassState(View(), report) ==
        Want(EdgePassState(old(View()), report0), e, ids, source, runId, rels.maxDepth)
      ensures desired == desired0 + if Resolved(e, ids) then {KeyOf(e, ids)} else {}
      ensures Integrity(View(), rels.maxDepth)
    {
      WantKeeps(EdgePassState(View(), report0), e, ids, source, runId, rels.maxDepth);
      report := WantOne(e, ids, source, runId, report0);
      desired := desired0;
      if Resolved(e, ids) {
        desired := desired + {KeyOf(e, ids)};
      }
    }

    method CreateWanted(refs: seq<EdgeRef>, ids: IdMap, source: string, runId: string) returns (report: RelReport,
                        desired: set<EdgeKey>)
      requires Valid() && Integrity(View(), rels.maxDepth)
      modifies rels.registry`cache, items.db`edges, items.db`nextId, items.db`audit, items.db`outbox
      ensures EdgePassState(View(), report) ==
          WantAll(EdgePassState(old(View()), EMPTY_REL_REPORT), refs, ids, source, runId, rels.maxDepth)
      ensures desired == DesiredKeys(refs, ids)
      ensures Integrity(View(), rels.maxDepth)
    {
      ghost var start := EdgePassState(View(), EMPTY_REL_REPORT);
      report, desired := EMPTY_REL_REPORT, {};
      for i := 0 to |refs|
        invariant EdgePassState(View(), report) == WantAll(start, refs[..i], ids, source, runId, rels.maxDepth)
        invariant desired == DesiredKeys(refs[..i], ids)
        invariant Integrity(View(), rels.maxDepth)
      {
        OneMoreDesired(refs, i, ids);
        report, desired := WantNext(refs[i], ids, source, runId, report, desired);
      }
      assert refs[..|refs|] == refs;
    }

    /** One turn of the deleting loop. */
    method DeleteNext(key: EdgeKey, id: nat, desired: set<EdgeKey>, report0: RelReport, ghost s: State,
                      ghost gone: set<nat>)
      returns (report: RelReport)
      requires Valid() && id in s.edges && id !in gone && View() == RemoveEdges(s, gone) && report0.deleted == |gone|
      modifies items.db`edges, items.db`audit, items.db`outbox
      ensures var gone' := gone + if key in desired then {} else {id};
        View() == RemoveEdges(s, gone') && report == report0.(deleted := |gone'|)
    {
      report := report0;
      if key !in desired {
        Batches.EdgeRemovalsAddUp(s, gone, {id});
        var reply := rels.DeleteEdge(id, None);
        if reply.Ok? {
          report := report.(deleted := report.deleted + 1);
        }
      } else {
        assert gone + {} == gone;
      }
    }

    method DeleteUnwanted(existing: map<EdgeKey, nat>, desired: set<EdgeKey>,
                          report0: RelReport) returns (report: RelReport)
      requires Valid() && report0.deleted == 0
      requires forall a, b | a in existing && b in existing && existing[a] == existing[b] :: a == b
      requires forall key | key in existing :: existing[key] in items.db.edges
      modifies items.db`edges, items.db`audit, items.db`outbox
      ensures var stale := UnwantedEdges(existing, desired, existing.Keys);
        View() == RemoveEdges(old(View()), stale) && report == report0.(deleted := |stale|)
    {
      ghost var s := View();
      report := report0;
      ghost var seen: set<EdgeKey> := {};
      Batches.NoEdgeToRemove(s);
      assert UnwantedEdges(existing, desired, {}) == {};
      var keys := Scan(existing.Keys);
      for i := 0 to |keys|
        invariant seen == FirstOf(keys, i)
        invariant View() == RemoveEdges(s, UnwantedEdges(existing, desired, seen))
        invariant report == report0.(deleted := |UnwantedEdges(existing, desired, seen)|)
      {
        var key := keys[i];
        OneMoreFirst(keys, i);
        OneMoreUnwanted(existing, desired, seen, key);
        report := DeleteNext(key, existing[key], desired, report, s, UnwantedEdges(existing, desired, seen));
        seen := seen + {key};
      }
      AllFirst(keys, existing.Keys);
    }

    method ReconcileEdges(refs: seq<EdgeRef>, ids: IdMap, source: string, runId: string) returns (report: RelReport)
      requires Valid() && Integrity(View(), rels.maxDepth)
      modifies rels.registry`cache, items.db`edges, items.db`nextId, items.db`audit, items.db`outbox
      ensures EdgePassState(View(), report) == EdgePass(old(View()), refs, ids, source, runId, rels.maxDepth)
    {
      var desired;
      report, desired := CreateWanted(refs, ids, source, runId);
      var existing := rels.IterSourceEdges(source);
      ListedAreStaleEdges(View(), source, desired, existing);
      NothingDeletedYet(old(View()), refs, ids, source, runId, rels.maxDepth);
      report := DeleteUnwanted(existing, desired, report);
    }

    /** One discovery run, items first and edges after. */
    method Reconcile(snap: Discovery.Snapshot, source: string, runId: string, delete: bool)
      returns (ids: IdMap, itemReport: CiReport, edgeReport: RelReport)
      requires Valid() && Integrity(View(), rels.maxDepth)
      modifies rels.registry`cache, items.db`cis, items.db`edges, items.db`nextId, items.db`audit, items.db`outbox
      ensures Discovery.Outcome(View(), ids, itemReport, edgeReport) ==
              Discovery.Reconcile(old(View()), snap, source, runId, delete, rels.maxDepth)
    {
      ids, itemReport := ReconcileItems(snap.items, source, runId, delete);
      edgeReport := ReconcileEdges(snap.relationships, ids, source, runId);
    }
  }

  lemma ListedAreStale(s: State, g: Group, source: string, existing: map<string, nat>)
    requires TagsUnique(s) && ItemRepository.ListsSource(s, g.ciType, source, existing)
    ensures Injective(existing)
    ensures Undesired(g.ciType, existing, g.items, existing.Keys) == StaleItems(s, g, source)
  {
    forall n | n in StaleItems(s, g, source)
      ensures n in Undesired(g.ciType, existing, g.items, existing.Keys)
    {
      var extId := s.cis[n].prov.extId.value;
      assert Tagged(s, n, g.ciType, source, extId);
      assert Tagged(s, Node(g.ciType, existing[extId]), g.ciType, source, extId);
    }
  }

  ghost predicate Injective(existing: map<string, nat>) {
    forall a, b | a in existing && b in existing && existing[a] == existing[b] :: a == b
  }

  /** Of the external ids looked at, the items whose id is not desired. */
  function Undesired(ciType: string, existing: map<string, nat>, desired: seq<Item>, exts: set<string>): set<Node> {
    set x | x in exts && x in existing && !Wanted(desired, x) :: Node(ciType, existing[x])
  }

  lemma OneMoreSeen(ciType: string, existing: map<string, nat>, desired: seq<Item>, seen: set<string>, x: string)
    requires Injective(existing) && x in existing && x !in seen
    ensures var before := Undesired(ciType, existing, desired, seen);
      var after := Undesired(ciType, existing, desired, seen + {x});
      && Node(ciType, existing[x]) !in before
      && after == if Wanted(desired, x) then before else before + {Node(ciType, existing[x])}
    ensures !Wanted(desired, x) ==> Node(ciType, existing[x]) in Undesired(ciType, existing, desired, existing.Keys)
  {
  }

  ghost function FirstOf<T>(xs: seq<T>, n: nat): set<T>
    requires n <= |xs|
  {
    set x | x in xs[..n]
  }

  lemma OneMoreFirst<T>(xs: seq<T>, i: nat)
    requires Distinct(xs) && i < |xs|
    ensures xs[i] in xs && xs[i] !in FirstOf(xs, i) && FirstOf(xs, i + 1) == FirstOf(xs, i) + {xs[i]}
  {
    assert xs[..i + 1] == xs[..i] + [xs[i]];
  }

  lemma AllFirst<T>(xs: seq<T>, all: set<T>)
    requires forall x :: x in xs <==> x in all
    ensures FirstOf(xs, |xs|) == all
  {
    assert xs[..|xs|] == xs;
  }

  lemma NextItem(start: Pass, items: seq<Item>, i: nat, source: string, runId: string)
    requires i < |items|
    ensures ApplyItems(start, items[..i + 1], source, runId) ==
            ApplyItem(ApplyItems(start, items[..i], source, runId), items[i], source, runId)
  {
    assert items[..i + 1][..|items[..i + 1]| - 1] == items[..i];
  }

  lemma NextGroup(start: Pass, groups: seq<Group>, i: nat, source: string, runId: string, delete: bool)
    requires i < |groups|
    ensures GroupPasses(start, groups[..i + 1], source, runId, delete) ==
            GroupPass(GroupPasses(start, groups[..i], source, runId, delete), groups[i], source, runId, delete)
  {
    assert groups[..i + 1][..|groups[..i + 1]| - 1] == groups[..i];
  }

  lemma SweepNothing(p: Pass, ciType: string, runId: string, delete: bool)
    ensures Sweep(p, ciType, {}, runId, delete) == p
  {
    Batches.NothingToRemove(p.s);
    Batches.NothingToFlag(p.s, runId);
  }

  lemma FlagOneMore(p: Pass, node: Node, done: set<Node>, runId: string)
    requires node in p.s.cis && node !in done
    ensures var t := Sweep(p, node.ciType, done, runId, false);
      Sweep(p, node.ciType, done + {node}, runId, false) ==
      Pass(MarkMissing(t.s, node, runId), t.ids, t.report.(markedMissing := t.report.markedMissing + 1))
  {
    assert |done + {node}| == |done| + 1;
    Batches.FlagsAddUp(p.s, done, node, runId);
  }

  lemma RemoveOneMore(p: Pass, node: Node, done: set<Node>, runId: string)
    requires node in p.s.cis && node !in done
    ensures var t, u := Sweep(p, node.ciType, done, runId, true), Sweep(p, node.ciType, done + {node}, runId, true);
      if FindType(p.s, node.ciType).None? then u == t.(report := t.report.(errors := t.report.errors + 1))
      else u == Pass(RemoveCis(t.s, {node}), t.ids, t.report.(deleted := t.report.deleted + 1))
  {
    assert |done + {node}| == |done| + 1;
    Batches.RemovalsAddUp(p.s, done, {node});
  }

  /** One more swept item is one more deletion, refusal or flag. */
  lemma SweepOneMore(p: Pass, node: Node, done: set<Node>, runId: string, delete: bool)
    requires node in p.s.cis && node !in done
    ensures var t, u := Sweep(p, node.ciType, done, runId, delete), Sweep(p, node.ciType, done + {node}, runId, delete);
      if !delete then
        u == Pass(MarkMissing(t.s, node, runId), t.ids, t.report.(markedMissing := t.report.markedMissing + 1))
      else if FindType(p.s, node.ciType).None? then u == t.(report := t.report.(errors := t.report.errors + 1))
      else u == Pass(RemoveCis(t.s, {node}), t.ids, t.report.(deleted := t.report.deleted + 1))
  {
    if !delete {
      FlagOneMore(p, node, done, runId);
    } else {
      RemoveOneMore(p, node, done, runId);
    }
  }

  // ------------------------------------------------------------ edges

  lemma OneMoreDesired(refs: seq<EdgeRef>, i: nat, ids: IdMap)
    requires i < |refs|
    ensures refs[..i + 1][..|refs[..i + 1]| - 1] == refs[..i] && refs[..i + 1][|refs[..i + 1]| - 1] == refs[i]
    ensures DesiredKeys(refs[..i + 1], ids) ==
        DesiredKeys(refs[..i], ids) + if Resolved(refs[i], ids) then {KeyOf(refs[i], ids)} else {}
  {
    assert refs[..i + 1] == refs[..i] + [refs[i]];
  }

  function UnwantedEdges(existing: map<EdgeKey, nat>, desired: set<EdgeKey>, keys: set<EdgeKey>): set<nat> {
    set k | k in keys && k in existing && k !in desired :: existing[k]
  }

  lemma OneMoreUnwanted(existing: map<EdgeKey, nat>, desired: set<EdgeKey>, seen: set<EdgeKey>, key: EdgeKey)
    requires forall a, b | a in existing && b in existing && existing[a] == existing[b] :: a == b
    requires key in existing && key !in seen
    ensures existing[key] !in UnwantedEdges(existing, desired, seen)
    ensures UnwantedEdges(existing, desired, seen + {key}) ==
            UnwantedEdges(existing, desired, seen) + if key in desired then {} else {existing[key]}
  {
  }

  /** A sound inventory has one edge per key, so the dictionary of the source's edges misses none. */
  lemma ListedAreStaleEdges(s: State, source: string, desired: set<EdgeKey>, existing: map<EdgeKey, nat>)
    requires EndpointsExist(s) && IdsFresh(s) && NoDuplicates(s)
    requires forall k | k in existing ::
      existing[k] in s.edges && s.edges[existing[k]].source == Some(source) && k == StoredKey(s.edges[existing[k]])
    requires forall id | id in s.edges && s.edges[id].source == Some(source) :: StoredKey(s.edges[id]) in existing
    ensures UnwantedEdges(existing, desired, existing.Keys) == StaleEdges(s.edges, source, desired)
  {
    forall id | id in s.edges && s.edges[id].source == Some(source)
      ensures existing[StoredKey(s.edges[id])] == id
    {
      var other := existing[StoredKey(s.edges[id])];
      assert s.edges[other].from == s.edges[id].from && s.edges[other].to == s.edges[id].to;
      assert SameEdge(s.edges[id], s.edges[other].relType, s.edges[other].from, s.edges[other].to);
    }
  }

  lemma {:induction false} WantsDeleteNothing(p: EdgePassState, refs: seq<EdgeRef>, ids: IdMap, source: string,
                                              runId: string, depth: nat)
    ensures WantAll(p, refs, ids, source, runId, depth).report.deleted == p.report.deleted
  {
    if refs != [] {
      WantsDeleteNothing(p, refs[..|refs| - 1], ids, source, runId, depth);
    }
  }

  lemma NothingDeletedYet(s: State, refs: seq<EdgeRef>, ids: IdMap, source: string, runId: string, depth: nat)
    ensures WantAll(EdgePassState(s, EMPTY_REL_REPORT), refs, ids, source, runId, depth).report.deleted == 0
  {
    WantsDeleteNothing(EdgePassState(s, EMPTY_REL_REPORT), refs, ids, source, runId, depth);
  }
}
