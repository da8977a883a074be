/** Discovery runs keep the lineage of every item. */
module DiscoveryLineage {
  import opened Prelude
  import opened Walks
  import opened Schema
  import opened Audit
  import opened Inventory
  import opened GraphIntegrity
  import opened Lineage
  import opened EdgeReconciliation
  import opened CiReconciliation
  import Discovery

  lemma FlaggedItemAccounted(s: State, nodes: set<Node>, runId: string, n: Node)
    requires LineageKept(s) && n in s.cis && n in nodes
    ensures Accounted(MarkAllMissing(s, nodes, runId), n)
  {
    var t := MarkAllMissing(s, nodes, runId);
    var trail := At(s.audit, CiEntity(n));
    var e := MissingUpdate(s.cis[n]);
    assert Accounted(s, n);
    assert CiEntity(n) in CiEntities(s.cis, nodes);
    assert t.cis[n] == MarkedMissing(s.cis[n], runId);
    assert Follows(trail[|trail| - 1], e);
    ExtendedChain(trail, e);
    assert At(t.audit, CiEntity(n)) == trail + [e];
  }

  lemma UnflaggedItemAccounted(s: State, nodes: set<Node>, runId: string, n: Node)
    requires LineageKept(s) && n in s.cis && n !in nodes
    ensures Accounted(MarkAllMissing(s, nodes, runId), n)
  {
    assert CiEntity(n) !in CiEntities(s.cis, nodes);
    assert Accounted(s, n) && SameItem(s, MarkAllMissing(s, nodes, runId), n);
  }

  lemma MarkingLeavesUnused(s: State, nodes: set<Node>, runId: string)
    requires Unused(s)
    ensures Unused(MarkAllMissing(s, nodes, runId)) && MarkAllMissing(s, nodes, runId).cis.Keys == s.cis.Keys
  {
  }

  lemma MarkAllMissingAccounts(s: State, nodes: set<Node>, runId: string)
    requires LineageKept(s)
    ensures LineageKept(MarkAllMissing(s, nodes, runId))
  {
    var t := MarkAllMissing(s, nodes, runId);
    MarkingLeavesUnused(s, nodes, runId);
    forall n | n in t.cis
      ensures Accounted(t, n)
    {
      if n in nodes {
        FlaggedItemAccounted(s, nodes, runId, n);
      } else {
        UnflaggedItemAccounted(s, nodes, runId, n);
      }
    }
  }

  lemma SweepAccounts(p: Pass, ciType: string, stale: set<Node>, runId: string, delete: bool)
    requires LineageKept(p.s)
    ensures LineageKept(Sweep(p, ciType, stale, runId, delete).s)
  {
    if delete {
      RemoveCisAccounts(p.s, stale);
    } else {
      MarkAllMissingAccounts(p.s, stale, runId);
    }
  }

  lemma {:induction false} UpsertsAccount(p: Pass, items: seq<Item>, source: string, runId: string)
    requires LineageKept(p.s)
    ensures LineageKept(ApplyItems(p, items, source, runId).s)
  {
    if items != [] {
      var it := items[|items| - 1];
      UpsertsAccount(p, items[..|items| - 1], source, runId);
      ApplyDiscoveryAccounts(ApplyItems(p, items[..|items| - 1], source, runId).s, it.ciType, it.data, source,
                             it.extId, runId);
    }
  }

  lemma {:induction false} GroupsAccount(p: Pass, groups: seq<Group>, source: string, runId: string, delete: bool)
    requires LineageKept(p.s)
    ensures LineageKept(GroupPasses(p, groups, source, runId, delete).s)
  {
    if groups != [] {
      var m := GroupPasses(p, groups[..|groups| - 1], source, runId, delete);
      var g := groups[|groups| - 1];
      GroupsAccount(p, groups[..|groups| - 1], source, runId, delete);
      UpsertsAccount(m, g.items, source, runId);
      SweepAccounts(ApplyItems(m, g.items, source, runId), g.ciType, StaleItems(m.s, g, source), runId, delete);
    }
  }

  lemma {:induction false} WantsAccount(p: EdgePassState, refs: seq<EdgeRef>, ids: IdMap, source: string,
                                        runId: string, depth: nat)
    requires LineageKept(p.s)
    ensures LineageKept(WantAll(p, refs, ids, source, runId, depth).s)
  {
    if refs != [] {
      var m := WantAll(p, refs[..|refs| - 1], ids, source, runId, depth);
      var e := refs[|refs| - 1];
      WantsAccount(p, refs[..|refs| - 1], ids, source, runId, depth);
      if Resolved(e, ids) {
        CreateEdgeAccounts(m.s, RequestFor(e, ids, source, runId), depth);
        assert Want(m, e, ids, source, runId, depth).s == CreateEdge(m.s, RequestFor(e, ids, source, runId), depth).0;
      }
    }
  }

  /**
   After a discovery run, as before it, every live item's revision, audit trail and events agree and replay to its
   fields.
   */
  lemma ReconcileKeepsLineage(s: State, snap: Discovery.Snapshot, source: string, runId: string, delete: bool,
                              depth: nat)
    requires LineageKept(s)
    ensures LineageKept(Discovery.Reconcile(s, snap, source, runId, delete, depth).s)
  {
    var p := CiPass(s, snap.items, source, runId, delete);
    GroupsAccount(Pass(s, map[], EMPTY_CI_REPORT), Grouped(snap.items), source, runId, delete);
    var w := WantAll(EdgePassState(p.s, EMPTY_REL_REPORT), snap.relationships, p.ids, source, runId, depth);
    WantsAccount(EdgePassState(p.s, EMPTY_REL_REPORT), snap.relationships, p.ids, source, runId, depth);
    RemoveEdgesAccounts(w.s, StaleEdges(w.s.edges, source, DesiredKeys(snap.relationships, p.ids)));
  }
}
