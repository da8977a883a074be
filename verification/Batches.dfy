/** Sweeping a set of items or edges at once is the same as handling its members one after the other. */
module Batches {
  import opened Prelude
  import opened Walks
  import opened Schema
  import opened Audit
  import opened Inventory

  // ------------------------------------------------------------ one element

  lemma LogOneEvent(outbox: map<Entity, seq<Event>>, e: Entity, event: Event)
    ensures LogEvent(outbox, {e}, event) == Log(outbox, e, event)
  {
  }

  lemma LogOneDeletion(audit: map<Entity, seq<Entry>>, cis: map<Node, Ci>, n: Node)
    requires n in cis
    ensures CiEntities(cis, {n}) == {CiEntity(n)}
    ensures LogCiDeletions(audit, cis, {n}) == Log(audit, CiEntity(n), CiDeletion(cis[n]))
  {
  }

  // ------------------------------------------------------------ events

  lemma EventsAddUp(outbox: map<Entity, seq<Event>>, a: set<Entity>, b: set<Entity>, event: Event)
    requires a !! b
    ensures LogEvent(LogEvent(outbox, a, event), b, event) == LogEvent(outbox, a + b, event)
  {
  }

  /** Events about different entities are written independently. */
  lemma EventsCommute(outbox: map<Entity, seq<Event>>, a: set<Entity>, x: Event, b: set<Entity>, y: Event)
    requires a !! b
    ensures LogEvent(LogEvent(outbox, a, x), b, y) == LogEvent(LogEvent(outbox, b, y), a, x)
  {
  }

  // ------------------------------------------------------------ edges

  lemma EdgeEntitiesAddUp(edges: map<nat, Edge>, ids: set<nat>, more: set<nat>)
    requires ids !! more
    ensures EdgeEntities(edges, ids + more) == EdgeEntities(edges, ids) + EdgeEntities(edges - ids, more)
    ensures EdgeEntities(edges, ids) !! EdgeEntities(edges - ids, more)
  {
    forall e | e in EdgeEntities(edges, ids + more)
      ensures e in EdgeEntities(edges, ids) + EdgeEntities(edges - ids, more)
    {
      var id :| id in ids + more && id in edges && e == EdgeEntityOf(edges, id);
      if id in more {
        assert e == EdgeEntityOf(edges - ids, id);
      }
    }
    forall e | e in EdgeEntities(edges - ids, more)
      ensures e in EdgeEntities(edges, ids + more) && e !in EdgeEntities(edges, ids)
    {
      var id :| id in more && id in edges - ids && e == EdgeEntityOf(edges - ids, id);
      assert e == EdgeEntityOf(edges, id);
    }
  }

  lemma EdgeDeletionsAddUp(audit: map<Entity, seq<Entry>>, edges: map<nat, Edge>, ids: set<nat>, more: set<nat>)
    requires ids !! more
    ensures LogEdgeDeletions(LogEdgeDeletions(audit, edges, ids), edges - ids, more) ==
      LogEdgeDeletions(audit, edges, ids + more)
  {
    EdgeEntitiesAddUp(edges, ids, more);
    forall e | e in EdgeEntities(edges - ids, more)
      ensures e.EdgeEntity? && e.id in edges - ids && (edges - ids)[e.id] == edges[e.id]
    {
    }
  }

  /** Removing some edges and then others is removing them all. */
  lemma EdgeRemovalsAddUp(s: State, ids: set<nat>, more: set<nat>)
    requires ids !! more
    ensures RemoveEdges(RemoveEdges(s, ids), more) == RemoveEdges(s, ids + more)
  {
    EdgeEntitiesAddUp(s.edges, ids, more);
    EdgeDeletionsAddUp(s.audit, s.edges, ids, more);
    EventsAddUp(s.outbox, EdgeEntities(s.edges, ids), EdgeEntities(s.edges - ids, more), EdgeDeleted);
    assert (s.edges - ids) - more == s.edges - (ids + more);
  }

  // ------------------------------------------------------------ items

  lemma CiEntitiesAddUp(cis: map<Node, Ci>, nodes: set<Node>, more: set<Node>)
    requires nodes !! more
    ensures CiEntities(cis, nodes + more) == CiEntities(cis, nodes) + CiEntities(cis - nodes, more)
    ensures CiEntities(cis, nodes) !! CiEntities(cis - nodes, more)
  {
    forall n | n in more && n in cis
      ensures n in cis - nodes
    {
    }
  }

  lemma CiDeletionsAddUp(audit: map<Entity, seq<Entry>>, cis: map<Node, Ci>, nodes: set<Node>, more: set<Node>)
    requires nodes !! more
    ensures LogCiDeletions(LogCiDeletions(audit, cis, nodes), cis - nodes, more) ==
      LogCiDeletions(audit, cis, nodes + more)
  {
    CiEntitiesAddUp(cis, nodes, more);
  }

  lemma DifferentEntities(edges: map<nat, Edge>, ids: set<nat>, cis: map<Node, Ci>, nodes: set<Node>)
    ensures EdgeEntities(edges, ids) !! CiEntities(cis, nodes)
  {
  }

  lemma DeletionsCommuteAt(audit: map<Entity, seq<Entry>>, edges: map<nat, Edge>, ids: set<nat>, cis: map<Node, Ci>,
                           nodes: set<Node>, e: Entity)
    requires e in audit.Keys + EdgeEntities(edges, ids) + CiEntities(cis, nodes)
    ensures LogEdgeDeletions(LogCiDeletions(audit, cis, nodes), edges, ids)[e] ==
        LogCiDeletions(LogEdgeDeletions(audit, edges, ids), cis, nodes)[e]
  {
    var a, b := LogCiDeletions(audit, cis, nodes), LogEdgeDeletions(audit, edges, ids);
    if e.CiEntity? {
      assert e !in EdgeEntities(edges, ids) && At(b, e) == At(audit, e);
    } else {
      assert e !in CiEntities(cis, nodes) && At(a, e) == At(audit, e);
    }
  }

  /** Deletion records of edges and of items concern different entities. */
  lemma DeletionsCommute(audit: map<Entity, seq<Entry>>, edges: map<nat, Edge>, ids: set<nat>, cis: map<Node, Ci>,
                         nodes: set<Node>)
    ensures LogEdgeDeletions(LogCiDeletions(audit, cis, nodes), edges, ids) ==
        LogCiDeletions(LogEdgeDeletions(audit, edges, ids), cis, nodes)
  {
    var a, b := LogCiDeletions(audit, cis, nodes), LogEdgeDeletions(audit, edges, ids);
    var x, y := LogEdgeDeletions(a, edges, ids), LogCiDeletions(b, cis, nodes);
    assert x.Keys == y.Keys == audit.Keys + EdgeEntities(edges, ids) + CiEntities(cis, nodes);
    forall e | e in x
      ensures x[e] == y[e]
    {
      DeletionsCommuteAt(audit, edges, ids, cis, nodes, e);
    }
  }

  lemma IncidenceAddsUp(edges: map<nat, Edge>, nodes: set<Node>, more: set<Node>)
    ensures var rest := edges - IncidentToAny(edges, nodes);
      && IncidentToAny(edges, nodes) !! IncidentToAny(rest, more)
      && IncidentToAny(edges, nodes + more) == IncidentToAny(edges, nodes) + IncidentToAny(rest, more)
  {
  }

  /** The audit trail after deleting some items and then others. */
  lemma TrailsAddUp(s: State, nodes: set<Node>, more: set<Node>)
    requires nodes !! more
    ensures RemoveCis(RemoveCis(s, nodes), more).audit == RemoveCis(s, nodes + more).audit
  {
    var i, rest := IncidentToAny(s.edges, nodes), s.edges - IncidentToAny(s.edges, nodes);
    var j := IncidentToAny(rest, more);
    IncidenceAddsUp(s.edges, nodes, more);
    var detached := LogEdgeDeletions(s.audit, s.edges, i);
    DeletionsCommute(detached, rest, j, s.cis, nodes);
    EdgeDeletionsAddUp(s.audit, s.edges, i, j);
    CiDeletionsAddUp(LogEdgeDeletions(s.audit, s.edges, i + j), s.cis, nodes, more);
  }

  lemma OutboxesAddUp(s: State, nodes: set<Node>, more: set<Node>)
    requires nodes !! more
    ensures RemoveCis(RemoveCis(s, nodes), more).outbox == RemoveCis(s, nodes + more).outbox
  {
    var i, rest := IncidentToAny(s.edges, nodes), s.edges - IncidentToAny(s.edges, nodes);
    var j := IncidentToAny(rest, more);
    IncidenceAddsUp(s.edges, nodes, more);
    EdgeEntitiesAddUp(s.edges, i, j);
    CiEntitiesAddUp(s.cis, nodes, more);
    DifferentEntities(rest, j, s.cis, nodes);
    var edgesDone := LogEvent(s.outbox, EdgeEntities(s.edges, i), EdgeDeleted);
    EventsCommute(edgesDone, EdgeEntities(rest, j), EdgeDeleted, CiEntities(s.cis, nodes), CiDeleted);
    EventsAddUp(s.outbox, EdgeEntities(s.edges, i), EdgeEntities(rest, j), EdgeDeleted);
    EventsAddUp(LogEvent(s.outbox, EdgeEntities(s.edges, i + j), EdgeDeleted), CiEntities(s.cis, nodes),
        CiEntities(s.cis - nodes, more), CiDeleted);
  }

  /** Deleting some items with their edges and then others is deleting them all. */
  lemma RemovalsAddUp(s: State, nodes: set<Node>, more: set<Node>)
    requires nodes !! more
    ensures RemoveCis(RemoveCis(s, nodes), more) == RemoveCis(s, nodes + more)
  {
    TrailsAddUp(s, nodes, more);
    OutboxesAddUp(s, nodes, more);
    IncidenceAddsUp(s.edges, nodes, more);
    assert (s.cis - nodes) - more == s.cis - (nodes + more);
    var rest := s.edges - IncidentToAny(s.edges, nodes);
    assert rest - IncidentToAny(rest, more) == s.edges - IncidentToAny(s.edges, nodes + more);
  }

  lemma NoEdgeToRemove(s: State)
    ensures RemoveEdges(s, {}) == s
  {
    assert EdgeEntities(s.edges, {}) == {};
    assert LogEdgeDeletions(s.audit, s.edges, {}) == s.audit;
    assert LogEvent(s.outbox, {}, EdgeDeleted) == s.outbox;
  }

  lemma NothingToRemove(s: State)
    ensures RemoveCis(s, {}) == s
  {
    assert IncidentToAny(s.edges, {}) == {} && CiEntities(s.cis, {}) == {};
    NoEdgeToRemove(s);
    assert LogCiDeletions(s.audit, s.cis, {}) == s.audit;
    assert LogEvent(s.outbox, {}, CiDeleted) == s.outbox;
  }

  // ------------------------------------------------------------ flagging

  lemma FlaggedCisAddUp(s: State, nodes: set<Node>, n: Node, runId: string)
    requires n !in nodes && n in s.cis
    ensures var t := MarkAllMissing(s, nodes, runId);
      && t.cis.Keys == s.cis.Keys && t.cis[n] == s.cis[n]
      && t.cis[n := MarkedMissing(s.cis[n], runId)] == MarkAllMissing(s, nodes + {n}, runId).cis
  {
  }

  lemma OneMoreFlag(audit: map<Entity, seq<Entry>>, cis: map<Node, Ci>, entities: set<Entity>, n: Node)
    requires n in cis && CiEntity(n) !in entities
    requires forall e | e in entities :: e.CiEntity? && e.node in cis
    ensures LogFlags(audit, cis, entities + {CiEntity(n)}) ==
        Log(LogFlags(audit, cis, entities), CiEntity(n), MissingUpdate(cis[n]))
  {
  }

  lemma FlagTrailsAddUp(s: State, nodes: set<Node>, n: Node, runId: string)
    requires n !in nodes && n in s.cis
    ensures MarkAllMissing(s, nodes + {n}, runId).audit ==
            Log(MarkAllMissing(s, nodes, runId).audit, CiEntity(n), MissingUpdate(s.cis[n]))
  {
    assert CiEntities(s.cis, nodes + {n}) == CiEntities(s.cis, nodes) + {CiEntity(n)};
    OneMoreFlag(s.audit, s.cis, CiEntities(s.cis, nodes), n);
  }

  lemma FlagEventsAddUp(s: State, nodes: set<Node>, n: Node, runId: string)
    requires n !in nodes && n in s.cis
    ensures MarkAllMissing(s, nodes + {n}, runId).outbox ==
      Log(MarkAllMissing(s, nodes, runId).outbox, CiEntity(n), CiMissing)
  {
    assert CiEntities(s.cis, nodes + {n}) == CiEntities(s.cis, nodes) + {CiEntity(n)};
    assert CiEntity(n) !in CiEntities(s.cis, nodes);
    EventsAddUp(s.outbox, CiEntities(s.cis, nodes), {CiEntity(n)}, CiMissing);
    LogOneEvent(LogEvent(s.outbox, CiEntities(s.cis, nodes), CiMissing), CiEntity(n), CiMissing);
  }

  /** Flagging one more stored item is one more update of it. */
  lemma FlagsAddUp(s: State, nodes: set<Node>, n: Node, runId: string)
    requires n !in nodes && n in s.cis
    ensures MarkMissing(MarkAllMissing(s, nodes, runId), n, runId) == MarkAllMissing(s, nodes + {n}, runId)
  {
    FlaggedCisAddUp(s, nodes, n, runId);
    FlagTrailsAddUp(s, nodes, n, runId);
    FlagEventsAddUp(s, nodes, n, runId);
    var t := MarkAllMissing(s, nodes, runId);
    assert MarkMissing(t, n, runId) == ReplaceCi(t, n, MarkedMissing(s.cis[n], runId), CiMissing);
  }

  lemma NothingToFlag(s: State, runId: string)
    ensures MarkAllMissing(s, {}, runId) == s
  {
    assert CiEntities(s.cis, {}) == {};
    var t := MarkAllMissing(s, {}, runId);
    assert t.cis == s.cis && t.audit == s.audit && t.outbox == s.outbox;
  }
}
