/** Lineage: the audit trail and the outbox of every live item account for its revision and for its fields. */
module Lineage {
  import opened Prelude
  import opened Walks
  import opened Schema
  import opened Audit
  import opened Inventory
  import opened GraphIntegrity

  /** One create record, then updates that each start from the state the record before left. */
  ghost predicate Chained(trail: seq<Entry>) {
    && (forall i | 0 <= i < |trail| :: trail[i].after.Some? && trail[i].revision == Some(i + 1))
    && (|trail| > 0 ==> trail[0].action == Create)
    && (forall i | 0 < i < |trail| :: Follows(trail[i - 1], trail[i]))
  }

  ghost predicate Follows(earlier: Entry, later: Entry) {
    && later.action == Update
    && later.before == earlier.after
    && later.before.Some? && later.after.Some?
    && later.changes == Diff(later.before.value, later.after.value)
  }

  /** The revision of an item counts its audit records and its events, and its last record shows its fields. */
  ghost predicate Accounted(s: State, n: Node)
    requires n in s.cis
  {
    var trail := At(s.audit, CiEntity(n));
    && Chained(trail)
    && |trail| == s.cis[n].revision == |At(s.outbox, CiEntity(n))|
    && |trail| > 0
    && trail[|trail| - 1].after == Some(s.cis[n].fields)
  }

  ghost predicate Unused(s: State) {
    && (forall n | CiEntity(n) in s.audit :: n.oid < s.nextId)
    && (forall n | CiEntity(n) in s.outbox :: n.oid < s.nextId)
    && (forall n | n in s.cis :: n.oid < s.nextId)
  }

  ghost predicate LineageKept(s: State) {
    Unused(s) && forall n | n in s.cis :: Accounted(s, n)
  }

  /** Replaying the first `k` records gives the fields as they were after the `k`-th. */
  lemma {:induction false} ReplayReads(trail: seq<Entry>, k: nat)
    requires Chained(trail) && 0 < k <= |trail|
    ensures SameReading(Replay(trail[..k]), trail[k - 1].after.value)
  {
    var prefix := trail[..k];
    assert prefix[..|prefix| - 1] == trail[..k - 1];
    if k > 1 {
      ReplayReads(trail, k - 1);
      assert Follows(trail[k - 2], trail[k - 1]);
      DiffRoundTrip(trail[k - 1].before.value, trail[k - 1].after.value, Replay(trail[..k - 1]));
    }
  }

  /**
   For every live item, the revision, the trail and the events agree in number and the replayed trail reads as the
   item does.
   */
  lemma LiveItemIsAccountedFor(s: State, n: Node)
    requires LineageKept(s) && n in s.cis
    ensures |At(s.audit, CiEntity(n))| == s.cis[n].revision == |At(s.outbox, CiEntity(n))|
    ensures SameReading(Replay(At(s.audit, CiEntity(n))), s.cis[n].fields)
  {
    var trail := At(s.audit, CiEntity(n));
    assert Accounted(s, n);
    ReplayReads(trail, |trail|);
    assert trail[..|trail|] == trail;
  }

  // ------------------------------------------------------------ preservation

  /** The records about item `n` and the item itself are the same in both states. */
  ghost predicate SameItem(s: State, s': State, n: Node) {
    && n in s.cis && n in s'.cis && s'.cis[n].fields == s.cis[n].fields && s'.cis[n].revision == s.cis[n].revision
    && At(s'.audit, CiEntity(n)) == At(s.audit, CiEntity(n))
    && At(s'.outbox, CiEntity(n)) == At(s.outbox, CiEntity(n))
  }

  lemma ExtendedChain(trail: seq<Entry>, e: Entry)
    requires Chained(trail) && |trail| > 0
    requires e.revision == Some(|trail| + 1) && Follows(trail[|trail| - 1], e)
    ensures Chained(trail + [e])
  {
  }

  lemma InsertCiAccounts(s: State, ciType: string, ci: Ci)
    requires LineageKept(s) && ci.revision == 1
    ensures LineageKept(InsertCi(s, ciType, ci))
  {
    var s' := InsertCi(s, ciType, ci);
    var node := Node(ciType, s.nextId);
    assert CiEntity(node) !in s.audit && CiEntity(node) !in s.outbox;
    forall n | n in s'.cis
      ensures Accounted(s', n)
    {
      if n != node {
        assert Accounted(s, n) && SameItem(s, s', n);
      } else {
        assert At(s'.audit, CiEntity(n)) == [Entry(Create, Some(1), None, Some(ci.fields), map[])];
        assert At(s'.outbox, CiEntity(n)) == [CiCreated];
      }
    }
  }

  lemma ReplaceCiAccounts(s: State, node: Node, ci: Ci, event: Event)
    requires LineageKept(s) && node in s.cis && ci.revision == s.cis[node].revision + 1
    ensures LineageKept(ReplaceCi(s, node, ci, event))
  {
    var s' := ReplaceCi(s, node, ci, event);
    var before := s.cis[node].fields;
    var trail := At(s.audit, CiEntity(node));
    var e := Entry(Update, Some(ci.revision), Some(before), Some(ci.fields), Diff(before, ci.fields));
    forall n | n in s'.cis
      ensures Accounted(s', n)
    {
      assert Accounted(s, n);
      if n != node {
        assert SameItem(s, s', n);
      } else {
        ExtendedChain(trail, e);
        assert At(s'.audit, CiEntity(n)) == trail + [e];
      }
    }
  }

  /** Steps after which every remaining item and its records are as before. */
  lemma UntouchedItemsStayAccounted(s: State, s': State)
    requires LineageKept(s) && Unused(s')
    requires forall n | n in s'.cis :: SameItem(s, s', n)
    ensures LineageKept(s')
  {
    forall n | n in s'.cis
      ensures Accounted(s', n)
    {
      assert Accounted(s, n);
    }
  }

  lemma RemoveEdgesAccounts(s: State, ids: set<nat>)
    requires LineageKept(s)
    ensures LineageKept(RemoveEdges(s, ids))
    ensures forall n | n in s.cis :: SameItem(s, RemoveEdges(s, ids), n)
  {
    var s' := RemoveEdges(s, ids);
    forall n
      ensures At(s'.audit, CiEntity(n)) == At(s.audit, CiEntity(n))
      ensures (CiEntity(n) in s'.audit <==> CiEntity(n) in s.audit)
      ensures At(s'.outbox, CiEntity(n)) == At(s.outbox, CiEntity(n))
      ensures (CiEntity(n) in s'.outbox <==> CiEntity(n) in s.outbox)
    {
      assert CiEntity(n) !in EdgeEntities(s.edges, ids);
    }
    UntouchedItemsStayAccounted(s, s');
  }

  /** Writing the deletion records of some items leaves the records of all others alone. */
  lemma CiDeletionsLeaveOthers(s: State, nodes: set<Node>, audit: map<Entity, seq<Entry>>, outbox: map<Entity,
                               seq<Event>>, n: Node)
    ensures var a := LogCiDeletions(audit, s.cis, nodes);
      && (n !in nodes ==> At(a, CiEntity(n)) == At(audit, CiEntity(n)))
      && (CiEntity(n) in a ==> CiEntity(n) in audit || n in s.cis)
    ensures var o := LogEvent(outbox, CiEntities(s.cis, nodes), CiDeleted);
      && (n !in nodes ==> At(o, CiEntity(n)) == At(outbox, CiEntity(n)))
      && (CiEntity(n) in o ==> CiEntity(n) in outbox || n in s.cis)
  {
    assert n !in nodes ==> CiEntity(n) !in CiEntities(s.cis, nodes);
  }

  lemma RemoveCisAccounts(s: State, nodes: set<Node>)
    requires LineageKept(s)
    ensures LineageKept(RemoveCis(s, nodes))
  {
    var detached := RemoveEdges(s, IncidentToAny(s.edges, nodes));
    RemoveEdgesAccounts(s, IncidentToAny(s.edges, nodes));
    var s' := RemoveCis(s, nodes);
    assert s'.cis == s.cis - nodes && detached.cis == s.cis && s'.nextId == detached.nextId;
    forall n
      ensures CiEntity(n) in s'.audit ==> n.oid < s'.nextId
      ensures CiEntity(n) in s'.outbox ==> n.oid < s'.nextId
      ensures n in s'.cis ==> SameItem(detached, s', n)
    {
      CiDeletionsLeaveOthers(s, nodes, detached.audit, detached.outbox, n);
    }
    UntouchedItemsStayAccounted(detached, s');
  }

  lemma DeleteEdgeAccounts(s: State, id: nat, expected: Option<nat>)
    requires LineageKept(s)
    ensures LineageKept(DeleteEdge(s, id, expected).0)
  {
    RemoveEdgesAccounts(s, {id});
  }

  lemma DeleteCiAccounts(s: State, node: Node, expected: Option<nat>, detach: bool)
    requires LineageKept(s)
    ensures LineageKept(DeleteCi(s, node, expected, detach).0)
  {
    var (t, reply) := DeleteCi(s, node, expected, detach);
    if reply.Ok? {
      assert t == RemoveCis(s, {node});
      RemoveCisAccounts(s, {node});
    } else {
      assert t == s;
    }
  }

  lemma CreateEdgeAccounts(s: State, req: EdgeRequest, depth: nat)
    requires LineageKept(s)
    ensures LineageKept(CreateEdge(s, req, depth).0)
  {
    var looked := Remember(s, Lower(req.relType));
    if Verdict(s, req, depth).None? {
      AcceptedEffect(s, req, depth);
      InsertEdgeAccounts(looked, NewEdge(Resolve(s, Lower(req.relType)).value, req));
    } else {
      assert CreateEdge(s, req, depth).0 == looked;
      UntouchedItemsStayAccounted(s, looked);
    }
  }

  lemma InsertEdgeAccounts(s: State, e: Edge)
    requires LineageKept(s)
    ensures LineageKept(InsertEdge(s, e))
  {
    var s' := InsertEdge(s, e);
    assert s'.cis == s.cis;
    UntouchedItemsStayAccounted(s, s');
  }

  lemma RefreshAccounts(s: State, node: Node, merged: Option<Doc>, current: Option<Doc>, version: nat, seen: Provenance)
    requires LineageKept(s) && node in s.cis
    ensures LineageKept(RefreshWith(s, node, merged, current, version, seen).0)
  {
    var ci := s.cis[node];
    var s' := RefreshWith(s, node, merged, current, version, seen).0;
    if merged.None? || current.None? {
      assert s' == s;
    } else if merged == current {
      assert s' == s.(cis := s.cis[node := ci.(prov := seen)]);
      UntouchedItemsStayAccounted(s, s');
    } else {
      var updated := Ci(ci.fields + merged.value, ci.revision + 1, version, seen);
      assert s' == ReplaceCi(s, node, updated, CiUpdated);
      ReplaceCiAccounts(s, node, updated, CiUpdated);
    }
  }

  lemma ApplyDiscoveryAccounts(s: State, ciType: string, data: Doc, source: string, extId: string, runId: string)
    requires LineageKept(s)
    ensures LineageKept(ApplyDiscovery(s, ciType, data, source, extId, runId).0)
  {
    FindTaggedSound(s, ciType, source, extId);
    var def := FindType(s, ciType);
    var found := FindTagged(s, ciType, source, extId);
    if def.Some? {
      if found.None? {
        var valid := Validate(def.value.model, data);
        if valid.Some? {
          InsertCiAccounts(s, ciType, Ci(valid.value, 1, def.value.version, Seen(NO_PROVENANCE, source, extId, runId)));
        }
      } else {
        var ci := s.cis[found.value];
        RefreshAccounts(s, found.value, Validate(def.value.model, ci.fields + data),
                        Validate(def.value.model, ci.fields),
                        def.value.version, Seen(ci.prov, source, extId, runId));
      }
    }
  }

  lemma MarkMissingAccounts(s: State, node: Node, runId: string)
    requires LineageKept(s)
    ensures LineageKept(MarkMissing(s, node, runId))
  {
    if node in s.cis {
      ReplaceCiAccounts(s, node, MarkedMissing(s.cis[node], runId), CiMissing);
    }
  }

  lemma CreateCiAccounts(s: State, ciType: string, payload: Doc)
    requires LineageKept(s)
    ensures LineageKept(CreateCi(s, ciType, payload).0)
  {
    if CreateCi(s, ciType, payload).1.Ok? {
      var def := FindType(s, ciType).value;
      InsertCiAccounts(s, ciType, Ci(Validate(def.model, payload).value, 1, def.version, NO_PROVENANCE));
    }
  }

  lemma UpdateCiAccounts(s: State, node: Node, payload: Doc, revision: nat, partial: bool)
    requires LineageKept(s)
    ensures LineageKept(UpdateCi(s, node, payload, revision, partial).0)
  {
    if UpdateCi(s, node, payload, revision, partial).1.Ok? {
      var def := FindType(s, node.ciType).value;
      var ci := s.cis[node];
      var data := Validate(def.model, if partial then ci.fields + payload else payload).value;
      ReplaceCiAccounts(s, node, ci.(fields := ci.fields + data, revision := ci.revision + 1,
          schemaVersion := def.version), CiUpdated);
    }
  }

  lemma RegistryStepAccounts(s: State, s': State)
    requires LineageKept(s)
    requires s'.cis == s.cis && s'.audit == s.audit && s'.outbox == s.outbox && s'.nextId == s.nextId
    ensures LineageKept(s')
  {
    UntouchedItemsStayAccounted(s, s');
  }

  lemma RelTypeStepAccounts(s: State, step: Step, depth: nat)
    requires LineageKept(s)
    requires step.AddRelType? || step.AddRelTypeElsewhere? || step.DropRelType? || step.DropRelTypeElsewhere?
    ensures LineageKept(Perform(s, step, depth))
  {
    match step
    case AddRelType(def) => RegistryStepAccounts(s, CreateRelType(s, def).0);
    case AddRelTypeElsewhere(def) => RegistryStepAccounts(s, CreateRelType(s, def).0.(relCache := s.relCache));
    case DropRelType(name) => RegistryStepAccounts(s, DeactivateRelType(s, name).0);
    case DropRelTypeElsewhere(name) => RegistryStepAccounts(s, DeactivateRelType(s, name).0.(relCache := s.relCache));
  }

  lemma PerformAccounts(s: State, step: Step, depth: nat)
    requires LineageKept(s)
    ensures LineageKept(Perform(s, step, depth))
  {
    match step
    case AddEdge(req) => CreateEdgeAccounts(s, req, depth);
    case DropEdge(id, expected) => DeleteEdgeAccounts(s, id, expected);
    case AddCi(ciType, payload) => CreateCiAccounts(s, ciType, payload);
    case ChangeCi(node, payload, revision, partial) => UpdateCiAccounts(s, node, payload, revision, partial);
    case DropCi(node, expected, detach) => DeleteCiAccounts(s, node, expected, detach);
    case Discover(ciType, data, source, extId, runId) => ApplyDiscoveryAccounts(s, ciType, data, source, extId, runId);
    case Miss(node, runId) => MarkMissingAccounts(s, node, runId);
    case ForgetRelType(name) => RegistryStepAccounts(s, s.(relCache := s.relCache - {name}));
    case SetType(name, def) => RegistryStepAccounts(s, s.(types := s.types[name := def]));
    case DropType(name) => RegistryStepAccounts(s, s.(types := s.types - {name}));
    case _ => RelTypeStepAccounts(s, step, depth);
  }

  /** Every run keeps the lineage of every item. */
  lemma {:induction false} RunKeepsLineage(s: State, steps: seq<Step>, depth: nat)
    requires LineageKept(s)
    ensures LineageKept(Run(s, steps, depth))
  {
    if steps != [] {
      RunKeepsLineage(s, steps[..|steps| - 1], depth);
      PerformAccounts(Run(s, steps[..|steps| - 1], depth), steps[|steps| - 1], depth);
    }
  }
}
