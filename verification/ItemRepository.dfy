/**
 The repository of configuration items: each method does, write by write, what `Inventory` says the call does as one
 step.
 */
module ItemRepository {
  import opened Prelude
  import opened Walks
  import opened Schema
  import opened Inventory
  import opened Database
  import opened GraphIntegrity
  import GraphRepository
  import Audit
  import Batches
  import IdempotentCreate

  /** How the joint writes of a create went: they may raise without having happened, or after having happened. */
  datatype Writes = Acknowledged | RolledBack | Unacknowledged

  /** What a create under a key comes to: the inventory, the key records and the reply. */
  function CreatedOnce(s: State, records: IdempotentCreate.Records, ciType: string, payload: Doc, key: string,
                       writes: Writes): (State, IdempotentCreate.Records, Reply<nat>)
  {
    var k := IdempotentCreate.RecordKey(ciType, key);
    var (s', plain) := CreateCi(s, ciType, payload);
    if plain.Err? then (s, records, plain)
    else if k in records then
      match records[k]
      case Finished(id) => (s, records, Ok(id))
      case Pending => (s, records, Err(IdempotencyInProgress))
    else if writes.RolledBack? then (s, records, Err(WriteFailed))
    else
      var reply := if writes.Unacknowledged? then Err(WriteFailed) else plain;
      (s', records[k := IdempotentCreate.Finished(plain.value)], reply)
  }

  /**
   A caller who is not told the outcome can send the request again: it is answered with the item that was created, and
   whether or not there was one, two such requests leave exactly one item more.
   */
  lemma RetryCreatesOnce(s: State, records: IdempotentCreate.Records, ciType: string, payload: Doc, key: string,
                         writes: Writes)
    requires IdempotentCreate.RecordKey(ciType, key) !in records && CreateCi(s, ciType, payload).1.Ok?
    ensures var (s1, records1, reply1) := CreatedOnce(s, records, ciType, payload, key, writes);
      var (s2, records2, reply2) := CreatedOnce(s1, records1, ciType, payload, key, Acknowledged);
      && (reply1.Ok? <==> writes.Acknowledged?)
      && (s2, reply2) == CreateCi(s, ciType, payload)
      && records2 == records[IdempotentCreate.RecordKey(ciType, key) := IdempotentCreate.Finished(reply2.value)]
  {
    var (s1, records1, reply1) := CreatedOnce(s, records, ciType, payload, key, writes);
    assert CreateCi(s1, ciType, payload).1.Ok?;
  }

  class CiRepository {
    const db: Collections
    /** Consulted before an item is deleted. */
    const guard: GraphRepository.RelationshipRepository

    constructor (db: Collections, guard: GraphRepository.RelationshipRepository)
      requires guard.Valid() && guard.db == db
      ensures this.db == db && this.guard == guard && Valid()
    {
      this.db, this.guard := db, guard;
    }

    ghost predicate Valid() {
      guard.Valid() && guard.db == db
    }

    ghost function View(): State
      reads guard.registry, guard.registry.db
    {
      guard.View()
    }

    method TypeDoc(name: string) returns (def: Option<TypeDef>)
      requires Valid()
      ensures def == FindType(View(), name)
    {
      if Lower(name) in db.types {
        def := Some(db.types[Lower(name)]);
      } else {
        def := None;
      }
    }

    /** Stores a new item with its audit record and its event. */
    method Insert(ciType: string, ci: Ci) returns (id: nat)
      requires Valid()
      modifies db`cis, db`nextId, db`audit, db`outbox
      ensures View() == InsertCi(old(View()), ciType, ci) && id == old(View()).nextId
    {
      id := db.nextId;
      var node := Node(ciType, id);
      db.cis := db.cis[node := ci];
      db.nextId := id + 1;
      db.Record(CiEntity(node), Audit.Create, Some(ci.revision), None, Some(ci.fields));
      db.Emit(CiEntity(node), CiCreated);
    }

    /** Overwrites a stored item, recording the diff. */
    method Overwrite(node: Node, ci: Ci, event: Event)
      requires Valid() && node in db.cis
      modifies db`cis, db`audit, db`outbox
      ensures View() == ReplaceCi(old(View()), node, ci, event)
    {
      var before := db.cis[node].fields;
      db.cis := db.cis[node := ci];
      db.Record(CiEntity(node), Audit.Update, Some(ci.revision), Some(before), Some(ci.fields));
      db.Emit(CiEntity(node), event);
    }

    method Create(ciType: string, payload: Doc) returns (reply: Reply<nat>)
      requires Valid()
      modifies db`cis, db`nextId, db`audit, db`outbox
      ensures (View(), reply) == CreateCi(old(View()), ciType, payload)
    {
      var def := TypeDoc(ciType);
      if def.None? {
        return Err(NotFound);
      }
      var data := Validate(def.value.model, payload);
      if data.None? {
        return Err(ValidationFailed);
      }
      var id := Insert(ciType, Ci(data.value, 1, def.value.version, NO_PROVENANCE));
      reply := Ok(id);
    }

    /** The joint writes under a claimed key: item and result appear together, or the claim is released. */
    method InsertUnderKey(store: IdempotentCreate.IdempotencyStore, ciType: string, ci: Ci, key: string, writes: Writes)
      returns (reply: Reply<nat>)
      requires Valid()
      requires var k := IdempotentCreate.RecordKey(ciType, key); k in store.records && store.records[k].Pending?
      modifies store, db`cis, db`nextId, db`audit, db`outbox
      ensures View() == if writes.RolledBack? then old(View()) else InsertCi(old(View()), ciType, ci)
      ensures var k := IdempotentCreate.RecordKey(ciType, key);
        store.records == if writes.RolledBack? then old(store.records) - {k}
                         else old(store.records)[k := IdempotentCreate.Finished(old(db.nextId))]
      ensures reply == if writes.Acknowledged? then Ok(old(db.nextId)) else Err(WriteFailed)
    {
      if writes.RolledBack? {
        store.Release(ciType, key);
        return Err(WriteFailed);
      }
      var id := Insert(ciType, ci);
      store.StoreResult(ciType, key, id);
      if writes.Unacknowledged? {
        store.Release(ciType, key);
        return Err(WriteFailed);
      }
      reply := Ok(id);
    }

    /**
     A create under an Idempotency-Key, undisturbed by others. The payload is validated before the key is looked at; a
     finished key replays its item and writes nothing, a pending one conflicts, and a free one is finished with the
     item created. If the writes fail the claim is released, which leaves the key free when they were rolled back and
     changes nothing when they were committed after all.
     */
    method CreateOnce(store: IdempotentCreate.IdempotencyStore, ciType: string, payload: Doc, key: string,
                      writes: Writes)
      returns (reply: Reply<nat>)
      requires Valid()
      modifies store, db`cis, db`nextId, db`audit, db`outbox
      ensures var (s', records', reply') :=
          CreatedOnce(old(View()), old(store.records), ciType, payload, key, writes);
        View() == s' && store.records == records' && reply == reply'
    {
      var def := TypeDoc(ciType);
      if def.None? {
        return Err(NotFound);
      }
      var data := Validate(def.value.model, payload);
      if data.None? {
        return Err(ValidationFailed);
      }
      var replay, conflict := store.Precheck(ciType, key);
      if replay.Some? {
        return Ok(replay.value);
      }
      if conflict {
        return Err(IdempotencyInProgress);
      }
      reply := InsertUnderKey(store, ciType, Ci(data.value, 1, def.value.version, NO_PROVENANCE), key, writes);
      assert store.records == if writes.RolledBack? then old(store.records) else old(store.records)
        [IdempotentCreate.RecordKey(ciType, key) := IdempotentCreate.Finished(old(db.nextId))];
    }

    method Update(node: Node, payload: Doc, expected: nat, partial: bool) returns (reply: Reply<nat>)
      requires Valid()
      modifies db`cis, db`audit, db`outbox
      ensures (View(), reply) == UpdateCi(old(View()), node, payload, expected, partial)
    {
      var def := TypeDoc(node.ciType);
      if def.None? || node !in db.cis {
        return Err(NotFound);
      }
      var ci := db.cis[node];
      var merged := payload;
      if partial {
        merged := ci.fields + payload;
      }
      var data := Validate(def.value.model, merged);
      if data.None? {
        return Err(ValidationFailed);
      }
      if ci.revision != expected {
        return Err(RevisionConflict);
      }
      Overwrite(node, ci.(fields := ci.fields + data.value, revision := expected + 1,
          schemaVersion := def.value.version), CiUpdated);
      reply := Ok(expected + 1);
    }

    /** Removes the item itself, its edges being gone already. */
    method Erase(node: Node, ghost s: State)
      requires Valid() && node in db.cis && s.cis == db.cis
      requires View() == RemoveEdges(s, Incident(s.edges, node))
      modifies db`cis, db`audit, db`outbox
      ensures View() == RemoveCis(s, {node})
    {
      var ci := db.cis[node];
      OneItemErased(s, node, db.audit, db.outbox);
      db.cis := db.cis - {node};
      db.Record(CiEntity(node), Audit.Delete, Some(ci.revision), Some(ci.fields), None);
      db.Emit(CiEntity(node), CiDeleted);
    }

    method Delete(node: Node, expected: Option<nat>, detach: bool) returns (reply: Reply<()>)
      requires Valid()
      modifies db`cis, db`edges, db`audit, db`outbox
      ensures (View(), reply) == DeleteCi(old(View()), node, expected, detach)
    {
      ghost var s := View();
      var def := TypeDoc(node.ciType);
      if def.None? || node !in db.cis {
        return Err(NotFound);
      }
      if expected.Some? && db.cis[node].revision != expected.value {
        return Err(RevisionConflict);
      }
      var count := guard.CountEdges(node);
      if count > 0 {
        if !detach {
          assert Incident(s.edges, node) != {};
          return Err(HasRelationships);
        }
        var _ := guard.DetachCi(node);
      } else {
        Batches.NoEdgeToRemove(s);
      }
      Erase(node, s);
      reply := Ok(());
    }

    /** Upserts a discovered item; the tag it is looked up by is borne by at most one item. */
    method ApplyDiscovery(ciType: string, data: Doc, source: string, extId: string, runId: string)
      returns (reply: Reply<(nat, Upsert)>)
      requires Valid() && TagsUnique(View())
      modifies db`cis, db`nextId, db`audit, db`outbox
      ensures (View(), reply) == Inventory.ApplyDiscovery(old(View()), ciType, data, source, extId, runId)
    {
      var def := TypeDoc(ciType);
      if def.None? {
        return Err(NotFound);
      }
      var matching := set n | n in db.cis && n.ciType == ciType && db.cis[n].prov.source ==
          Some(source) && db.cis[n].prov.extId == Some(extId);
      if matching == {} {
        NoneTagged(View(), ciType, source, extId, matching);
        var valid := Validate(def.value.model, data);
        if valid.None? {
          return Err(ValidationFailed);
        }
        var id := Insert(ciType, Ci(valid.value, 1, def.value.version, Seen(NO_PROVENANCE, source, extId, runId)));
        return Ok((id, Created));
      }
      var node :| node in matching;
      OneTagged(View(), ciType, source, extId, node);
      reply := Reapply(def.value, node, data, source, extId, runId);
    }

    /** Refreshes the provenance of an item, writing neither audit record nor event. */
    method SetProvenance(node: Node, prov: Provenance)
      requires Valid() && node in db.cis
      modifies db`cis
      ensures View() == old(View()).(cis := old(db.cis)[node := old(db.cis)[node].(prov := prov)])
    {
      db.cis := db.cis[node := db.cis[node].(prov := prov)];
    }

    /** Stores what the two normal forms call for. */
    method StoreRefresh(node: Node, merged: Option<Doc>, current: Option<Doc>, version: nat, seen: Provenance)
      returns (reply: Reply<Upsert>)
      requires Valid() && node in db.cis
      modifies db`cis, db`audit, db`outbox
      ensures var (s', r) := RefreshWith(old(View()), node, merged, current, version, seen); View() == s' && reply == r
    {
      var ci := db.cis[node];
      if merged.None? || current.None? {
        return Err(ValidationFailed);
      }
      if merged == current {
        SetProvenance(node, seen);
        return Ok(Unchanged);
      }
      Overwrite(node, Ci(ci.fields + merged.value, ci.revision + 1, version, seen), CiUpdated);
      reply := Ok(Updated);
    }

    /** The update half of the upsert. */
    method Reapply(def: TypeDef, node: Node, data: Doc, source: string, extId: string,
                   runId: string) returns (reply: Reply<(nat, Upsert)>)
      requires Valid() && node in db.cis
      modifies db`cis, db`audit, db`outbox
      ensures var (s', r) := Refresh(old(View()), def, node, data, source, extId, runId);
        View() == s' && reply == match r case Ok(action) => Ok((node.oid, action)) case Err(error) => Err(error)
    {
      var ci := db.cis[node];
      var seen := Seen(ci.prov, source, extId, runId);
      var validated := Validate(def.model, ci.fields + data);
      var existing := Validate(def.model, ci.fields);
      var stored := StoreRefresh(node, validated, existing, def.version, seen);
      if stored.Err? {
        return Err(stored.error);
      }
      reply := Ok((node.oid, stored.value));
    }

    /** Maps the external id of each item of a type the source owns to the item. */
    method IterSource(ciType: string, source: string) returns (out: map<string, nat>)
      requires Valid() && TagsUnique(View())
      ensures ListsSource(View(), ciType, source, out)
    {
      out := map[];
      var docs := Scan(set n | n in db.cis && n.ciType == ciType && db.cis[n].prov.source == Some(source));
      for i := 0 to |docs|
        invariant forall extId | extId in out :: Tagged(View(), Node(ciType, out[extId]), ciType, source, extId)
        invariant forall n, extId | n in docs[..i] && Tagged(View(), n, ciType, source, extId) :: extId in out
      {
        var n := docs[i];
        assert n in docs && docs[..i + 1] == docs[..i] + [n];
        var extId := db.cis[n].prov.extId;
        if extId.Some? {
          out := out[extId.value := n.oid];
          assert Tagged(View(), Node(ciType, n.oid), ciType, source, extId.value);
        }
      }
      assert docs[..|docs|] == docs;
    }

    method MarkMissing(node: Node, runId: string)
      requires Valid()
      modifies db`cis, db`audit, db`outbox
      ensures View() == Inventory.MarkMissing(old(View()), node, runId)
    {
      if node !in db.cis {
        return;
      }
      Overwrite(node, MarkedMissing(db.cis[node], runId), CiMissing);
    }
  }

  /** `out` has exactly the external ids of the source's items of this type, each with an item that bears it. */
  ghost predicate ListsSource(s: State, ciType: string, source: string, out: map<string, nat>) {
    && (forall n, extId | Tagged(s, n, ciType, source, extId) :: extId in out)
    && (forall extId | extId in out :: Tagged(s, Node(ciType, out[extId]), ciType, source, extId))
  }

  lemma NoneTagged(s: State, ciType: string, source: string, extId: string, matching: set<Node>)
    requires matching == {}
    requires matching == set n | n in s.cis && n.ciType == ciType && s.cis[n].prov.source ==
        Some(source) && s.cis[n].prov.extId == Some(extId)
    ensures FindTagged(s, ciType, source, extId) == None
  {
    FindTaggedSound(s, ciType, source, extId);
    forall n
      ensures !Tagged(s, n, ciType, source, extId)
    {
      assert n !in matching;
    }
  }

  lemma OneTagged(s: State, ciType: string, source: string, extId: string, node: Node)
    requires TagsUnique(s) && Tagged(s, node, ciType, source, extId)
    ensures FindTagged(s, ciType, source, extId) == Some(node)
  {
    FindTaggedSound(s, ciType, source, extId);
  }

  /** Erasing one detached item is what `RemoveCis` does to it. */
  lemma OneItemErased(s: State, node: Node, audit: map<Entity, seq<Audit.Entry>>, outbox: map<Entity, seq<Event>>)
    requires node in s.cis
    requires audit == RemoveEdges(s, Incident(s.edges, node)).audit
    requires outbox == RemoveEdges(s, Incident(s.edges, node)).outbox
    ensures Incident(s.edges, node) == IncidentToAny(s.edges, {node})
    ensures RemoveCis(s, {node}).audit == Log(audit, CiEntity(node), CiDeletion(s.cis[node]))
    ensures RemoveCis(s, {node}).outbox == Log(outbox, CiEntity(node), CiDeleted)
  {
    assert Incident(s.edges, node) == IncidentToAny(s.edges, {node});
    Batches.LogOneDeletion(audit, s.cis, node);
    Batches.LogOneEvent(outbox, CiEntity(node), CiDeleted);
  }
}
