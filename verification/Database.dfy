/** The mutable collections behind the repositories, with their audit log and outbox. */
module Database {
  import opened Prelude
  import opened Walks
  import opened Schema
  import opened Inventory
  import Audit

  class Collections {
    var types: map<string, TypeDef>
    var relTypes: map<string, RelType>
    var cis: map<Node, Ci>
    var edges: map<nat, Edge>
    var nextId: nat
    var audit: map<Entity, seq<Audit.Entry>>
    var outbox: map<Entity, seq<Event>>

    constructor ()
      ensures View(map[]) == State(map[], map[], map[], map[], map[], 0, map[], map[])
    {
      types, relTypes, cis, edges, nextId := map[], map[], map[], map[], 0;
      audit, outbox := map[], map[];
    }

    /** The collections as one value, beside what a worker's relationship registry has cached. */
    ghost function View(cache: map<string, Option<RelDef>>): State
      reads this
    {
      State(types, relTypes, cache, cis, edges, nextId, audit, outbox)
    }

    /** Appends an audit record; only updates carry a diff. */
    method Record(entity: Entity, action: Audit.Action, revision: Option<nat>, before: Option<Doc>, after: Option<Doc>)
      modifies this`audit
      ensures audit == Log(old(audit), entity,
                         Audit.Entry(action, revision, before, after,
                           if action == Audit.Update then Audit.Diff(OrEmpty(before), OrEmpty(after)) else map[]))
    {
      var changes: Audit.Changes := map[];
      if action == Audit.Update {
        changes := Audit.ComputeDiff(OrEmpty(before), OrEmpty(after));
      }
      audit := audit[entity := At(audit, entity) + [Audit.Entry(action, revision, before, after, changes)]];
    }

    /** Enqueues an outbox event. */
    method Emit(entity: Entity, event: Event)
      modifies this`outbox
      ensures outbox == Log(old(outbox), entity, event)
    {
      outbox := outbox[entity := At(outbox, entity) + [event]];
    }
  }

  function OrEmpty(d: Option<Doc>): Doc {
    if d.Some? then d.value else map[]
  }

  /** Reads a set of documents through a cursor, in whatever order the store returns them. */
  method Scan<T>(wanted: set<T>) returns (docs: seq<T>)
    ensures Distinct(docs)
    ensures forall x :: x in docs <==> x in wanted
    ensures |docs| == |wanted|
  {
    docs := [];
    var rest := wanted;
    while rest != {}
      invariant rest <= wanted
      invariant Distinct(docs)
      invariant forall x :: x in docs <==> x in wanted && x !in rest
      invariant |docs| + |rest| == |wanted|
      decreases |rest|
    {
      var x :| x in rest;
      docs := docs + [x];
      rest := rest - {x};
    }
  }
}
