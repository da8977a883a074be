/**
 The stored inventory as one value, and what each repository call does to it as one atomic step:
 configuration items, relationship types, relationship edges, their audit trail and their outbox events.
 */
module Inventory {
  import opened Prelude
  import opened Walks
  import opened Schema
  import opened Audit

  // ------------------------------------------------------------ entities

  datatype Cardinality = OneToOne | OneToMany | ManyToOne | ManyToMany

  /** A relationship contract. `"*"` among the types allows every type. */
  datatype RelDef = RelDef(
    name: string,
    fromTypes: seq<string>,
    toTypes: seq<string>,
    cardinality: Cardinality,
    dependency: bool,
    allowSelf: bool)

  datatype RelType = RelType(def: RelDef, active: bool)

  datatype Edge = Edge(
    relType: string,
    dependency: bool,
    from: Node,
    to: Node,
    attributes: Doc,
    revision: nat,
    source: Option<string>,
    runId: Option<string>)

  datatype Presence = Present | Missing

  datatype Provenance = Provenance(
    source: Option<string>,
    extId: Option<string>,
    runId: Option<string>,
    status: Option<Presence>,
    missingRun: Option<string>)

  const NO_PROVENANCE := Provenance(None, None, None, None, None)

  datatype Ci = Ci(fields: Doc, revision: nat, schemaVersion: nat, prov: Provenance)

  datatype TypeDef = TypeDef(model: Model, version: nat)

  datatype Entity = CiEntity(node: Node) | EdgeEntity(relType: string, id: nat)

  datatype Event = CiCreated | CiUpdated | CiDeleted | CiMissing | EdgeCreated | EdgeDeleted

  datatype Error =
    | NotFound
    | BadRequest
    | ValidationFailed
    | AlreadyExists
    | RevisionConflict
    | HasRelationships
    | CardinalityViolation
    | DependencyCycle
    | DuplicateEdge
    | IdempotencyInProgress
    | WriteFailed

  datatype Reply<+T> = Ok(value: T) | Err(error: Error)

  /** The collections. Audit records and outbox events are kept per entity, in the order they were written. */
  datatype State = State(
    types: map<string, TypeDef>,
    relTypes: map<string, RelType>,
    relCache: map<string, Option<RelDef>>,
    cis: map<Node, Ci>,
    edges: map<nat, Edge>,
    nextId: nat,
    audit: map<Entity, seq<Entry>>,
    outbox: map<Entity, seq<Event>>)

  // ------------------------------------------------------------ small helpers

  function LowerChar(c: char): char {
    if 'A' <= c <= 'Z' then ((c as int) + 32) as char else c
  }

  function Lower(s: string): string {
    seq(|s|, i requires 0 <= i < |s| => LowerChar(s[i]))
  }

  function At<T>(m: map<Entity, seq<T>>, e: Entity): seq<T> {
    if e in m then m[e] else []
  }

  function Log<T>(m: map<Entity, seq<T>>, e: Entity, x: T): map<Entity, seq<T>> {
    m[e := At(m, e) + [x]]
  }

  /** Appends one event to each of several entities. */
  function LogEvent(outbox: map<Entity, seq<Event>>, entities: set<Entity>, event: Event): map<Entity, seq<Event>> {
    map e | e in outbox.Keys + entities :: if e in entities then At(outbox, e) + [event] else outbox[e]
  }

  predicate Allows(allowed: seq<string>, ciType: string) {
    "*" in allowed || ciType in allowed
  }

  predicate SourceLimited(c: Cardinality) {
    c.OneToOne? || c.ManyToOne?
  }

  predicate TargetLimited(c: Cardinality) {
    c.OneToOne? || c.OneToMany?
  }

  /** The arcs a dependency traversal follows, from the depending item to the one it depends on. */
  function DependencyArcs(edges: map<nat, Edge>): Arcs {
    set id | id in edges && edges[id].dependency :: (edges[id].from, edges[id].to)
  }

  predicate Touches(e: Edge, n: Node) {
    e.from == n || e.to == n
  }

  function Incident(edges: map<nat, Edge>, n: Node): set<nat> {
    set id | id in edges && Touches(edges[id], n)
  }

  // ------------------------------------------------------------ relationship types

  /** What a worker's registry answers for a name: its cached answer if it holds one, else the active contract. */
  function Resolve(s: State, name: string): Option<RelDef> {
    if name in s.relCache then s.relCache[name]
    else if name in s.relTypes && s.relTypes[name].active then Some(s.relTypes[name].def)
    else None
  }

  function Remember(s: State, name: string): State {
    s.(relCache := s.relCache[name := Resolve(s, name)])
  }

  function CreateRelType(s: State, def: RelDef): (State, Reply<()>) {
    if def.name in s.relTypes then (s, Err(AlreadyExists))
    else (s.(relTypes := s.relTypes[def.name := RelType(def, true)], relCache := s.relCache - {def.name}), Ok(()))
  }

  function DeactivateRelType(s: State, name: string): (State, Reply<()>) {
    var key := Lower(name);
    if key !in s.relTypes || !s.relTypes[key].active then (s, Err(NotFound))
    else (s.(relTypes := s.relTypes[key := s.relTypes[key].(active := false)], relCache := s.relCache - {name}), Ok(()))
  }

  // ------------------------------------------------------------ edges

  datatype EdgeRequest = EdgeRequest(
    relType: string,
    fromType: string,
    fromId: nat,
    toType: string,
    toId: nat,
    attributes: Doc,
    source: Option<string>,
    runId: Option<string>)
  {
    function From(): Node { Node(Lower(fromType), fromId) }
    function To(): Node { Node(Lower(toType), toId) }
  }

  predicate CardinalityBlocks(edges: map<nat, Edge>, def: RelDef, f: Node, t: Node) {
    || (SourceLimited(def.cardinality) &&
        exists id | id in edges :: edges[id].relType == def.name && edges[id].from == f)
    || (TargetLimited(def.cardinality) &&
        exists id | id in edges :: edges[id].relType == def.name && edges[id].to == t)
  }

  predicate SameEdge(e: Edge, relType: string, f: Node, t: Node) {
    e.relType == relType && e.from == f && e.to == t
  }

  predicate HasEdge(edges: map<nat, Edge>, relType: string, f: Node, t: Node) {
    exists id | id in edges :: SameEdge(edges[id], relType, f, t)
  }

  /** The gates of edge creation in their order: `None` lets the edge in. */
  ghost function Verdict(s: State, req: EdgeRequest, depth: nat): Option<Error> {
    var answer := Resolve(s, Lower(req.relType));
    var f, t := req.From(), req.To();
    if answer.None? then Some(NotFound)
    else
      var def := answer.value;
      if !Allows(def.fromTypes, f.ciType) || !Allows(def.toTypes, t.ciType) then Some(BadRequest)
      else if f == t && !def.allowSelf then Some(BadRequest)
      else if f !in s.cis || t !in s.cis then Some(NotFound)
      else if CardinalityBlocks(s.edges, def, f, t) then Some(CardinalityViolation)
      else if def.dependency && f != t && Within(DependencyArcs(s.edges), t, f, depth) then Some(DependencyCycle)
      else if HasEdge(s.edges, def.name, f, t) then Some(DuplicateEdge)
      else None
  }

  function NewEdge(def: RelDef, req: EdgeRequest): Edge {
    Edge(def.name, def.dependency, req.From(), req.To(), req.attributes, 1, req.source, req.runId)
  }

  /** What an edge record holds when it is serialised. */
  function EdgeDoc(e: Edge): Doc {
    e.attributes
  }

  function InsertEdge(s: State, e: Edge): State {
    var entity := EdgeEntity(e.relType, s.nextId);
    s.(edges := s.edges[s.nextId := e],
       nextId := s.nextId + 1,
       audit := Log(s.audit, entity, Entry(Create, None, None, Some(EdgeDoc(e)), map[])),
       outbox := Log(s.outbox, entity, EdgeCreated))
  }

  ghost function CreateEdge(s: State, req: EdgeRequest, depth: nat): (State, Reply<nat>) {
    var looked := Remember(s, Lower(req.relType));
    var verdict := Verdict(s, req, depth);
    if verdict.Some? then (looked, Err(verdict.value))
    else (InsertEdge(looked, NewEdge(Resolve(s, Lower(req.relType)).value, req)), Ok(s.nextId))
  }

  function EdgeEntityOf(edges: map<nat, Edge>, id: nat): Entity
    requires id in edges
  {
    EdgeEntity(edges[id].relType, id)
  }

  function EdgeDeletion(e: Edge): Entry {
    Entry(Delete, None, Some(EdgeDoc(e)), None, map[])
  }

  function EdgeEntities(edges: map<nat, Edge>, ids: set<nat>): set<Entity> {
    set id | id in ids && id in edges :: EdgeEntityOf(edges, id)
  }

  /** Appends the deletion record of each of several edges. */
  function LogEdgeDeletions(audit: map<Entity, seq<Entry>>, edges: map<nat, Edge>,
                            ids: set<nat>): map<Entity, seq<Entry>> {
    var entities := EdgeEntities(edges, ids);
    map e | e in audit.Keys + entities ::
      if e in entities && e.EdgeEntity? && e.id in edges then At(audit, e) + [EdgeDeletion(edges[e.id])] else audit[e]
  }

  /** Removes edges, each with its audit record and its event. */
  function RemoveEdges(s: State, ids: set<nat>): State {
    s.(edges := s.edges - ids,
       audit := LogEdgeDeletions(s.audit, s.edges, ids),
       outbox := LogEvent(s.outbox, EdgeEntities(s.edges, ids), EdgeDeleted))
  }

  function DeleteEdge(s: State, id: nat, expected: Option<nat>): (State, Reply<()>) {
    if id !in s.edges then (s, Err(NotFound))
    else if expected.Some? && s.edges[id].revision != expected.value then (s, Err(RevisionConflict))
    else (RemoveEdges(s, {id}), Ok(()))
  }

  // ------------------------------------------------------------ configuration items

  function FindType(s: State, name: string): Option<TypeDef> {
    if Lower(name) in s.types then Some(s.types[Lower(name)]) else None
  }

  function InsertCi(s: State, ciType: string, ci: Ci): State {
    var node := Node(ciType, s.nextId);
    s.(cis := s.cis[node := ci],
       nextId := s.nextId + 1,
       audit := Log(s.audit, CiEntity(node), Entry(Create, Some(ci.revision), None, Some(ci.fields), map[])),
       outbox := Log(s.outbox, CiEntity(node), CiCreated))
  }

  /** Replaces a stored item, recording the field diff. */
  function ReplaceCi(s: State, node: Node, ci: Ci, event: Event): State
    requires node in s.cis
  {
    var before := s.cis[node].fields;
    s.(cis := s.cis[node := ci],
       audit := Log(s.audit, CiEntity(node),
           Entry(Update, Some(ci.revision), Some(before), Some(ci.fields), Diff(before, ci.fields))),
       outbox := Log(s.outbox, CiEntity(node), event))
  }

  function CreateCi(s: State, ciType: string, payload: Doc): (State, Reply<nat>) {
    var def := FindType(s, ciType);
    if def.None? then (s, Err(NotFound))
    else
      var data := Validate(def.value.model, payload);
      if data.None? then (s, Err(ValidationFailed))
      else (InsertCi(s, ciType, Ci(data.value, 1, def.value.version, NO_PROVENANCE)), Ok(s.nextId))
  }

  /** PUT and PATCH, read and compare-and-swap taken together. `$set` keeps fields the new data lacks. */
  function UpdateCi(s: State, node: Node, payload: Doc, expected: nat, partial: bool): (State, Reply<nat>) {
    var def := FindType(s, node.ciType);
    if def.None? || node !in s.cis then (s, Err(NotFound))
    else
      var ci := s.cis[node];
      var data := Validate(def.value.model, if partial then ci.fields + payload else payload);
      if data.None? then (s, Err(ValidationFailed))
      else if ci.revision != expected then (s, Err(RevisionConflict))
      else
        var updated := ci.(fields := ci.fields + data.value, revision := ci.revision + 1,
                           schemaVersion := def.value.version);
        (ReplaceCi(s, node, updated, CiUpdated), Ok(updated.revision))
  }

  function CiDeletion(ci: Ci): Entry {
    Entry(Delete, Some(ci.revision), Some(ci.fields), None, map[])
  }

  function CiEntities(cis: map<Node, Ci>, nodes: set<Node>): set<Entity> {
    set n | n in nodes && n in cis :: CiEntity(n)
  }

  /** Appends the deletion record of each of several items. */
  function LogCiDeletions(audit: map<Entity, seq<Entry>>, cis: map<Node, Ci>,
                          nodes: set<Node>): map<Entity, seq<Entry>> {
    var entities := CiEntities(cis, nodes);
    map e | e in audit.Keys + entities ::
      if e in entities && e.CiEntity? && e.node in cis then At(audit, e) + [CiDeletion(cis[e.node])] else audit[e]
  }

  function IncidentToAny(edges: map<nat, Edge>, nodes: set<Node>): set<nat> {
    set id | id in edges && (edges[id].from in nodes || edges[id].to in nodes)
  }

  /** Removes items together with every edge that touches one of them. */
  function RemoveCis(s: State, nodes: set<Node>): State {
    var detached := RemoveEdges(s, IncidentToAny(s.edges, nodes));
    detached.(
      cis := detached.cis - nodes,
      audit := LogCiDeletions(detached.audit, s.cis, nodes),
      outbox := LogEvent(detached.outbox, CiEntities(s.cis, nodes), CiDeleted))
  }

  function DeleteCi(s: State, node: Node, expected: Option<nat>, detach: bool): (State, Reply<()>) {
    if FindType(s, node.ciType).None? || node !in s.cis then (s, Err(NotFound))
    else if expected.Some? && s.cis[node].revision != expected.value then (s, Err(RevisionConflict))
    else if Incident(s.edges, node) != {} && !detach then (s, Err(HasRelationships))
    else (RemoveCis(s, {node}), Ok(()))
  }

  // ------------------------------------------------------------ discovery

  predicate Owned(ci: Ci, source: string) {
    ci.prov.source == Some(source)
  }

  predicate Tagged(s: State, node: Node, ciType: string, source: string, extId: string) {
    && node in s.cis
    && node.ciType == ciType
    && Owned(s.cis[node], source)
    && s.cis[node].prov.extId == Some(extId)
  }

  ghost function FindTagged(s: State, ciType: string, source: string, extId: string): Option<Node> {
    if exists n :: Tagged(s, n, ciType, source, extId)
    then
      var n :| Tagged(s, n, ciType, source, extId);
      Some(n)
    else None
  }

  datatype Upsert = Created | Updated | Unchanged

  function Seen(p: Provenance, source: string, extId: string, runId: string): Provenance {
    p.(source := Some(source), extId := Some(extId), runId := Some(runId), status := Some(Present))
  }

  /** The update half of the upsert, given the normal forms of the overlaid and of the stored fields. */
  function RefreshWith(s: State, node: Node, merged: Option<Doc>, current: Option<Doc>, version: nat, seen: Provenance)
    : (State, Reply<Upsert>)
    requires node in s.cis
  {
    var ci := s.cis[node];
    if merged.None? || current.None? then (s, Err(ValidationFailed))
    else if merged == current then (s.(cis := s.cis[node := ci.(prov := seen)]), Ok(Unchanged))
    else (ReplaceCi(s, node, Ci(ci.fields + merged.value, ci.revision + 1, version, seen), CiUpdated), Ok(Updated))
  }

  function Refresh(s: State, def: TypeDef, node: Node, data: Doc, source: string, extId: string,
                   runId: string): (State, Reply<Upsert>)
    requires node in s.cis
  {
    var ci := s.cis[node];
    RefreshWith(s, node, Validate(def.model, ci.fields + data), Validate(def.model, ci.fields), def.version,
                Seen(ci.prov, source, extId, runId))
  }

  /** Upserts a discovered item by type, source and external id. */
  ghost function ApplyDiscovery(s: State, ciType: string, data: Doc, source: string, extId: string, runId: string)
    : (State, Reply<(nat, Upsert)>)
  {
    var def := FindType(s, ciType);
    var found := FindTagged(s, ciType, source, extId);
    if def.None? then (s, Err(NotFound))
    else if found.None? then
      var data' := Validate(def.value.model, data);
      if data'.None? then (s, Err(ValidationFailed))
      else
        var ci := Ci(data'.value, 1, def.value.version, Seen(NO_PROVENANCE, source, extId, runId));
        (InsertCi(s, ciType, ci), Ok((s.nextId, Created)))
    else
      var (s', reply) := Refresh(s, def.value, found.value, data, source, extId, runId);
      match reply
      case Ok(action) => (s', Ok((found.value.oid, action)))
      case Err(error) => (s', Err(error))
  }

  function MarkedMissing(ci: Ci, runId: string): Ci {
    ci.(revision := ci.revision + 1, prov := ci.prov.(status := Some(Missing), missingRun := Some(runId)))
  }

  function MissingUpdate(ci: Ci): Entry {
    Entry(Update, Some(ci.revision + 1), Some(ci.fields), Some(ci.fields), Diff(ci.fields, ci.fields))
  }

  /** Appends the update record of each of several items flagged as missing. */
  function LogFlags(audit: map<Entity, seq<Entry>>, cis: map<Node, Ci>,
                    entities: set<Entity>): map<Entity, seq<Entry>> {
    map e | e in audit.Keys + entities ::
      if e in entities then At(audit, e) + (if e.CiEntity? && e.node in cis then [MissingUpdate(cis[e.node])] else [])
      else audit[e]
  }

  /** Flags several items at once. */
  function MarkAllMissing(s: State, nodes: set<Node>, runId: string): State {
    var entities := CiEntities(s.cis, nodes);
    s.(cis := map n | n in s.cis :: if n in nodes then MarkedMissing(s.cis[n], runId) else s.cis[n],
       audit := LogFlags(s.audit, s.cis, entities),
       outbox := LogEvent(s.outbox, entities, CiMissing))
  }

  function MarkMissing(s: State, node: Node, runId: string): State {
    if node !in s.cis then s else ReplaceCi(s, node, MarkedMissing(s.cis[node], runId), CiMissing)
  }
}
