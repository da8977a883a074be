/** The relationship registry and the edge repository, with the bounded breadth-first search. */
module GraphRepository {
  import opened Prelude
  import opened Walks
  import opened Schema
  import opened Inventory
  import opened Database
  import Audit
  import DependencyDag

  // ------------------------------------------------------------ search

  function Near(e: Edge, outward: bool): Node {
    if outward then e.from else e.to
  }

  function Far(e: Edge, outward: bool): Node {
    if outward then e.to else e.from
  }

  predicate Followed(e: Edge, dependencyOnly: bool) {
    dependencyOnly ==> e.dependency
  }

  /** The arcs a search follows, from the near to the far end of each edge. */
  function SearchArcs(edges: map<nat, Edge>, outward: bool, dependencyOnly: bool): Arcs {
    set id | id in edges && Followed(edges[id], dependencyOnly) :: (Near(edges[id], outward), Far(edges[id], outward))
  }

  /** `n` belongs in the answer of a search: another node than the start, at most `depth` arcs away. */
  ghost predicate Reported(arcs: Arcs, start: Node, n: Node, depth: nat) {
    n != start && Within(arcs, start, n, depth)
  }

  /** An edge belongs in the answer: it is followed and its near end lies closer than `depth`. */
  ghost predicate Traversed(edges: map<nat, Edge>, outward: bool, dependencyOnly: bool, start: Node, id: nat,
                            depth: nat) {
    && id in edges
    && Followed(edges[id], dependencyOnly)
    && depth > 0
    && Within(SearchArcs(edges, outward, dependencyOnly), start, Near(edges[id], outward), depth - 1)
  }

  lemma ReportedHasDistance(arcs: Arcs, start: Node, n: Node, depth: nat)
    ensures Reported(arcs, start, n, depth) <==> exists d: nat :: 1 <= d <= depth && AtDistance(arcs, start, n, d)
  {
    WithinSelf(arcs, start, 0);
    if Reported(arcs, start, n, depth) {
      WithinHasDistance(arcs, start, n, depth);
      var d: nat :| d <= depth && AtDistance(arcs, start, n, d);
      WithinZero(arcs, start, n);
    }
    forall d: nat | 1 <= d <= depth && AtDistance(arcs, start, n, d)
      ensures Reported(arcs, start, n, depth)
    {
      WithinMonotone(arcs, arcs, start, n, d, depth);
      WithinSelf(arcs, start, d - 1);
    }
  }

  lemma DependencyArcsAreSearchArcs(edges: map<nat, Edge>)
    ensures SearchArcs(edges, true, true) == DependencyArcs(edges)
    ensures SearchArcs(edges, false, true) == Reversed(DependencyArcs(edges))
  {
    var back := SearchArcs(edges, false, true);
    forall id | id in edges && edges[id].dependency
      ensures (edges[id].to, edges[id].from) in Reversed(DependencyArcs(edges))
      ensures (edges[id].from, edges[id].to) in SearchArcs(edges, true, true)
      ensures (edges[id].to, edges[id].from) in back
    {
      assert Followed(edges[id], true);
      assert (Near(edges[id], true), Far(edges[id], true)) in SearchArcs(edges, true, true);
      assert (Near(edges[id], false), Far(edges[id], false)) in back;
      assert (edges[id].from, edges[id].to) in DependencyArcs(edges);
    }
  }

  /**
   `dependencies` and `impact` are inverse: `y` is among what `x` depends on exactly when `x` is in the impact of `y`.
   */
  lemma DependenciesAndImpactAreInverse(edges: map<nat, Edge>, x: Node, y: Node, depth: nat)
    ensures Reported(SearchArcs(edges, true, true), x, y, depth) <==>
      Reported(SearchArcs(edges, false, true), y, x, depth)
  {
    DependencyArcsAreSearchArcs(edges);
    WithinReversed(DependencyArcs(edges), x, y, depth);
  }

  /** A search that was not cut off has reported everything reachable except its start. */
  lemma UntruncatedSearchIsComplete(arcs: Arcs, start: Node, n: Node, depth: nat)
    requires !DependencyDag.Truncated(arcs, start, depth)
    ensures Reported(arcs, start, n, depth) <==> n != start && Reachable(arcs, start, n)
  {
    EmptyLayerMeansAll(arcs, start, n, depth);
  }

  /** The state of the search between two levels. */
  ghost predicate Searched(edges: map<nat, Edge>, outward: bool, dependencyOnly: bool, start: Node, level: nat,
                           visited: set<Node>, frontier: seq<Node>, nodes: seq<Node>, found: seq<nat>)
  {
    var arcs := SearchArcs(edges, outward, dependencyOnly);
    && (forall n :: n in visited <==> Within(arcs, start, n, level))
    && (forall n :: n in frontier <==> AtDistance(arcs, start, n, level))
    && Distinct(nodes) && (forall n :: n in nodes <==> n in visited && n != start)
    && Distinct(found) && (forall id :: id in found <==> Traversed(edges, outward, dependencyOnly, start, id, level))
  }

  /** Expanding the whole frontier moves the visited set from one radius to the next. */
  lemma NextLevel(edges: map<nat, Edge>, outward: bool, dependencyOnly: bool, start: Node, level: nat,
                  visited: set<Node>, frontier: seq<Node>, docs: seq<nat>, visited': set<Node>)
    requires forall n :: n in visited <==> Within(SearchArcs(edges, outward, dependencyOnly), start, n, level)
    requires forall n :: n in frontier <==> AtDistance(SearchArcs(edges, outward, dependencyOnly), start, n, level)
    requires forall id :: id in docs <==>
      id in edges && Followed(edges[id], dependencyOnly) && Near(edges[id], outward) in frontier
    requires visited' == visited + set id | id in docs && id in edges :: Far(edges[id], outward)
    ensures forall n :: n in visited' <==> Within(SearchArcs(edges, outward, dependencyOnly), start, n, level + 1)
  {
    var arcs := SearchArcs(edges, outward, dependencyOnly);
    forall n
      ensures n in visited' <==> Within(arcs, start, n, level + 1)
    {
      LayerStep(arcs, start, n, level);
      if n in visited' && n !in visited {
        var id :| id in docs && id in edges && n == Far(edges[id], outward);
        assert (Near(edges[id], outward), n) in arcs;
      }
      if Within(arcs, start, n, level + 1) && n !in visited {
        var m :| AtDistance(arcs, start, m, level) && (m, n) in arcs;
        var id :| id in edges && Followed(edges[id], dependencyOnly) && (m, n) ==
            (Near(edges[id], outward), Far(edges[id], outward));
        assert id in docs;
      }
    }
  }

  /** The edges fetched at one level are the ones not traversed at an earlier one. */
  lemma NextEdges(edges: map<nat, Edge>, outward: bool, dependencyOnly: bool, start: Node, level: nat,
                  frontier: seq<Node>, id: nat)
    requires forall n :: n in frontier <==> AtDistance(SearchArcs(edges, outward, dependencyOnly), start, n, level)
    ensures Traversed(edges, outward, dependencyOnly, start, id, level + 1) <==>
              || Traversed(edges, outward, dependencyOnly, start, id, level)
              || (id in edges && Followed(edges[id], dependencyOnly) && Near(edges[id], outward) in frontier)
    ensures id in edges && Near(edges[id], outward) in frontier ==>
      !Traversed(edges, outward, dependencyOnly, start, id, level)
  {
    if id in edges && level > 0 && Traversed(edges, outward, dependencyOnly, start, id, level) {
      WithinMonotone(SearchArcs(edges, outward, dependencyOnly), SearchArcs(edges, outward, dependencyOnly), start,
                     Near(edges[id], outward), level - 1, level);
    }
  }

  // ------------------------------------------------------------ registry

  class RelationshipRegistry {
    const db: Collections
    var cache: map<string, Option<RelDef>>

    constructor (db: Collections)
      ensures this.db == db && cache == map[]
    {
      this.db := db;
      cache := map[];
    }

    ghost function View(): State
      reads this, db
    {
      db.View(cache)
    }

    method Invalidate(name: string)
      modifies this`cache
      ensures cache == old(cache) - {name}
    {
      cache := cache - {name};
    }

    /** Cached read of the active contract; also remembers that there is none. */
    method GetType(name: string) returns (def: Option<RelDef>)
      modifies this`cache
      ensures def == Resolve(old(View()), Lower(name))
      ensures View() == Remember(old(View()), Lower(name))
    {
      var key := Lower(name);
      if key in cache {
        def := cache[key];
        assert cache[key := def] == cache;
      } else {
        def := None;
        if key in db.relTypes && db.relTypes[key].active {
          def := Some(db.relTypes[key].def);
        }
        cache := cache[key := def];
      }
    }

    method CreateType(def: RelDef) returns (reply: Reply<()>)
      modifies this`cache, db`relTypes
      ensures (View(), reply) == CreateRelType(old(View()), def)
    {
      if def.name in db.relTypes {
        return Err(AlreadyExists);
      }
      db.relTypes := db.relTypes[def.name := RelType(def, true)];
      Invalidate(def.name);
      reply := Ok(());
    }

    method DeactivateType(name: string) returns (reply: Reply<()>)
      modifies this`cache, db`relTypes
      ensures (View(), reply) == DeactivateRelType(old(View()), name)
    {
      var key := Lower(name);
      if key !in db.relTypes || !db.relTypes[key].active {
        return Err(NotFound);
      }
      db.relTypes := db.relTypes[key := db.relTypes[key].(active := false)];
      Invalidate(name);
      reply := Ok(());
    }
  }

  // ------------------------------------------------------------ repository

  class RelationshipRepository {
    const db: Collections
    const registry: RelationshipRegistry
    const maxDepth: nat

    constructor (db: Collections, registry: RelationshipRegistry, maxDepth: nat)
      requires registry.db == db
      ensures this.db == db && this.registry == registry && this.maxDepth == maxDepth && Valid()
    {
      this.db, this.registry, this.maxDepth := db, registry, maxDepth;
    }

    ghost predicate Valid() {
      registry.db == db
    }

    ghost function View(): State
      reads registry, registry.db
    {
      registry.View()
    }

    /** Visits the far ends of the fetched edges, returning those not visited before in the order they turn up. */
    method Expand(docs: seq<nat>, outward: bool, before: set<Node>) returns (visited: set<Node>, next: seq<Node>)
      requires forall id | id in docs :: id in db.edges
      ensures visited == before + set id | id in docs && id in db.edges :: Far(db.edges[id], outward)
      ensures Distinct(next) && forall n :: n in next <==> n in visited && n !in before
    {
      visited, next := before, [];
      for i := 0 to |docs|
        invariant visited == before + set id | id in docs[..i] && id in db.edges :: Far(db.edges[id], outward)
        invariant Distinct(next) && forall n :: n in next <==> n in visited && n !in before
      {
        assert docs[..i + 1] == docs[..i] + [docs[i]];
        assert docs[i] in docs;
        var n := Far(db.edges[docs[i]], outward);
        if n !in visited {
          visited := visited + {n};
          next := next + [n];
        }
      }
      assert docs[..|docs|] == docs;
    }

    /** Fetches the edges leaving the frontier and moves on to the nodes they newly reach. */
    method NextQuery(start: Node, outward: bool, dependencyOnly: bool, ghost level: nat,
                     visited: set<Node>, frontier: seq<Node>, nodes: seq<Node>, found: seq<nat>)
      returns (visited': set<Node>, next: seq<Node>, nodes': seq<Node>, found': seq<nat>)
      requires Searched(db.edges, outward, dependencyOnly, start, level, visited, frontier, nodes, found)
      ensures Searched(db.edges, outward, dependencyOnly, start, level + 1, visited', next, nodes', found')
    {
      var docs := Scan(set id: nat | id in db.edges && Followed(db.edges[id], dependencyOnly) &&
          Near(db.edges[id], outward) in frontier);
      visited', next := Expand(docs, outward, visited);
      LevelDone(db.edges, outward, dependencyOnly, start, level, visited, frontier, nodes, found, docs, visited', next);
      nodes', found' := nodes + next, found + docs;
    }

    /**
     Depth-bounded search, one query per level.
     It reports each node other than the start within `maxDepth` arcs once and each followed edge whose near end
     is closer than `maxDepth` once. It reports truncation exactly when some node lies at distance `maxDepth`.
     */
    method Bfs(start: Node, outward: bool, dependencyOnly: bool) returns (nodes: seq<Node>, found: seq<nat>,
               truncated: bool)
      ensures Distinct(nodes)
      ensures forall n :: n in nodes <==> Reported(SearchArcs(db.edges, outward, dependencyOnly), start, n, maxDepth)
      ensures Distinct(found)
      ensures forall id :: id in found <==> Traversed(db.edges, outward, dependencyOnly, start, id, maxDepth)
      ensures truncated <==> DependencyDag.Truncated(SearchArcs(db.edges, outward, dependencyOnly), start, maxDepth)
    {
      var visited := {start};
      var frontier := [start];
      nodes, found := [], [];
      var level := 0;
      SearchStart(db.edges, outward, dependencyOnly, start);
      while level < maxDepth && frontier != []
        invariant level <= maxDepth
        invariant level == 0 ==> frontier != []
        invariant Searched(db.edges, outward, dependencyOnly, start, level, visited, frontier, nodes, found)
        decreases maxDepth - level
      {
        visited, frontier, nodes, found :=
          NextQuery(start, outward, dependencyOnly, level, visited, frontier, nodes, found);
        level := level + 1;
      }
      truncated := frontier != [];
      SearchAnswer(db.edges, outward, dependencyOnly, start, level, maxDepth, visited, frontier, nodes, found);
    }

    // ---------------------------------------------------------- create

    method CiExists(node: Node) returns (found: bool)
      ensures found == (node in db.cis)
    {
      found := node in db.cis;
    }

    method CheckCardinality(def: RelDef, f: Node, t: Node) returns (blocked: bool)
      ensures blocked == CardinalityBlocks(db.edges, def, f, t)
    {
      if def.cardinality.OneToOne? || def.cardinality.ManyToOne? {
        var matching := set id | id in db.edges && db.edges[id].relType == def.name && db.edges[id].from == f;
        if |matching| > 0 {
          var id :| id in matching;
          return true;
        }
        assert forall id | id in db.edges :: db.edges[id].relType == def.name && db.edges[id].from == f ==>
          id in matching;
      }
      if def.cardinality.OneToOne? || def.cardinality.OneToMany? {
        var matching := set id | id in db.edges && db.edges[id].relType == def.name && db.edges[id].to == t;
        if |matching| > 0 {
          var id :| id in matching;
          return true;
        }
        assert forall id | id in db.edges :: db.edges[id].relType == def.name && db.edges[id].to == t ==>
          id in matching;
      }
      blocked := false;
    }

    /** Looks for the source among what the target already depends on; a cut-off search is not noticed. */
    method CheckNoCycle(f: Node, t: Node) returns (blocked: bool)
      ensures blocked <==> f != t && Within(DependencyArcs(db.edges), t, f, maxDepth)
    {
      var nodes, _, _ := Bfs(t, true, true);
      DependencyArcsAreSearchArcs(db.edges);
      blocked := f in nodes;
    }

    /** Writes a new edge with its audit record and its event. */
    method Insert(e: Edge)
      requires Valid()
      modifies db`edges, db`nextId, db`audit, db`outbox
      ensures View() == InsertEdge(old(View()), e)
    {
      var entity := EdgeEntity(e.relType, db.nextId);
      db.edges := db.edges[db.nextId := e];
      db.nextId := db.nextId + 1;
      db.Record(entity, Audit.Create, None, None, Some(EdgeDoc(e)));
      db.Emit(entity, EdgeCreated);
    }

    method CreateEdge(req: EdgeRequest) returns (reply: Reply<nat>)
      requires Valid()
      modifies registry`cache, db`edges, db`nextId, db`audit, db`outbox
      ensures (View(), reply) == Inventory.CreateEdge(old(View()), req, maxDepth)
    {
      var answer := registry.GetType(req.relType);
      if answer.None? {
        return Err(NotFound);
      }
      var def := answer.value;
      var f, t := req.From(), req.To();
      if !Allows(def.fromTypes, f.ciType) {
        return Err(BadRequest);
      }
      if !Allows(def.toTypes, t.ciType) {
        return Err(BadRequest);
      }
      if f == t && !def.allowSelf {
        return Err(BadRequest);
      }
      var fromExists := CiExists(f);
      if !fromExists {
        return Err(NotFound);
      }
      var toExists := CiExists(t);
      if !toExists {
        return Err(NotFound);
      }
      var overfull := CheckCardinality(def, f, t);
      if overfull {
        return Err(CardinalityViolation);
      }
      if def.dependency {
        var cyclic := CheckNoCycle(f, t);
        if cyclic {
          return Err(DependencyCycle);
        }
      }
      if exists id | id in db.edges :: SameEdge(db.edges[id], def.name, f, t) {
        return Err(DuplicateEdge);
      }
      reply := Ok(db.nextId);
      Insert(Edge(def.name, def.dependency, f, t, req.attributes, 1, req.source, req.runId));
    }

    // ---------------------------------------------------------- delete

    method DeleteEdge(id: nat, expected: Option<nat>) returns (reply: Reply<()>)
      requires Valid()
      modifies db`edges, db`audit, db`outbox
      ensures (View(), reply) == Inventory.DeleteEdge(old(View()), id, expected)
    {
      if id !in db.edges {
        return Err(NotFound);
      }
      var e := db.edges[id];
      if expected.Some? && e.revision != expected.value {
        return Err(RevisionConflict);
      }
      ghost var s := View();
      NothingRecorded(s);
      db.edges := db.edges - {id};
      RecordDeletion(id, e, s, {});
      assert {} + {id} == {id};
      reply := Ok(());
    }

    method CountEdges(node: Node) returns (count: nat)
      ensures count == |Incident(db.edges, node)|
    {
      count := |set id | id in db.edges && (db.edges[id].from == node || db.edges[id].to == node)|;
      assert (set id | id in db.edges && (db.edges[id].from == node || db.edges[id].to == node)) ==
        Incident(db.edges, node);
    }

    /** Writes the audit record and the event of one removed edge. */
    method RecordDeletion(id: nat, e: Edge, ghost s: State, ghost done: set<nat>)
      requires id in s.edges && s.edges[id] == e && id !in done && Recorded(s, done, db.audit, db.outbox)
      modifies db`audit, db`outbox
      ensures Recorded(s, done + {id}, db.audit, db.outbox)
    {
      OneMoreRecorded(s, done, db.audit, db.outbox, id);
      db.Record(EdgeEntity(e.relType, id), Audit.Delete, None, Some(EdgeDoc(e)), None);
      db.Emit(EdgeEntity(e.relType, id), EdgeDeleted);
    }

    /** Records the deletion of each of several edges, one after the other. */
    method RecordDeletions(before: map<nat, Edge>, docs: seq<nat>, ghost s: State) returns (ghost done: set<nat>)
      requires before == s.edges && Distinct(docs) && forall id | id in docs :: id in before
      requires db.audit == s.audit && db.outbox == s.outbox
      modifies db`audit, db`outbox
      ensures done == (set id | id in docs) && Recorded(s, done, db.audit, db.outbox)
    {
      NothingRecorded(s);
      done := {};
      for i := 0 to |docs|
        invariant forall id :: id in done <==> id in docs[..i]
        invariant Recorded(s, done, db.audit, db.outbox)
      {
        var id := docs[i];
        assert id in docs && docs[..i + 1] == docs[..i] + [id];
        RecordDeletion(id, before[id], s, done);
        done := done + {id};
      }
      assert docs[..|docs|] == docs;
    }

    /** Removes every edge that touches an item, one audit record and one event each. */
    method DetachCi(node: Node) returns (count: nat)
      requires Valid()
      modifies db`edges, db`audit, db`outbox
      ensures View() == RemoveEdges(old(View()), Incident(old(db.edges), node))
      ensures count == |Incident(old(db.edges), node)|
    {
      ghost var s := View();
      var before := db.edges;
      var incident := Incident(before, node);
      var docs := Scan(incident);
      db.edges := db.edges - incident;
      ghost var done := RecordDeletions(before, docs, s);
      assert done == incident;
      count := |docs|;
    }

    /** Maps type and end ids of each edge a source owns to the edge. */
    method IterSourceEdges(source: string) returns (out: map<(string, nat, nat), nat>)
      ensures forall key | key in out ::
        && out[key] in db.edges
        && db.edges[out[key]].source == Some(source)
        && key == (db.edges[out[key]].relType, db.edges[out[key]].from.oid, db.edges[out[key]].to.oid)
      ensures forall id | id in db.edges && db.edges[id].source == Some(source) ::
        (db.edges[id].relType, db.edges[id].from.oid, db.edges[id].to.oid) in out
    {
      out := map[];
      var docs := Scan(set id: nat | id in db.edges && db.edges[id].source == Some(source));
      for i := 0 to |docs|
        invariant forall key | key in out ::
          && out[key] in db.edges
          && db.edges[out[key]].source == Some(source)
          && key == (db.edges[out[key]].relType, db.edges[out[key]].from.oid, db.edges[out[key]].to.oid)
        invariant forall id | id in docs[..i] && id in db.edges ::
          (db.edges[id].relType, db.edges[id].from.oid, db.edges[id].to.oid) in out
      {
        var id := docs[i];
        assert id in docs && docs[..i + 1] == docs[..i] + [id];
        var e := db.edges[id];
        out := out[(e.relType, e.from.oid, e.to.oid) := id];
      }
      assert docs[..|docs|] == docs;
    }

    // ---------------------------------------------------------- traversal

    method Dependencies(node: Node) returns (nodes: seq<Node>, found: seq<nat>, truncated: bool)
      ensures Distinct(nodes) && forall n :: n in nodes <==> Reported(DependencyArcs(db.edges), node, n, maxDepth)
      ensures Distinct(found) && forall id :: id in found <==> Traversed(db.edges, true, true, node, id, maxDepth)
      ensures truncated <==> DependencyDag.Truncated(DependencyArcs(db.edges), node, maxDepth)
      ensures !truncated ==> forall n :: n in nodes <==> n != node && Reachable(DependencyArcs(db.edges), node, n)
    {
      nodes, found, truncated := Bfs(node, true, true);
      DependencyArcsAreSearchArcs(db.edges);
      CompleteUnlessCut(DependencyArcs(db.edges), node, maxDepth);
    }

    method Impact(node: Node) returns (nodes: seq<Node>, found: seq<nat>, truncated: bool)
      ensures Distinct(nodes)
      ensures forall n :: n in nodes <==> Reported(Reversed(DependencyArcs(db.edges)), node, n, maxDepth)
      ensures Distinct(found) && forall id :: id in found <==> Traversed(db.edges, false, true, node, id, maxDepth)
      ensures truncated <==> DependencyDag.Truncated(Reversed(DependencyArcs(db.edges)), node, maxDepth)
      ensures !truncated ==> forall n :: n in nodes <==>
        n != node && Reachable(Reversed(DependencyArcs(db.edges)), node, n)
    {
      nodes, found, truncated := Bfs(node, false, true);
      DependencyArcsAreSearchArcs(db.edges);
      CompleteUnlessCut(Reversed(DependencyArcs(db.edges)), node, maxDepth);
    }
  }

  lemma CompleteUnlessCut(arcs: Arcs, start: Node, depth: nat)
    ensures !DependencyDag.Truncated(arcs, start, depth) ==>
              forall n :: Reported(arcs, start, n, depth) <==> n != start && Reachable(arcs, start, n)
  {
    if !DependencyDag.Truncated(arcs, start, depth) {
      forall n
        ensures Reported(arcs, start, n, depth) <==> n != start && Reachable(arcs, start, n)
      {
        UntruncatedSearchIsComplete(arcs, start, n, depth);
      }
    }
  }

  /** The audit log and the outbox after the removal of some edges has been recorded. */
  ghost predicate Recorded(s: State, done: set<nat>, audit: map<Entity, seq<Audit.Entry>>, outbox: map<Entity,
                           seq<Event>>) {
    && audit == LogEdgeDeletions(s.audit, s.edges, done)
    && outbox == LogEvent(s.outbox, EdgeEntities(s.edges, done), EdgeDeleted)
  }

  lemma NothingRecorded(s: State)
    ensures Recorded(s, {}, s.audit, s.outbox)
  {
    assert EdgeEntities(s.edges, {}) == {};
  }

  lemma OneMoreEntity(edges: map<nat, Edge>, done: set<nat>, id: nat)
    requires id in edges && id !in done
    ensures EdgeEntities(edges, done + {id}) == EdgeEntities(edges, done) + {EdgeEntityOf(edges, id)}
    ensures EdgeEntityOf(edges, id) !in EdgeEntities(edges, done)
  {
  }

  lemma OneMoreAudited(audit: map<Entity, seq<Audit.Entry>>, edges: map<nat, Edge>, done: set<nat>, id: nat)
    requires id in edges && id !in done
    ensures LogEdgeDeletions(audit, edges, done + {id}) ==
            Log(LogEdgeDeletions(audit, edges, done), EdgeEntityOf(edges, id), EdgeDeletion(edges[id]))
  {
    OneMoreEntity(edges, done, id);
  }

  lemma OneMoreRecorded(s: State, done: set<nat>, audit: map<Entity, seq<Audit.Entry>>, outbox: map<Entity,
                        seq<Event>>, id: nat)
    requires Recorded(s, done, audit, outbox) && id in s.edges && id !in done
    ensures var e := EdgeEntityOf(s.edges, id);
      Recorded(s, done + {id}, Log(audit, e, EdgeDeletion(s.edges[id])), Log(outbox, e, EdgeDeleted))
  {
    OneMoreEntity(s.edges, done, id);
    OneMoreAudited(s.audit, s.edges, done, id);
  }

  lemma SearchStart(edges: map<nat, Edge>, outward: bool, dependencyOnly: bool, start: Node)
    ensures Searched(edges, outward, dependencyOnly, start, 0, {start}, [start], [], [])
  {
    var arcs := SearchArcs(edges, outward, dependencyOnly);
    forall n
      ensures Within(arcs, start, n, 0) <==> n == start
    {
      WithinZero(arcs, start, n);
    }
  }

  lemma DistinctConcat<T>(a: seq<T>, b: seq<T>)
    requires Distinct(a) && Distinct(b) && forall x :: x in a ==> x !in b
    ensures Distinct(a + b)
  {
    forall i, j | 0 <= i < j < |a + b|
      ensures (a + b)[i] != (a + b)[j]
    {
      if i < |a| <= j {
        assert a[i] in a && b[j - |a|] in b;
      }
    }
  }

  /** One whole level carries the search from one radius to the next. */
  lemma LevelDone(edges: map<nat, Edge>, outward: bool, dependencyOnly: bool, start: Node, level: nat,
                  visited: set<Node>, frontier: seq<Node>, nodes: seq<Node>, found: seq<nat>,
                  docs: seq<nat>, visited': set<Node>, next: seq<Node>)
    requires Searched(edges, outward, dependencyOnly, start, level, visited, frontier, nodes, found)
    requires Distinct(docs)
    requires forall id :: id in docs <==>
      id in edges && Followed(edges[id], dependencyOnly) && Near(edges[id], outward) in frontier
    requires visited' == visited + set id | id in docs && id in edges :: Far(edges[id], outward)
    requires Distinct(next) && forall n :: n in next <==> n in visited' && n !in visited
    ensures Searched(edges, outward, dependencyOnly, start, level + 1, visited', next, nodes + next, found + docs)
  {
    var arcs := SearchArcs(edges, outward, dependencyOnly);
    NextLevel(edges, outward, dependencyOnly, start, level, visited, frontier, docs, visited');
    forall id
      ensures id in found + docs <==> Traversed(edges, outward, dependencyOnly, start, id, level + 1)
      ensures id in found ==> id !in docs
    {
      NextEdges(edges, outward, dependencyOnly, start, level, frontier, id);
    }
    WithinSelf(arcs, start, level);
    DistinctConcat(nodes, next);
    DistinctConcat(found, docs);
  }

  /** Where the search stops, at the bound or at an empty layer, its state is the answer for the bound. */
  lemma SearchAnswer(edges: map<nat, Edge>, outward: bool, dependencyOnly: bool, start: Node, level: nat, depth: nat,
                     visited: set<Node>, frontier: seq<Node>, nodes: seq<Node>, found: seq<nat>)
    requires level <= depth && (level == depth || frontier == []) && (level == 0 ==> frontier != [])
    requires Searched(edges, outward, dependencyOnly, start, level, visited, frontier, nodes, found)
    ensures forall n :: n in nodes <==> Reported(SearchArcs(edges, outward, dependencyOnly), start, n, depth)
    ensures forall id :: id in found <==> Traversed(edges, outward, dependencyOnly, start, id, depth)
    ensures frontier != [] <==> DependencyDag.Truncated(SearchArcs(edges, outward, dependencyOnly), start, depth)
  {
    var arcs := SearchArcs(edges, outward, dependencyOnly);
    if frontier == [] {
      assert forall n :: !AtDistance(arcs, start, n, level);
      EmptyLayer(arcs, start, level, depth);
      forall id
        ensures id in found <==> Traversed(edges, outward, dependencyOnly, start, id, depth)
      {
        LastLevels(edges, outward, dependencyOnly, start, level, depth, id);
      }
    } else {
      assert AtDistance(arcs, start, frontier[0], level);
    }
  }

  /** Once a layer is empty no deeper level traverses another edge. */
  lemma LastLevels(edges: map<nat, Edge>, outward: bool, dependencyOnly: bool, start: Node, level: nat, depth: nat,
                   id: nat)
    requires 0 < level <= depth
    requires forall n :: !AtDistance(SearchArcs(edges, outward, dependencyOnly), start, n, level)
    ensures Traversed(edges, outward, dependencyOnly, start, id, level) <==>
        Traversed(edges, outward, dependencyOnly, start, id, depth)
  {
    var arcs := SearchArcs(edges, outward, dependencyOnly);
    if id in edges && level < depth {
      EmptyLayer(arcs, start, level, depth - 1);
      var n := Near(edges[id], outward);
      assert !AtDistance(arcs, start, n, level);
      if Within(arcs, start, n, level - 1) {
        WithinMonotone(arcs, arcs, start, n, level - 1, depth - 1);
      }
    }
  }
}
