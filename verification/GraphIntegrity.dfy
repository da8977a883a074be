/** What every run of inventory operations keeps true of the relationship graph. */
module GraphIntegrity {
  import opened Prelude
  import opened Walks
  import opened Schema
  import opened Inventory

  // ------------------------------------------------------------ the invariant

  ghost predicate EndpointsExist(s: State) {
    forall id | id in s.edges :: s.edges[id].from in s.cis && s.edges[id].to in s.cis
  }

  ghost predicate Obeys(e: Edge, relTypes: map<string, RelType>) {
    && e.relType in relTypes
    && var def := relTypes[e.relType].def;
    && Allows(def.fromTypes, e.from.ciType)
    && Allows(def.toTypes, e.to.ciType)
    && e.dependency == def.dependency
    && (e.from == e.to ==> def.allowSelf)
  }

  ghost predicate ContractsMet(s: State) {
    forall id | id in s.edges :: Obeys(s.edges[id], s.relTypes)
  }

  ghost predicate NoDuplicates(s: State) {
    forall i, j | i in s.edges && j in s.edges && i != j ::
      !SameEdge(s.edges[i], s.edges[j].relType, s.edges[j].from, s.edges[j].to)
  }

  /** Two different edges of one type respect that type's cardinality. */
  ghost predicate MayCoexist(e: Edge, e': Edge, c: Cardinality) {
    && (SourceLimited(c) ==> e.from != e'.from)
    && (TargetLimited(c) ==> e.to != e'.to)
  }

  ghost predicate CardinalityHolds(s: State) {
    forall i, j | i in s.edges && j in s.edges && i != j && s.edges[i].relType == s.edges[j].relType &&
                  s.edges[i].relType in s.relTypes ::
      MayCoexist(s.edges[i], s.edges[j], s.relTypes[s.edges[i].relType].def.cardinality)
  }

  /** Contracts are filed under their own name and a cached contract is the stored one. */
  ghost predicate RegistrySound(s: State) {
    && (forall name | name in s.relTypes :: s.relTypes[name].def.name == name)
    && (forall name | name in s.relCache && s.relCache[name].Some? ::
          name in s.relTypes && s.relCache[name].value == s.relTypes[name].def)
  }

  ghost predicate IdsFresh(s: State) {
    && (forall id | id in s.edges :: id < s.nextId)
    && (forall n | n in s.cis :: n.oid < s.nextId)
    && (forall n, m | n in s.cis && m in s.cis && n.oid == m.oid :: n == m)
  }

  /** At most one item per type, source and external id. */
  ghost predicate TagsUnique(s: State) {
    forall n, m | n in s.cis && m in s.cis && n.ciType == m.ciType &&
                  s.cis[n].prov.source.Some? && s.cis[n].prov.extId.Some? &&
                  s.cis[n].prov.source == s.cis[m].prov.source && s.cis[n].prov.extId == s.cis[m].prov.extId :: n == m
  }

  /** No simple dependency cycle of 2 to `depth + 1` items. */
  ghost predicate NoShortCycle(s: State, depth: nat) {
    NoCycleUpTo(DependencyArcs(s.edges), depth + 1)
  }

  ghost predicate Integrity(s: State, depth: nat) {
    && EndpointsExist(s)
    && ContractsMet(s)
    && NoDuplicates(s)
    && CardinalityHolds(s)
    && RegistrySound(s)
    && IdsFresh(s)
    && TagsUnique(s)
    && NoShortCycle(s, depth)
  }

  const EMPTY := State(map[], map[], map[], map[], map[], 0, map[], map[])

  lemma EmptyHasIntegrity(depth: nat)
    ensures Integrity(EMPTY, depth)
  {
    assert DependencyArcs(map[]) == {};
    forall c
      ensures !SimpleCycle({}, c)
    {
      assert |c| >= 1 ==> (c[|c| - 1], c[0]) !in {};
    }
  }

  // ------------------------------------------------------------ edges

  lemma FewerEdgesFewerArcs(edges: map<nat, Edge>, ids: set<nat>)
    ensures DependencyArcs(edges - ids) <= DependencyArcs(edges)
  {
  }

  lemma RemoveEdgesKeeps(s: State, ids: set<nat>, depth: nat)
    requires Integrity(s, depth)
    ensures Integrity(RemoveEdges(s, ids), depth)
  {
    FewerEdgesFewerArcs(s.edges, ids);
    FewerArcsFewerCycles(DependencyArcs(s.edges), DependencyArcs(s.edges - ids), depth + 1);
  }

  lemma RemoveCisKeeps(s: State, nodes: set<Node>, depth: nat)
    requires Integrity(s, depth)
    ensures Integrity(RemoveCis(s, nodes), depth)
  {
    RemoveEdgesKeeps(s, IncidentToAny(s.edges, nodes), depth);
  }

  lemma DeleteEdgeKeeps(s: State, id: nat, expected: Option<nat>, depth: nat)
    requires Integrity(s, depth)
    ensures Integrity(DeleteEdge(s, id, expected).0, depth)
  {
    RemoveEdgesKeeps(s, {id}, depth);
  }

  lemma DeleteCiKeeps(s: State, node: Node, expected: Option<nat>, detach: bool, depth: nat)
    requires Integrity(s, depth)
    ensures Integrity(DeleteCi(s, node, expected, detach).0, depth)
  {
    RemoveCisKeeps(s, {node}, depth);
  }

  lemma ArcsAfterInsert(edges: map<nat, Edge>, id: nat, e: Edge)
    requires id !in edges
    ensures DependencyArcs(edges[id := e]) == DependencyArcs(edges) + if e.dependency then {(e.from, e.to)} else {}
  {
    var more := edges[id := e];
    forall x | x in DependencyArcs(edges)
      ensures x in DependencyArcs(more)
    {
      var i :| i in edges && edges[i].dependency && x == (edges[i].from, edges[i].to);
      assert more[i] == edges[i];
    }
    assert e.dependency ==> more[id].dependency;
  }

  /** What the gates of edge creation have established once an edge is let in. */
  ghost predicate Admissible(s: State, e: Edge, depth: nat) {
    && e.from in s.cis && e.to in s.cis
    && Obeys(e, s.relTypes)
    && !CardinalityBlocks(s.edges, s.relTypes[e.relType].def, e.from, e.to)
    && !HasEdge(s.edges, e.relType, e.from, e.to)
    && (e.dependency ==> e.from == e.to || !Within(DependencyArcs(s.edges), e.to, e.from, depth))
  }

  lemma AcceptedEffect(s: State, req: EdgeRequest, depth: nat)
    requires Verdict(s, req, depth).None?
    ensures CreateEdge(s, req, depth) ==
            (InsertEdge(Remember(s, Lower(req.relType)), NewEdge(Resolve(s, Lower(req.relType)).value, req)),
             Ok(s.nextId))
  {
  }

  lemma AcceptedIsAdmissible(s: State, req: EdgeRequest, depth: nat)
    requires RegistrySound(s) && Verdict(s, req, depth).None?
    ensures Admissible(s, NewEdge(Resolve(s, Lower(req.relType)).value, req), depth)
  {
  }

  lemma AdmissibleKeepsPairs(s: State, e: Edge, depth: nat)
    requires RegistrySound(s) && IdsFresh(s) && NoDuplicates(s) && CardinalityHolds(s) && Admissible(s, e, depth)
    ensures NoDuplicates(InsertEdge(s, e)) && CardinalityHolds(InsertEdge(s, e))
  {
    var s' := InsertEdge(s, e);
    assert s'.edges == s.edges[s.nextId := e];
    var def := s.relTypes[e.relType].def;
    assert forall id | id in s.edges && s.edges[id].relType == e.relType :: MayCoexist(s.edges[id], e, def.cardinality);
  }

  lemma AdmissibleKeepsCyclesAway(s: State, e: Edge, depth: nat)
    requires IdsFresh(s) && NoShortCycle(s, depth) && Admissible(s, e, depth)
    ensures NoShortCycle(InsertEdge(s, e), depth)
  {
    assert s.nextId !in s.edges;
    ArcsAfterInsert(s.edges, s.nextId, e);
    if e.dependency {
      ArcClosesNoShortCycle(DependencyArcs(s.edges), e.from, e.to, depth);
    } else {
      assert DependencyArcs(s.edges) + {} == DependencyArcs(s.edges);
    }
  }

  lemma AdmissibleKeepsContracts(s: State, e: Edge, depth: nat)
    requires EndpointsExist(s) && ContractsMet(s) && IdsFresh(s) && Admissible(s, e, depth)
    ensures EndpointsExist(InsertEdge(s, e)) && ContractsMet(InsertEdge(s, e))
  {
    var s' := InsertEdge(s, e);
    assert s'.cis == s.cis && s'.relTypes == s.relTypes && s'.edges == s.edges[s.nextId := e];
  }

  lemma InsertKeepsItems(s: State, e: Edge)
    requires RegistrySound(s) && IdsFresh(s) && TagsUnique(s)
    ensures var s' := InsertEdge(s, e); RegistrySound(s') && IdsFresh(s') && TagsUnique(s')
  {
    var s' := InsertEdge(s, e);
    assert s'.cis == s.cis && s'.relTypes == s.relTypes && s'.relCache == s.relCache;
    assert s'.edges.Keys == s.edges.Keys + {s.nextId};
  }

  lemma AdmissibleKeepsRest(s: State, e: Edge, depth: nat)
    requires EndpointsExist(s) && ContractsMet(s) && RegistrySound(s) && IdsFresh(s) && TagsUnique(s)
    requires Admissible(s, e, depth)
    ensures var s' := InsertEdge(s, e);
      EndpointsExist(s') && ContractsMet(s') && RegistrySound(s') && IdsFresh(s') && TagsUnique(s')
  {
    AdmissibleKeepsContracts(s, e, depth);
    InsertKeepsItems(s, e);
  }

  lemma InsertEdgeKeeps(s: State, e: Edge, depth: nat)
    requires Integrity(s, depth) && Admissible(s, e, depth)
    ensures Integrity(InsertEdge(s, e), depth)
  {
    AdmissibleKeepsPairs(s, e, depth);
    AdmissibleKeepsCyclesAway(s, e, depth);
    AdmissibleKeepsRest(s, e, depth);
  }

  lemma RememberKeeps(s: State, name: string, depth: nat)
    requires Integrity(s, depth)
    ensures Integrity(Remember(s, name), depth)
  {
  }

  lemma CreateEdgeKeeps(s: State, req: EdgeRequest, depth: nat)
    requires Integrity(s, depth)
    ensures Integrity(CreateEdge(s, req, depth).0, depth)
  {
    var looked := Remember(s, Lower(req.relType));
    RememberKeeps(s, Lower(req.relType), depth);
    if Verdict(s, req, depth).None? {
      AcceptedIsAdmissible(s, req, depth);
      var e := NewEdge(Resolve(s, Lower(req.relType)).value, req);
      assert Admissible(looked, e, depth);
      InsertEdgeKeeps(looked, e, depth);
    }
  }

  // ------------------------------------------------------------ items

  lemma NewTagStaysUnique(s: State, node: Node, ci: Ci)
    requires TagsUnique(s) && node !in s.cis
    requires ci.prov.source.Some? && ci.prov.extId.Some? ==>
               forall n :: !Tagged(s, n, node.ciType, ci.prov.source.value, ci.prov.extId.value)
    ensures TagsUnique(s.(cis := s.cis[node := ci]))
  {
    if ci.prov.source.Some? && ci.prov.extId.Some? {
      forall n | n in s.cis && n.ciType == node.ciType
        ensures s.cis[n].prov.source != ci.prov.source || s.cis[n].prov.extId != ci.prov.extId
      {
        assert !Tagged(s, n, node.ciType, ci.prov.source.value, ci.prov.extId.value);
      }
    }
  }

  lemma InsertCiKeeps(s: State, ciType: string, ci: Ci, depth: nat)
    requires Integrity(s, depth)
    requires ci.prov.source.Some? && ci.prov.extId.Some? ==>
               forall n :: !Tagged(s, n, ciType, ci.prov.source.value, ci.prov.extId.value)
    ensures Integrity(InsertCi(s, ciType, ci), depth)
  {
    var s' := InsertCi(s, ciType, ci);
    var node := Node(ciType, s.nextId);
    NewTagStaysUnique(s, node, ci);
    assert s'.cis == s.cis[node := ci] && s'.edges == s.edges && s'.relTypes == s.relTypes && s'.relCache == s.relCache;
    assert IdsFresh(s');
  }

  /** Replacing the content of an item without changing its source tag. */
  lemma RetagKeeps(s: State, s': State, node: Node, depth: nat)
    requires Integrity(s, depth) && node in s.cis && node in s'.cis
    requires s'.cis == s.cis[node := s'.cis[node]]
    requires s'.edges == s.edges && s'.relTypes == s.relTypes && s'.relCache == s.relCache && s'.nextId == s.nextId
    requires s'.cis[node].prov.source == s.cis[node].prov.source && s'.cis[node].prov.extId == s.cis[node].prov.extId
    ensures Integrity(s', depth)
  {
  }

  lemma FindTaggedSound(s: State, ciType: string, source: string, extId: string)
    ensures var found := FindTagged(s, ciType, source, extId);
      && (found.Some? ==> Tagged(s, found.value, ciType, source, extId))
      && (found.None? ==> forall n :: !Tagged(s, n, ciType, source, extId))
  {
  }

  /** `s'` differs from `s` at most in the content of one stored item and in the records about it. */
  ghost predicate OnlyItem(s: State, s': State, node: Node) {
    && node in s.cis && node in s'.cis
    && s'.cis == s.cis[node := s'.cis[node]]
    && s'.types == s.types && s'.relTypes == s.relTypes && s'.relCache == s.relCache
    && s'.edges == s.edges && s'.nextId == s.nextId
  }

  lemma RefreshTouchesOnlyItem(s: State, node: Node, merged: Option<Doc>, current: Option<Doc>, version: nat,
                               seen: Provenance)
    requires node in s.cis
    ensures var s' := RefreshWith(s, node, merged, current, version, seen).0;
      OnlyItem(s, s', node) && (s' == s || s'.cis[node].prov == seen)
  {
    var ci := s.cis[node];
    var s' := RefreshWith(s, node, merged, current, version, seen).0;
    if merged.None? || current.None? {
      assert s' == s;
    } else if merged == current {
      assert s' == s.(cis := s.cis[node := ci.(prov := seen)]);
    } else {
      assert s' == ReplaceCi(s, node, Ci(ci.fields + merged.value, ci.revision + 1, version, seen), CiUpdated);
    }
  }

  lemma RefreshKeeps(s: State, def: TypeDef, node: Node, data: Doc, source: string, extId: string, runId: string,
                     depth: nat)
    requires Integrity(s, depth) && Tagged(s, node, node.ciType, source, extId)
    ensures Integrity(Refresh(s, def, node, data, source, extId, runId).0, depth)
  {
    var ci := s.cis[node];
    RefreshTouchesOnlyItem(s, node, Validate(def.model, ci.fields + data), Validate(def.model, ci.fields), def.version,
                           Seen(ci.prov, source, extId, runId));
    RetagKeeps(s, Refresh(s, def, node, data, source, extId, runId).0, node, depth);
  }

  lemma ApplyDiscoveryKeeps(s: State, ciType: string, data: Doc, source: string, extId: string, runId: string,
                            depth: nat)
    requires Integrity(s, depth)
    ensures Integrity(ApplyDiscovery(s, ciType, data, source, extId, runId).0, depth)
  {
    FindTaggedSound(s, ciType, source, extId);
    var def := FindType(s, ciType);
    var found := FindTagged(s, ciType, source, extId);
    if def.Some? {
      if found.None? {
        var valid := Validate(def.value.model, data);
        if valid.Some? {
          InsertCiKeeps(s, ciType, Ci(valid.value, 1, def.value.version, Seen(NO_PROVENANCE, source, extId, runId)),
                        depth);
        }
      } else {
        RefreshKeeps(s, def.value, found.value, data, source, extId, runId, depth);
      }
    }
  }

  lemma MarkMissingKeeps(s: State, node: Node, runId: string, depth: nat)
    requires Integrity(s, depth)
    ensures Integrity(MarkMissing(s, node, runId), depth)
  {
    if node in s.cis {
      RetagKeeps(s, MarkMissing(s, node, runId), node, depth);
    }
  }

  // ------------------------------------------------------------ runs

  /** One atomic operation. `Elsewhere` steps are taken by another worker, whose cache is not this one's. */
  datatype Step =
    | AddRelType(def: RelDef)
    | AddRelTypeElsewhere(def: RelDef)
    | DropRelType(name: string)
    | DropRelTypeElsewhere(name: string)
    | ForgetRelType(name: string)
    | AddEdge(req: EdgeRequest)
    | DropEdge(id: nat, expected: Option<nat>)
    | AddCi(ciType: string, payload: Doc)
    | ChangeCi(node: Node, payload: Doc, revision: nat, partial: bool)
    | DropCi(node: Node, expected: Option<nat>, detach: bool)
    | Discover(ciType: string, data: Doc, source: string, extId: string, runId: string)
    | Miss(node: Node, runId: string)
    | SetType(name: string, typeDef: TypeDef)
    | DropType(name: string)

  ghost function Perform(s: State, step: Step, depth: nat): State {
    match step
    case AddRelType(def) => CreateRelType(s, def).0
    case AddRelTypeElsewhere(def) => CreateRelType(s, def).0.(relCache := s.relCache)
    case DropRelType(name) => DeactivateRelType(s, name).0
    case DropRelTypeElsewhere(name) => DeactivateRelType(s, name).0.(relCache := s.relCache)
    case ForgetRelType(name) => s.(relCache := s.relCache - {name})
    case AddEdge(req) => CreateEdge(s, req, depth).0
    case DropEdge(id, expected) => DeleteEdge(s, id, expected).0
    case AddCi(ciType, payload) => CreateCi(s, ciType, payload).0
    case ChangeCi(node, payload, revision, partial) => UpdateCi(s, node, payload, revision, partial).0
    case DropCi(node, expected, detach) => DeleteCi(s, node, expected, detach).0
    case Discover(ciType, data, source, extId, runId) => ApplyDiscovery(s, ciType, data, source, extId, runId).0
    case Miss(node, runId) => MarkMissing(s, node, runId)
    case SetType(name, def) => s.(types := s.types[name := def])
    case DropType(name) => s.(types := s.types - {name})
  }

  ghost function Run(s: State, steps: seq<Step>, depth: nat): State {
    if steps == [] then s
    else Perform(Run(s, steps[..|steps| - 1], depth), steps[|steps| - 1], depth)
  }

  /** Steps that touch only contracts, caches and CI types. */
  lemma RegistryStepKeeps(s: State, s': State, depth: nat)
    requires Integrity(s, depth)
    requires s'.edges == s.edges && s'.cis == s.cis && s'.nextId == s.nextId
    requires RegistrySound(s')
    requires forall name | name in s.relTypes :: name in s'.relTypes && s'.relTypes[name].def == s.relTypes[name].def
    ensures Integrity(s', depth)
  {
  }

  lemma AddCiKeeps(s: State, ciType: string, payload: Doc, depth: nat)
    requires Integrity(s, depth)
    ensures Integrity(CreateCi(s, ciType, payload).0, depth)
  {
    if CreateCi(s, ciType, payload).1.Ok? {
      var def := FindType(s, ciType).value;
      InsertCiKeeps(s, ciType, Ci(Validate(def.model, payload).value, 1, def.version, NO_PROVENANCE), depth);
    }
  }

  lemma ChangeCiKeeps(s: State, node: Node, payload: Doc, revision: nat, partial: bool, depth: nat)
    requires Integrity(s, depth)
    ensures Integrity(UpdateCi(s, node, payload, revision, partial).0, depth)
  {
    var s' := UpdateCi(s, node, payload, revision, partial).0;
    if s' != s {
      RetagKeeps(s, s', node, depth);
    }
  }

  lemma NewContractIsSound(s: State, def: RelDef)
    requires RegistrySound(s) && def.name !in s.relTypes
    ensures RegistrySound(s.(relTypes := s.relTypes[def.name := RelType(def, true)]))
    ensures RegistrySound(s.(relTypes := s.relTypes[def.name := RelType(def, true)],
                             relCache := s.relCache - {def.name}))
  {
  }

  lemma CreateRelTypeKeeps(s: State, def: RelDef, elsewhere: bool, depth: nat)
    requires Integrity(s, depth)
    ensures var s' := CreateRelType(s, def).0; Integrity(if elsewhere then s'.(relCache := s.relCache) else s', depth)
  {
    var s' := CreateRelType(s, def).0;
    if def.name in s.relTypes {
      assert s' == s && s.(relCache := s.relCache) == s;
    } else {
      var added := s.(relTypes := s.relTypes[def.name := RelType(def, true)]);
      assert s' == added.(relCache := s.relCache - {def.name}) && s'.(relCache := s.relCache) == added;
      NewContractIsSound(s, def);
      RegistryStepKeeps(s, if elsewhere then added else s', depth);
    }
  }

  lemma DeactivateRelTypeKeeps(s: State, name: string, elsewhere: bool, depth: nat)
    requires Integrity(s, depth)
    ensures var s' := DeactivateRelType(s, name).0;
      Integrity(if elsewhere then s'.(relCache := s.relCache) else s', depth)
  {
    var s' := DeactivateRelType(s, name).0;
    var key := Lower(name);
    if key !in s.relTypes || !s.relTypes[key].active {
      assert s' == s && s.(relCache := s.relCache) == s;
    } else {
      var dropped := s.(relTypes := s.relTypes[key := s.relTypes[key].(active := false)]);
      assert s' == dropped.(relCache := s.relCache - {name});
      assert RegistrySound(dropped);
      if elsewhere {
        assert s'.(relCache := s.relCache) == dropped;
        RegistryStepKeeps(s, dropped, depth);
      } else {
        RegistryStepKeeps(s, s', depth);
      }
    }
  }

  /** Steps that change contracts, caches or CI types. */
  predicate IsRegistryStep(step: Step) {
    step.AddRelType? || step.AddRelTypeElsewhere? || step.DropRelType? || step.DropRelTypeElsewhere? ||
    step.ForgetRelType? ||
    step.SetType? || step.DropType?
  }

  lemma PerformRegistryKeeps(s: State, step: Step, depth: nat)
    requires Integrity(s, depth) && IsRegistryStep(step)
    ensures Integrity(Perform(s, step, depth), depth)
  {
    match step
    case AddRelType(def) => CreateRelTypeKeeps(s, def, false, depth);
    case AddRelTypeElsewhere(def) => CreateRelTypeKeeps(s, def, true, depth);
    case DropRelType(name) => DeactivateRelTypeKeeps(s, name, false, depth);
    case DropRelTypeElsewhere(name) => DeactivateRelTypeKeeps(s, name, true, depth);
    case ForgetRelType(name) => RegistryStepKeeps(s, s.(relCache := s.relCache - {name}), depth);
    case SetType(name, def) => RegistryStepKeeps(s, s.(types := s.types[name := def]), depth);
    case DropType(name) => RegistryStepKeeps(s, s.(types := s.types - {name}), depth);
  }

  lemma PerformKeeps(s: State, step: Step, depth: nat)
    requires Integrity(s, depth)
    ensures Integrity(Perform(s, step, depth), depth)
  {
    match step
    case AddEdge(req) => CreateEdgeKeeps(s, req, depth);
    case DropEdge(id, expected) => DeleteEdgeKeeps(s, id, expected, depth);
    case AddCi(ciType, payload) => AddCiKeeps(s, ciType, payload, depth);
    case ChangeCi(node, payload, revision, partial) => ChangeCiKeeps(s, node, payload, revision, partial, depth);
    case DropCi(node, expected, detach) => DeleteCiKeeps(s, node, expected, detach, depth);
    case Discover(ciType, data, source, extId, runId) =>
      ApplyDiscoveryKeeps(s, ciType, data, source, extId, runId, depth);
    case Miss(node, runId) => MarkMissingKeeps(s, node, runId, depth);
    case _ => PerformRegistryKeeps(s, step, depth);
  }

  /** Every run from a sound state ends in a sound state. */
  lemma {:induction false} RunKeepsIntegrity(s: State, steps: seq<Step>, depth: nat)
    requires Integrity(s, depth)
    ensures Integrity(Run(s, steps, depth), depth)
  {
    if steps != [] {
      RunKeepsIntegrity(s, steps[..|steps| - 1], depth);
      PerformKeeps(Run(s, steps[..|steps| - 1], depth), steps[|steps| - 1], depth);
    }
  }

  lemma RefreshLeavesContracts(s: State, def: TypeDef, node: Node, data: Doc, source: string, extId: string,
                               runId: string)
    requires node in s.cis
    ensures var s' := Refresh(s, def, node, data, source, extId, runId).0;
      s'.relTypes == s.relTypes && s'.relCache == s.relCache && s'.edges == s.edges && s'.types == s.types
  {
    var ci := s.cis[node];
    RefreshTouchesOnlyItem(s, node, Validate(def.model, ci.fields + data), Validate(def.model, ci.fields),
                           def.version, Seen(ci.prov, source, extId, runId));
  }

  lemma DiscoveryLeavesContracts(s: State, ciType: string, data: Doc, source: string, extId: string, runId: string)
    ensures var s' := ApplyDiscovery(s, ciType, data, source, extId, runId).0;
      s'.relTypes == s.relTypes && s'.relCache == s.relCache && s'.edges == s.edges && s'.types == s.types
  {
    FindTaggedSound(s, ciType, source, extId);
    var def := FindType(s, ciType);
    var found := FindTagged(s, ciType, source, extId);
    if def.Some? && found.Some? {
      RefreshLeavesContracts(s, def.value, found.value, data, source, extId, runId);
    }
  }

  lemma CreateLeavesContracts(s: State, def: RelDef, name: string)
    requires name in s.relTypes
    ensures var s' := CreateRelType(s, def).0;
      name in s'.relTypes && s'.relTypes[name].def == s.relTypes[name].def
  {
  }

  lemma DeactivateLeavesContracts(s: State, dropped: string, name: string)
    requires name in s.relTypes
    ensures var s' := DeactivateRelType(s, dropped).0;
      name in s'.relTypes && s'.relTypes[name].def == s.relTypes[name].def
  {
  }

  lemma RegistryStepLeavesContracts(s: State, step: Step, depth: nat, name: string)
    requires name in s.relTypes && IsRegistryStep(step)
    ensures name in Perform(s, step, depth).relTypes
    ensures Perform(s, step, depth).relTypes[name].def == s.relTypes[name].def
  {
    if step.AddRelType? || step.AddRelTypeElsewhere? {
      CreateLeavesContracts(s, step.def, name);
    } else if step.DropRelType? || step.DropRelTypeElsewhere? {
      DeactivateLeavesContracts(s, step.name, name);
    }
  }

  lemma DataStepLeavesContracts(s: State, step: Step, depth: nat)
    requires !IsRegistryStep(step)
    ensures Perform(s, step, depth).relTypes == s.relTypes
  {
    if step.Discover? {
      DiscoveryLeavesContracts(s, step.ciType, step.data, step.source, step.extId, step.runId);
    }
  }

  lemma PerformLeavesContracts(s: State, step: Step, depth: nat, name: string)
    requires name in s.relTypes
    ensures name in Perform(s, step, depth).relTypes
    ensures Perform(s, step, depth).relTypes[name].def == s.relTypes[name].def
  {
    if IsRegistryStep(step) {
      RegistryStepLeavesContracts(s, step, depth, name);
    } else {
      DataStepLeavesContracts(s, step, depth);
    }
  }

  /** A contract never changes once its name is taken: names stay reserved after deactivation. */
  lemma {:induction false} ContractsAreImmutable(s: State, steps: seq<Step>, depth: nat, name: string)
    requires name in s.relTypes
    ensures name in Run(s, steps, depth).relTypes
    ensures Run(s, steps, depth).relTypes[name].def == s.relTypes[name].def
  {
    if steps != [] {
      var earlier := Run(s, steps[..|steps| - 1], depth);
      ContractsAreImmutable(s, steps[..|steps| - 1], depth, name);
      PerformLeavesContracts(earlier, steps[|steps| - 1], depth, name);
    }
  }
}
