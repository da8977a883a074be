/** Two concrete snapshots: one whose edges take two runs to settle, and one whose item settles into an error. */
module DiscoveryExamples {
  import opened Prelude
  import opened Walks
  import opened Schema
  import opened Inventory
  import opened GraphIntegrity
  import opened EdgeReconciliation
  import opened EdgeReruns
  import opened CiReconciliation
  import opened CiConvergence
  import opened CiPasses
  import opened CiOutcome
  import opened CiRerun
  import opened Discovery
  import opened DependencyDag

  // ------------------------------------------------------------ a pass over one wanted edge

  /** A lone wanted edge that is refused leaves the edges but for the stale ones. */
  lemma LoneEdgeRefused(s: State, e: EdgeRef, ids: IdMap, source: string, runId: string, depth: nat)
    requires Resolved(e, ids) && Verdict(s, RequestFor(e, ids, source, runId), depth).Some?
    ensures var q := EdgePass(s, [e], ids, source, runId, depth);
      var stale := StaleEdges(s.edges, source, DesiredKeys([e], ids));
      q.report.created == 0 && q.report.deleted == |stale| && q.s.edges == s.edges - stale && SameView(s, q.s)
  {
    var start := EdgePassState(s, EMPTY_REL_REPORT);
    WantOne(start, e, ids, source, runId, depth);
    RejectedOnlyCaches(start, e, ids, source, runId, depth);
  }

  lemma LoneEdgeCreated(s: State, e: EdgeRef, ids: IdMap, source: string, runId: string, depth: nat)
    requires RegistrySound(s) && Resolved(e, ids) && Verdict(s, RequestFor(e, ids, source, runId), depth).None?
    ensures EdgePass(s, [e], ids, source, runId, depth).report.created == 1
  {
    var start := EdgePassState(s, EMPTY_REL_REPORT);
    WantOne(start, e, ids, source, runId, depth);
    WantAccepted(start, e, ids, source, runId, depth);
  }

  // ------------------------------------------------------------ a new parent

  const PARENT := RelDef("parent", ["*"], ["*"], ManyToOne, false, false)
  const NAMES := ["a", "b", "c"]

  /** The contract, one type of items, and the first `n` servers as discovered. */
  function Servers(n: nat): seq<Step>
    requires n <= 3
  {
    if n == 0 then [AddRelType(PARENT), SetType("server", TypeDef(SERVER, 1))]
    else Servers(n - 1) + [Discover("server", map[], "aws", NAMES[n - 1], "before")]
  }

  function ParentRequest(i: nat, j: nat, runId: string): EdgeRequest {
    EdgeRequest("parent", "server", i, "server", j, map[], Some("aws"), Some(runId))
  }

  /** `a` has parent `b`. */
  function FirstParent(): seq<Step> {
    Servers(3) + [AddEdge(ParentRequest(0, 1, "before"))]
  }

  /** Now the snapshot says that its parent is `c`. */
  const NEW_PARENT := EdgeRef("parent", "server", "a", "server", "c", map[])
  const THREE_SERVERS: IdMap := map[("server", "a") := 0, ("server", "b") := 1, ("server", "c") := 2]

  function ServerItem(i: nat): Item
    requires i < 3
  {
    Item("server", NAMES[i], map[])
  }

  const REPARENTED := Snapshot([ServerItem(0), ServerItem(1), ServerItem(2)], [NEW_PARENT])

  ghost predicate HasServers(s: State, n: nat)
    requires n <= 3
  {
    && Resolve(s, "parent") == Some(PARENT)
    && s.types == map["server" := TypeDef(SERVER, 1)]
    && (forall m :: m in s.cis <==> exists i: nat | i < n :: m == Server(i))
    && (forall i: nat | i < n && Server(i) in s.cis ::
          s.cis[Server(i)].fields == BLANK && s.cis[Server(i)].prov.source == Some("aws") &&
          s.cis[Server(i)].prov.extId == Some(NAMES[i]))
  }

  lemma Lowered()
    ensures Lower("server") == "server" && Lower("parent") == "parent"
  {
  }

  lemma NoServers(depth: nat)
    ensures var s := Run(EMPTY, Servers(0), depth); HasServers(s, 0) && s.nextId == 0 && s.edges.Keys == {}
  {
    var steps := Servers(0);
    var s1 := CreateRelType(EMPTY, PARENT).0;
    assert steps[..1][..0] == [] && steps[..1] == [AddRelType(PARENT)];
    assert Run(EMPTY, steps[..1], depth) == s1;
    assert Run(EMPTY, steps, depth) == s1.(types := s1.types["server" := TypeDef(SERVER, 1)]);
  }

  lemma NextServerInserted(s: State, n: nat)
    requires n < 3 && HasServers(s, n)
    ensures ApplyDiscovery(s, "server", map[], "aws", NAMES[n], "before").0 ==
      InsertCi(s, "server", Ci(BLANK, 1, 1, Seen(NO_PROVENANCE, "aws", NAMES[n], "before")))
  {
    Lowered();
    var it := Item("server", NAMES[n], map[]);
    assert forall m :: !TaggedAs(s, m, it, "aws");
    NoneFound(s, it, "aws");
    BlankServer();
  }

  lemma ServerInserted(s: State, n: nat, ci: Ci)
    requires n < 3 && OnlyServers(s, n) && ci.fields == BLANK
    requires ci.prov.source == Some("aws") && ci.prov.extId == Some(NAMES[n])
    ensures OnlyServers(InsertCi(s, "server", ci), n + 1)
  {
    var t := InsertCi(s, "server", ci);
    assert t.cis == s.cis[Server(n) := ci] && t.types == s.types && t.edges == s.edges;
    assert Resolve(t, "parent") == Resolve(s, "parent");
  }

  lemma NextServer(s: State, n: nat)
    requires n < 3 && OnlyServers(s, n)
    ensures OnlyServers(ApplyDiscovery(s, "server", map[], "aws", NAMES[n], "before").0, n + 1)
  {
    NextServerInserted(s, n);
    ServerInserted(s, n, Ci(BLANK, 1, 1, Seen(NO_PROVENANCE, "aws", NAMES[n], "before")));
  }

  lemma LastStep(s: State, steps: seq<Step>, step: Step, depth: nat)
    ensures Run(s, steps + [step], depth) == Perform(Run(s, steps, depth), step, depth)
  {
    assert (steps + [step])[..|steps|] == steps;
  }

  lemma AddEdgeLast(s: State, steps: seq<Step>, req: EdgeRequest, depth: nat)
    ensures Run(s, steps + [AddEdge(req)], depth) == CreateEdge(Run(s, steps, depth), req, depth).0
  {
    LastStep(s, steps, AddEdge(req), depth);
  }

  lemma DiscoverLast(s: State, steps: seq<Step>, extId: string, depth: nat)
    ensures Run(s, steps + [Discover("server", map[], "aws", extId, "before")], depth) ==
      ApplyDiscovery(Run(s, steps, depth), "server", map[], "aws", extId, "before").0
  {
    LastStep(s, steps, Discover("server", map[], "aws", extId, "before"), depth);
  }

  /** Servers as discovered so far, and nothing else. */
  ghost predicate OnlyServers(s: State, n: nat)
    requires n <= 3
  {
    HasServers(s, n) && s.nextId == n && s.edges.Keys == {}
  }

  lemma {:induction false} ServersRun(n: nat, depth: nat)
    requires n <= 3
    ensures OnlyServers(Run(EMPTY, Servers(n), depth), n)
  {
    if n == 0 {
      NoServers(depth);
    } else {
      ServersRun(n - 1, depth);
      DiscoverLast(EMPTY, Servers(n - 1), NAMES[n - 1], depth);
      NextServer(Run(EMPTY, Servers(n - 1), depth), n - 1);
    }
  }

  /** Three servers, and the only edge leads from `a` to its parent. */
  ghost predicate ParentIs(s: State, parent: nat) {
    && HasServers(s, 3)
    && s.edges.Keys == {3}
    && SameEdge(s.edges[3], "parent", Server(0), Server(parent)) && s.edges[3].source == Some("aws")
  }

  lemma FirstParentAdded(s: State, depth: nat)
    requires OnlyServers(s, 3)
    ensures ParentIs(CreateEdge(s, ParentRequest(0, 1, "before"), depth).0, 1)
  {
    Lowered();
    var req := ParentRequest(0, 1, "before");
    assert Server(0) in s.cis && Server(1) in s.cis;
    assert Verdict(s, req, depth).None?;
    AcceptedEffect(s, req, depth);
    var t := CreateEdge(s, req, depth).0;
    assert t.edges == s.edges[3 := NewEdge(PARENT, req)];
    assert t.cis == s.cis && t.types == s.types;
  }

  lemma FirstParentSound(depth: nat)
    ensures Integrity(Run(EMPTY, FirstParent(), depth), depth)
  {
    EmptyHasIntegrity(depth);
    RunKeepsIntegrity(EMPTY, FirstParent(), depth);
  }

  lemma FirstParentRun(depth: nat)
    ensures ParentIs(Run(EMPTY, FirstParent(), depth), 1)
  {
    ServersRun(3, depth);
    AddEdgeLast(EMPTY, Servers(3), ParentRequest(0, 1, "before"), depth);
    FirstParentAdded(Run(EMPTY, Servers(3), depth), depth);
  }

  lemma ServerSettled(s: State, i: nat)
    requires i < 3 && HasServers(s, 3) && TagsUnique(s)
    ensures Settled(s, ServerItem(i), "aws", THREE_SERVERS)
  {
    Lowered();
    BlankServer();
    assert BLANK + map[] == BLANK;
    assert Server(i) in s.cis;
    forall runId
      ensures ReplyTo(s, ServerItem(i), "aws", runId) == Ok((i, Unchanged))
    {
      ReplyForStored(s, ServerItem(i), "aws", runId, Server(i));
    }
  }

  lemma ItemsOfSnapshot(it: Item)
    ensures Holds(Grouped(REPARENTED.items), it) <==> exists i: nat | i < 3 :: it == ServerItem(i)
  {
    GroupedKeepsLast(REPARENTED.items);
    var items := REPARENTED.items;
    if LastOf(items, it) {
      var i :| 0 <= i < |items| && LastAt(items, i, it);
      assert it == ServerItem(i);
    }
    if i: nat :| i < 3 && it == ServerItem(i) {
      assert LastAt(items, i, it);
    }
  }

  lemma ServersSettled(s: State)
    requires TagsUnique(s) && HasServers(s, 3)
    ensures AllSettled(s, Grouped(REPARENTED.items), "aws", THREE_SERVERS)
  {
    forall it | Holds(Grouped(REPARENTED.items), it)
      ensures Settled(s, it, "aws", THREE_SERVERS)
    {
      ItemsOfSnapshot(it);
      var i: nat :| i < 3 && it == ServerItem(i);
      ServerSettled(s, i);
    }
  }

  lemma ServersNamed()
    ensures IdsOf(THREE_SERVERS, Grouped(REPARENTED.items))
  {
    forall k | k in THREE_SERVERS
      ensures exists it :: Holds(Grouped(REPARENTED.items), it) && k == ItemKey(it)
    {
      var i: nat :| i < 3 && k == ItemKey(ServerItem(i));
      ItemsOfSnapshot(ServerItem(i));
    }
  }

  lemma ServersSteady(s: State, delete: bool, depth: nat)
    requires Integrity(s, depth) && HasServers(s, 3)
    ensures ItemsSteady(s, REPARENTED, "aws", delete, THREE_SERVERS, depth)
  {
    ServersSettled(s);
    ServersNamed();
    forall g | g in Grouped(REPARENTED.items)
      ensures StaleItems(s, g, "aws") == {}
    {
      NoServerStale(s, g);
    }
  }

  lemma ServerWanted(g: Group, i: nat)
    requires g in Grouped(REPARENTED.items) && g.ciType == "server" && i < 3
    ensures Wanted(g.items, NAMES[i])
  {
    GroupedKeepsLast(REPARENTED.items);
    ItemsOfSnapshot(ServerItem(i));
    var h :| h in Grouped(REPARENTED.items) && ServerItem(i) in h.items;
    assert GroupOk(h) && h.ciType == "server";
    assert h == g;
  }

  lemma NoServerStale(s: State, g: Group)
    requires HasServers(s, 3) && g in Grouped(REPARENTED.items)
    ensures StaleItems(s, g, "aws") == {}
  {
    forall n | n in SourceItems(s, g.ciType, "aws")
      ensures n !in StaleItems(s, g, "aws")
    {
      var i: nat :| i < 3 && n == Server(i);
      ServerWanted(g, i);
    }
  }

  /** The contract and the three servers are there. */
  ghost predicate Furnished(s: State) {
    RegistrySound(s) && Resolve(s, "parent") == Some(PARENT) && forall i: nat | i < 3 :: Server(i) in s.cis
  }

  lemma OldParentBlocks(s: State, runId: string, depth: nat)
    requires Furnished(s) && s.edges.Keys == {3} && SameEdge(s.edges[3], "parent", Server(0), Server(1))
    ensures Verdict(s, RequestFor(NEW_PARENT, THREE_SERVERS, "aws", runId), depth) == Some(CardinalityViolation)
  {
    Lowered();
    assert Server(0) in s.cis && Server(2) in s.cis;
    assert 3 in s.edges && s.edges[3].relType == PARENT.name && s.edges[3].from == Server(0);
  }

  lemma NewParentAccepted(s: State, runId: string, depth: nat)
    requires Furnished(s) && s.edges.Keys == {}
    ensures Verdict(s, RequestFor(NEW_PARENT, THREE_SERVERS, "aws", runId), depth).None?
  {
    Lowered();
    assert Server(0) in s.cis && Server(2) in s.cis;
  }

  /** The first pass is held up by the old parent edge and deletes it, the second creates the new one. */
  lemma OldParentGoes(s: State, runId: string, depth: nat)
    requires Furnished(s) && s.edges.Keys == {3} && SameEdge(s.edges[3], "parent", Server(0), Server(1))
    requires s.edges[3].source == Some("aws")
    ensures var q := EdgePass(s, [NEW_PARENT], THREE_SERVERS, "aws", runId, depth);
      q.report.created == 0 && q.report.deleted == 1 && q.s.edges.Keys == {} && SameView(s, q.s)
  {
    OldParentBlocks(s, runId, depth);
    LoneEdgeRefused(s, NEW_PARENT, THREE_SERVERS, "aws", runId, depth);
    LoneKey(NEW_PARENT, THREE_SERVERS);
    assert StoredKey(s.edges[3]) == ("parent", 0, 1) != KeyOf(NEW_PARENT, THREE_SERVERS);
    assert StaleEdges(s.edges, "aws", DesiredKeys([NEW_PARENT], THREE_SERVERS)) == {3};
  }

  lemma FurnishedBySameView(s: State, t: State)
    requires Furnished(s) && SameView(s, t) && RegistrySound(t)
    ensures Furnished(t)
  {
    assert Resolve(t, "parent") == Resolve(s, "parent");
    forall i: nat | i < 3
      ensures Server(i) in t.cis
    {
      assert Server(i) in s.cis;
    }
  }

  lemma FirstReparenting(s: State, delete: bool, depth: nat)
    requires ItemsSteady(s, REPARENTED, "aws", delete, THREE_SERVERS, depth) && Furnished(s) && ParentIs(s, 1)
    ensures var one := Reconcile(s, REPARENTED, "aws", "run1", delete, depth);
      && one.edges.created == 0 && one.edges.deleted == 1
      && ItemsSteady(one.s, REPARENTED, "aws", delete, THREE_SERVERS, depth) && Furnished(one.s)
      && one.s.edges.Keys == {}
  {
    var p := CiPass(s, REPARENTED.items, "aws", "run1", delete);
    SteadyItemHalf(s, REPARENTED, "aws", "run1", delete, THREE_SERVERS, depth);
    FurnishedBySameView(s, p.s);
    OldParentGoes(p.s, "run1", depth);
    EdgeHalfKeepsSteady(p.s, REPARENTED, "aws", "run1", delete, THREE_SERVERS, depth);
    FurnishedBySameView(p.s, EdgePass(p.s, [NEW_PARENT], THREE_SERVERS, "aws", "run1", depth).s);
  }

  lemma SecondReparenting(s: State, delete: bool, depth: nat)
    requires ItemsSteady(s, REPARENTED, "aws", delete, THREE_SERVERS, depth) && Furnished(s) && s.edges.Keys == {}
    ensures Reconcile(s, REPARENTED, "aws", "run2", delete, depth).edges.created == 1
  {
    var p := CiPass(s, REPARENTED.items, "aws", "run2", delete);
    SteadyItemHalf(s, REPARENTED, "aws", "run2", delete, THREE_SERVERS, depth);
    FurnishedBySameView(s, p.s);
    NewParentAccepted(p.s, "run2", depth);
    LoneEdgeCreated(p.s, NEW_PARENT, THREE_SERVERS, "aws", "run2", depth);
  }

  lemma ServersFurnished(s: State)
    requires RegistrySound(s) && HasServers(s, 3)
    ensures Furnished(s) && GoodTypes(s)
  {
  }

  lemma Reparenting(s: State, delete: bool, depth: nat)
    requires Integrity(s, depth) && ParentIs(s, 1)
    ensures var one := Reconcile(s, REPARENTED, "aws", "run1", delete, depth);
      var two := Reconcile(one.s, REPARENTED, "aws", "run2", delete, depth);
      && GoodTypes(s)
      && one.edges.created == 0 && one.edges.deleted == 1 && two.edges.created == 1
  {
    ServersSteady(s, delete, depth);
    ServersFurnished(s);
    FirstReparenting(s, delete, depth);
    SecondReparenting(Reconcile(s, REPARENTED, "aws", "run1", delete, depth).s, delete, depth);
  }

  /**
   One run need not settle the edges. Server `a` has one parent at most and has had `b`; when the snapshot says `c`,
   the first run deletes the old edge but has already refused the new one, which only the second run creates.
   */
  lemma ReparentingTakesTwoRuns(delete: bool, depth: nat)
    ensures var s := Run(EMPTY, FirstParent(), depth);
      var one := Reconcile(s, REPARENTED, "aws", "run1", delete, depth);
      var two := Reconcile(one.s, REPARENTED, "aws", "run2", delete, depth);
      && Integrity(s, depth) && GoodTypes(s)
      && one.edges.created == 0 && one.edges.deleted == 1 && two.edges.created == 1
  {
    FirstParentSound(depth);
    FirstParentRun(depth);
    Reparenting(Run(EMPTY, FirstParent(), depth), delete, depth);
  }

  // ------------------------------------------------------------ a default its field rejects

  /** An optional number whose default is a word. */
  const BAD: Model := map["size" := Rule(Primitive(IntegerType), Range(None, None), false, Str("large"))]
  const SELF := RelDef("self", ["*"], ["*"], ManyToMany, false, true)
  const PLAIN := Item("server", "a", map[])
  const SELF_LINK := EdgeRef("self", "server", "a", "server", "a", map[])
  const LINKED := Snapshot([PLAIN], [SELF_LINK])

  function BadTypes(): seq<Step> {
    [AddRelType(SELF)] + [SetType("server", TypeDef(BAD, 1))]
  }

  lemma BadTypesRun(depth: nat)
    ensures var s := Run(EMPTY, BadTypes(), depth);
      && Resolve(s, "self") == Some(SELF) && s.types == map["server" := TypeDef(BAD, 1)]
      && s.cis.Keys == {} && s.edges.Keys == {} && s.nextId == 0 && Integrity(s, depth)
  {
    EmptyHasIntegrity(depth);
    RunKeepsIntegrity(EMPTY, BadTypes(), depth);
    LastStep(EMPTY, [], AddRelType(SELF), depth);
    LastStep(EMPTY, [AddRelType(SELF)], SetType("server", TypeDef(BAD, 1)), depth);
    assert [] + [AddRelType(SELF)] == [AddRelType(SELF)];
  }

  lemma OneGroup(it: Item)
    ensures Grouped([it]) == [Group(it.ciType, [it])]
  {
    assert [it][..0] == [];
  }

  /** The item half over a single item, with nothing to sweep. */
  lemma OneItemHalf(s: State, it: Item, source: string, runId: string, delete: bool)
    requires StaleItems(s, Group(it.ciType, [it]), source) == {}
    ensures var p := CiPass(s, [it], source, runId, delete);
      var q := ApplyItem(Pass(s, map[], EMPTY_CI_REPORT), it, source, runId);
      && p.ids == q.ids && p.report == q.report && SameShape(q.s, p.s)
  {
    OneGroup(it);
    var start, g := Pass(s, map[], EMPTY_CI_REPORT), Group(it.ciType, [it]);
    assert [g][..0] == [] && [it][..0] == [];
    assert ApplyItems(start, [it], source, runId) == ApplyItem(start, it, source, runId);
    assert GroupPasses(start, [], source, runId, delete) == start;
    assert GroupPasses(start, [g], source, runId, delete) == GroupPass(start, g, source, runId, delete);
    SweepNothing(ApplyItem(start, it, source, runId), it.ciType, runId, delete);
  }

  /** The same but for audit records and events. */
  ghost predicate SameShape(s: State, t: State) {
    && t.cis == s.cis && t.edges == s.edges && t.nextId == s.nextId
    && t.types == s.types && t.relTypes == s.relTypes && t.relCache == s.relCache
  }

  lemma RemoveNothing(s: State)
    ensures SameShape(s, RemoveCis(s, {}))
  {
    var t := RemoveCis(s, {});
    assert t.cis == s.cis && t.edges == s.edges;
  }

  lemma FlagNothing(s: State, runId: string)
    ensures SameShape(s, MarkAllMissing(s, {}, runId))
  {
    var t := MarkAllMissing(s, {}, runId);
    assert t.cis == s.cis;
  }

  lemma SweepNothing(p: Pass, ciType: string, runId: string, delete: bool)
    ensures var q := Sweep(p, ciType, {}, runId, delete); q.ids == p.ids && q.report == p.report && SameShape(p.s, q.s)
  {
    RemoveNothing(p.s);
    FlagNothing(p.s, runId);
  }

  /** Server `a` as its creation stored it: with the default. */
  ghost predicate StoredPlain(s: State) {
    && Resolve(s, "self") == Some(SELF) && s.types == map["server" := TypeDef(BAD, 1)]
    && s.cis.Keys == {Server(0)} && s.cis[Server(0)].fields == map["size" := Str("large")]
    && s.cis[Server(0)].prov.source == Some("aws") && s.cis[Server(0)].prov.extId == Some("a")
  }

  lemma DefaultRejected()
    ensures Validate(BAD, map[]) == Some(map["size" := Str("large")])
    ensures Validate(BAD, map["size" := Str("large")]) == None
  {
    var stored := map["size" := Str("large")];
    assert FieldValue(BAD["size"], stored, "size") == None;
    assert FieldValue(BAD["size"], map[], "size") == Some(Str("large"));
    assert Validate(BAD, map[]).Some? && Validate(BAD, map[]).value.Keys == {"size"};
    assert Validate(BAD, map[]).value == map["size" := Str("large")];
  }

  lemma PlainCreated(s: State, runId: string)
    requires Resolve(s, "self") == Some(SELF) && s.types == map["server" := TypeDef(BAD, 1)] && s.cis.Keys == {}
    requires s.nextId == 0
    ensures var q := ApplyItem(Pass(s, map[], EMPTY_CI_REPORT), PLAIN, "aws", runId);
      && q.ids == ONE_SERVER && q.report.created == 1 && q.report.errors == 0
      && q.s.edges == s.edges && q.s.nextId == 1 && StoredPlain(q.s)
  {
    Lowered();
    DefaultRejected();
    NoneFound(s, PLAIN, "aws");
    var ci := Ci(map["size" := Str("large")], 1, 1, Seen(NO_PROVENANCE, "aws", "a", runId));
    assert ApplyDiscovery(s, "server", map[], "aws", "a", runId) == (InsertCi(s, "server", ci), Ok((0, Created)));
    assert InsertCi(s, "server", ci).cis == s.cis[Server(0) := ci];
  }

  lemma PlainRefused(s: State, runId: string)
    requires StoredPlain(s) && TagsUnique(s)
    ensures var q := ApplyItem(Pass(s, map[], EMPTY_CI_REPORT), PLAIN, "aws", runId);
      q.ids == map[] && q.report.errors == 1 && q.s == s
  {
    Lowered();
    DefaultRejected();
    assert TaggedAs(s, Server(0), PLAIN, "aws");
    assert map["size" := Str("large")] + map[] == map["size" := Str("large")];
    ReplyForStored(s, PLAIN, "aws", runId, Server(0));
    RefusedChangesNothing(s, PLAIN, "aws", runId);
  }

  lemma NoPlainStale(s: State)
    requires s.cis.Keys == {} || StoredPlain(s)
    ensures StaleItems(s, Group("server", [PLAIN]), "aws") == {}
  {
    assert Wanted([PLAIN], "a") by {
      assert PLAIN in [PLAIN];
    }
  }

  const ONE_SERVER: IdMap := map[("server", "a") := 0]

  lemma SelfLinkAccepted(s: State, runId: string, depth: nat)
    requires StoredPlain(s) && s.edges.Keys == {}
    ensures Verdict(s, RequestFor(SELF_LINK, ONE_SERVER, "aws", runId), depth).None?
  {
    assert Lower("self") == "self";
    Lowered();
    assert Server(0) in s.cis;
  }

  /** The lone edge is stored under its own key, so the deleting loop leaves it. */
  lemma LoneEdgeStays(s: State, e: EdgeRef, ids: IdMap, source: string, runId: string, depth: nat)
    requires RegistrySound(s) && s.edges.Keys == {} && Resolved(e, ids) && Lower(e.relType) == e.relType
    requires Verdict(s, RequestFor(e, ids, source, runId), depth).None?
    ensures var q := EdgePass(s, [e], ids, source, runId, depth);
      && q.report.created == 1 && q.report.deleted == 0
      && q.s.edges.Keys == {s.nextId} && q.s.edges[s.nextId].source == Some(source)
  {
    var start := EdgePassState(s, EMPTY_REL_REPORT);
    WantOne(start, e, ids, source, runId, depth);
    WantAccepted(start, e, ids, source, runId, depth);
    LoneKey(e, ids);
    var w := WantAll(start, [e], ids, source, runId, depth).s;
    assert StaleEdges(w.edges, source, DesiredKeys([e], ids)) == {};
  }

  lemma SelfLinkCreated(s: State, runId: string, depth: nat)
    requires StoredPlain(s) && s.edges.Keys == {} && s.nextId == 1 && Integrity(s, depth)
    ensures var q := EdgePass(s, [SELF_LINK], ONE_SERVER, "aws", runId, depth);
      && q.report.created == 1 && StoredPlain(q.s) && q.s.edges.Keys == {1} && q.s.edges[1].source == Some("aws")
  {
    assert Lower("self") == "self";
    SelfLinkAccepted(s, runId, depth);
    LoneEdgeStays(s, SELF_LINK, ONE_SERVER, "aws", runId, depth);
    EdgePassLeavesItems(s, [SELF_LINK], ONE_SERVER, "aws", runId, depth);
    PassKeeps(s, [SELF_LINK], ONE_SERVER, "aws", runId, depth);
  }

  lemma UnresolvedLinkDropped(s: State, runId: string, depth: nat)
    requires s.edges.Keys == {1} && s.edges[1].source == Some("aws")
    ensures var q := EdgePass(s, [SELF_LINK], map[], "aws", runId, depth);
      q.report.deleted == 1 && |q.report.errors| == 1 && q.s.edges.Keys == {}
  {
    var start := EdgePassState(s, EMPTY_REL_REPORT);
    WantOne(start, SELF_LINK, map[], "aws", runId, depth);
    assert DesiredKeys([SELF_LINK], map[]) == {};
    assert StaleEdges(s.edges, "aws", {}) == {1};
  }

  lemma StaysStoredPlain(s: State, t: State)
    requires StoredPlain(s) && SameShape(s, t)
    ensures StoredPlain(t)
  {
  }

  lemma FirstBadItems(s: State, delete: bool, depth: nat)
    requires Resolve(s, "self") == Some(SELF) && s.types == map["server" := TypeDef(BAD, 1)]
    requires s.cis.Keys == {} && s.edges.Keys == {} && s.nextId == 0 && Integrity(s, depth)
    ensures var p := CiPass(s, [PLAIN], "aws", "run1", delete);
      && p.ids == ONE_SERVER && p.report.created == 1 && p.report.errors == 0
      && StoredPlain(p.s) && p.s.edges.Keys == {} && p.s.nextId == 1 && Integrity(p.s, depth)
  {
    var q := ApplyItem(Pass(s, map[], EMPTY_CI_REPORT), PLAIN, "aws", "run1");
    NoPlainStale(s);
    OneItemHalf(s, PLAIN, "aws", "run1", delete);
    PlainCreated(s, "run1");
    StaysStoredPlain(q.s, CiPass(s, [PLAIN], "aws", "run1", delete).s);
    CiPassStaysConfined(s, [PLAIN], "aws", "run1", delete, depth);
  }

  lemma FirstBadRun(s: State, delete: bool, depth: nat)
    requires Resolve(s, "self") == Some(SELF) && s.types == map["server" := TypeDef(BAD, 1)]
    requires s.cis.Keys == {} && s.edges.Keys == {} && s.nextId == 0 && Integrity(s, depth)
    ensures var one := Reconcile(s, LINKED, "aws", "run1", delete, depth);
      && one.items.created == 1 && one.items.errors == 0 && one.edges.created == 1
      && StoredPlain(one.s) && one.s.edges.Keys == {1} && one.s.edges[1].source == Some("aws")
  {
    var p := CiPass(s, [PLAIN], "aws", "run1", delete);
    FirstBadItems(s, delete, depth);
    SelfLinkCreated(p.s, "run1", depth);
  }

  lemma SecondBadRun(s: State, delete: bool, depth: nat)
    requires StoredPlain(s) && TagsUnique(s) && s.edges.Keys == {1} && s.edges[1].source == Some("aws")
    ensures var two := Reconcile(s, LINKED, "aws", "run2", delete, depth);
      two.ids == map[] && two.items.errors == 1 && two.edges.deleted == 1 && two.s.edges.Keys == {}
  {
    NoPlainStale(s);
    OneItemHalf(s, PLAIN, "aws", "run2", delete);
    PlainRefused(s, "run2");
    UnresolvedLinkDropped(CiPass(s, [PLAIN], "aws", "run2", delete).s, "run2", depth);
  }

  lemma BadRuns(s: State, delete: bool, depth: nat)
    requires Resolve(s, "self") == Some(SELF) && s.types == map["server" := TypeDef(BAD, 1)]
    requires s.cis.Keys == {} && s.edges.Keys == {} && s.nextId == 0 && Integrity(s, depth)
    ensures var one := Reconcile(s, LINKED, "aws", "run1", delete, depth);
      var two := Reconcile(one.s, LINKED, "aws", "run2", delete, depth);
      && one.items.created == 1 && one.items.errors == 0 && one.edges.created == 1
      && two.items.errors == 1 && two.edges.deleted == 1 && two.s.edges.Keys == {}
  {
    FirstBadRun(s, delete, depth);
    RunConfinesItself(s, LINKED, "aws", "run1", delete, depth);
    SecondBadRun(Reconcile(s, LINKED, "aws", "run1", delete, depth).s, delete, depth);
  }

  lemma BadDefaultIsBad(s: State)
    requires s.types == map["server" := TypeDef(BAD, 1)]
    ensures !GoodTypes(s) && Canonical(LINKED.relationships)
  {
    assert Lower("self") == "self";
    assert !AcceptsDefault(BAD["size"]);
    assert "server" in s.types;
  }

  /**
   The hypothesis that types accept their own defaults is needed: with a default its field rejects, the first run
   creates the item and its edge, and the second reports the item as an error and deletes the edge.
   */
  lemma BadDefaultLosesEdge(delete: bool, depth: nat)
    ensures var s := Run(EMPTY, BadTypes(), depth);
      var one := Reconcile(s, LINKED, "aws", "run1", delete, depth);
      var two := Reconcile(one.s, LINKED, "aws", "run2", delete, depth);
      && Integrity(s, depth) && Canonical(LINKED.relationships) && !GoodTypes(s)
      && one.items.created == 1 && one.items.errors == 0 && one.edges.created == 1
      && two.items.errors == 1 && two.edges.deleted == 1 && two.s.edges.Keys == {}
  {
    var s := Run(EMPTY, BadTypes(), depth);
    BadTypesRun(depth);
    BadDefaultIsBad(s);
    BadRuns(s, delete, depth);
  }
}
