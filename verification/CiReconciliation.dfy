/** The item half of a discovery run: upsert what the snapshot holds, then sweep what the source no longer reports. */
module CiReconciliation {
  import opened Prelude
  import opened Walks
  import opened Schema
  import opened Inventory
  import opened GraphIntegrity
  import opened EdgeReconciliation

  datatype Item = Item(ciType: string, extId: string, data: Doc)

  /** The desired items of one type, at most one per external id, in order of first appearance. */
  datatype Group = Group(ciType: string, items: seq<Item>)

  datatype CiReport = CiReport(created: nat, updated: nat, unmodified: nat, deleted: nat, markedMissing: nat,
                               errors: nat)

  const EMPTY_CI_REPORT := CiReport(0, 0, 0, 0, 0, 0)

  // ------------------------------------------------------------ grouping

  /** Assignment into a dictionary keyed by external id: a repeated key keeps its place and takes the later value. */
  function PutItem(items: seq<Item>, it: Item): seq<Item> {
    if items == [] then [it]
    else if items[0].extId == it.extId then [it] + items[1..]
    else [items[0]] + PutItem(items[1..], it)
  }

  function AddItem(groups: seq<Group>, it: Item): seq<Group> {
    if groups == [] then [Group(it.ciType, [it])]
    else if groups[0].ciType == it.ciType then [Group(it.ciType, PutItem(groups[0].items, it))] + groups[1..]
    else [groups[0]] + AddItem(groups[1..], it)
  }

  function Grouped(items: seq<Item>): seq<Group> {
    if items == [] then [] else AddItem(Grouped(items[..|items| - 1]), items[|items| - 1])
  }

  predicate GroupOk(g: Group) {
    && (forall i | 0 <= i < |g.items| :: g.items[i].ciType == g.ciType)
    && (forall i, j | 0 <= i < j < |g.items| :: g.items[i].extId != g.items[j].extId)
  }

  predicate GroupsOk(groups: seq<Group>) {
    && (forall g | g in groups :: GroupOk(g))
    && (forall i, j | 0 <= i < j < |groups| :: groups[i].ciType != groups[j].ciType)
  }

  predicate Holds(groups: seq<Group>, it: Item) {
    exists g | g in groups :: it in g.items
  }

  lemma {:induction false} PutItemKeys(items: seq<Item>, it: Item, t: string)
    requires it.ciType == t && forall i | 0 <= i < |items| :: items[i].ciType == t
    requires forall i, j | 0 <= i < j < |items| :: items[i].extId != items[j].extId
    ensures GroupOk(Group(t, PutItem(items, it)))
    ensures forall x :: x in PutItem(items, it) <==> x == it || (x in items && x.extId != it.extId)
  {
    if items != [] && items[0].extId != it.extId {
      PutItemKeys(items[1..], it, t);
      var rest := PutItem(items[1..], it);
      forall i | 0 <= i < |rest|
        ensures rest[i].extId != items[0].extId
      {
        assert rest[i] in rest;
      }
    }
  }

  predicate SameKey(x: Item, y: Item) {
    x.ciType == y.ciType && x.extId == y.extId
  }

  lemma HoldsCons(g: Group, rest: seq<Group>, it: Item)
    ensures Holds([g] + rest, it) <==> it in g.items || Holds(rest, it)
  {
    assert forall x :: x in [g] + rest <==> x == g || x in rest;
  }

  lemma {:induction false} AddItemKeys(groups: seq<Group>, it: Item)
    requires GroupsOk(groups)
    ensures GroupsOk(AddItem(groups, it))
    ensures forall x :: Holds(AddItem(groups, it), x) <==> x == it || (Holds(groups, x) && !SameKey(x, it))
    ensures forall g | g in AddItem(groups, it) :: g.ciType == it.ciType || g in groups
  {
    if groups != [] {
      var first, rest := groups[0], groups[1..];
      assert groups == [first] + rest && GroupOk(first);
      assert GroupsOk(rest);
      if first.ciType == it.ciType {
        PutItemKeys(first.items, it, it.ciType);
        var first' := Group(it.ciType, PutItem(first.items, it));
        forall x
          ensures Holds(AddItem(groups, it), x) <==> x == it || (Holds(groups, x) && !SameKey(x, it))
        {
          HoldsCons(first, rest, x);
          HoldsCons(first', rest, x);
          OtherGroups(groups, x);
        }
      } else {
        AddItemKeys(rest, it);
        var rest' := AddItem(rest, it);
        forall i | 0 <= i < |rest'|
          ensures rest'[i].ciType != first.ciType
        {
          assert rest'[i] in rest';
        }
        forall x
          ensures Holds(AddItem(groups, it), x) <==> x == it || (Holds(groups, x) && !SameKey(x, it))
        {
          HoldsCons(first, rest, x);
          HoldsCons(first, rest', x);
        }
      }
    }
  }

  /** An item sits only in the group of its own type. */
  lemma OtherGroups(groups: seq<Group>, x: Item)
    requires GroupsOk(groups) && groups != []
    ensures Holds(groups[1..], x) ==> x.ciType != groups[0].ciType
  {
    if Holds(groups[1..], x) {
      var g :| g in groups[1..] && x in g.items;
      assert g in groups && GroupOk(g);
    }
  }

  /** The last item given for a type and external id. */
  ghost predicate LastOf(items: seq<Item>, it: Item) {
    exists i | 0 <= i < |items| :: LastAt(items, i, it)
  }

  ghost predicate LastAt(items: seq<Item>, i: nat, it: Item)
    requires i < |items|
  {
    items[i] == it && forall j | i < j < |items| :: !SameKey(items[j], it)
  }

  lemma LastOfLonger(earlier: seq<Item>, last: Item, it: Item)
    ensures LastOf(earlier + [last], it) <==> it == last || (LastOf(earlier, it) && !SameKey(it, last))
  {
    var items := earlier + [last];
    var n := |earlier|;
    if LastOf(items, it) {
      var i :| 0 <= i < |items| && LastAt(items, i, it);
      if i < n {
        assert items[n] == last;
        forall j | i < j < n
          ensures !SameKey(earlier[j], it)
        {
          assert items[j] == earlier[j];
        }
        assert LastAt(earlier, i, it);
      }
    }
    if LastOf(earlier, it) && !SameKey(it, last) {
      var i :| 0 <= i < n && LastAt(earlier, i, it);
      assert LastAt(items, i, it);
    }
    if it == last {
      assert LastAt(items, n, it);
    }
  }

  /** Grouping keeps, for each type and external id, exactly the last item given. */
  lemma {:induction false} GroupedKeepsLast(items: seq<Item>)
    ensures GroupsOk(Grouped(items))
    ensures forall it :: Holds(Grouped(items), it) <==> LastOf(items, it)
  {
    if items != [] {
      var n := |items| - 1;
      var earlier, last := items[..n], items[n];
      assert items == earlier + [last];
      GroupedKeepsLast(earlier);
      AddItemKeys(Grouped(earlier), last);
      forall it
        ensures Holds(Grouped(items), it) <==> LastOf(items, it)
      {
        LastOfLonger(earlier, last, it);
      }
    }
  }

  // ------------------------------------------------------------ the pass

  datatype Pass = Pass(s: State, ids: IdMap, report: CiReport)

  function Bump(r: CiReport, action: Upsert): CiReport {
    match action
    case Created => r.(created := r.created + 1)
    case Updated => r.(updated := r.updated + 1)
    case Unchanged => r.(unmodified := r.unmodified + 1)
  }

  ghost function ApplyItem(p: Pass, it: Item, source: string, runId: string): Pass {
    var (s', reply) := ApplyDiscovery(p.s, it.ciType, it.data, source, it.extId, runId);
    match reply
    case Ok((id, action)) => Pass(s', p.ids[(it.ciType, it.extId) := id], Bump(p.report, action))
    case Err(_) => Pass(s', p.ids, p.report.(errors := p.report.errors + 1))
  }

  ghost function ApplyItems(p: Pass, items: seq<Item>, source: string, runId: string): Pass {
    if items == [] then p
    else ApplyItem(ApplyItems(p, items[..|items| - 1], source, runId), items[|items| - 1], source, runId)
  }

  /** The items of one type the source owns under an external id. */
  function SourceItems(s: State, ciType: string, source: string): set<Node> {
    set n | n in s.cis && n.ciType == ciType && Owned(s.cis[n], source) && s.cis[n].prov.extId.Some?
  }

  predicate Wanted(items: seq<Item>, extId: string) {
    exists it | it in items :: it.extId == extId
  }

  function StaleItems(s: State, g: Group, source: string): set<Node> {
    set n | n in SourceItems(s, g.ciType, source) && n in s.cis && s.cis[n].prov.extId.Some? &&
        !Wanted(g.items, s.cis[n].prov.extId.value)
  }

  /** Deletes or flags the stale items. Deleting needs the type to be registered, flagging does not. */
  function Sweep(p: Pass, ciType: string, stale: set<Node>, runId: string, delete: bool): Pass {
    if delete then
      if FindType(p.s, ciType).None? then p.(report := p.report.(errors := p.report.errors + |stale|))
      else Pass(RemoveCis(p.s, stale), p.ids, p.report.(deleted := p.report.deleted + |stale|))
    else Pass(MarkAllMissing(p.s, stale, runId), p.ids, p.report.(markedMissing := p.report.markedMissing + |stale|))
  }

  ghost function GroupPass(p: Pass, g: Group, source: string, runId: string, delete: bool): Pass {
    Sweep(ApplyItems(p, g.items, source, runId), g.ciType, StaleItems(p.s, g, source), runId, delete)
  }

  ghost function GroupPasses(p: Pass, groups: seq<Group>, source: string, runId: string, delete: bool): Pass {
    if groups == [] then p
    else GroupPass(GroupPasses(p, groups[..|groups| - 1], source, runId, delete), groups[|groups| - 1], source, runId,
                   delete)
  }

  ghost function CiPass(s: State, items: seq<Item>, source: string, runId: string, delete: bool): Pass {
    GroupPasses(Pass(s, map[], EMPTY_CI_REPORT), Grouped(items), source, runId, delete)
  }
}
