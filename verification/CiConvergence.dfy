/**
 What the item half of a discovery run guarantees: integrity, framing, exact sweeping, accounting and quiet re-runs.
 */
module CiConvergence {
  import opened Prelude
  import opened Walks
  import opened Schema
  import opened Inventory
  import opened GraphIntegrity
  import opened EdgeReconciliation
  import opened CiReconciliation

  // ------------------------------------------------------------ one upsert

  ghost function ReplyTo(s: State, it: Item, source: string, runId: string): Reply<(nat, Upsert)> {
    ApplyDiscovery(s, it.ciType, it.data, source, it.extId, runId).1
  }

  ghost predicate TaggedAs(s: State, n: Node, it: Item, source: string) {
    Tagged(s, n, it.ciType, source, it.extId)
  }

  /** Everything but the items themselves and their records is the same. */
  ghost predicate SameSetting(s: State, t: State) {
    t.types == s.types && t.relTypes == s.relTypes && t.relCache == s.relCache && t.edges == s.edges
  }

  /** Only items carrying the tag of `it` may differ. */
  ghost predicate OnlyTagged(s: State, t: State, it: Item, source: string) {
    && SameSetting(s, t)
    && s.nextId <= t.nextId
    && (forall n | n in s.cis ::
          n in t.cis && (t.cis[n] == s.cis[n] || (TaggedAs(s, n, it, source) && TaggedAs(t, n, it, source))))
    && (forall n | n in t.cis && n !in s.cis :: TaggedAs(t, n, it, source) && n.oid >= s.nextId)
  }

  lemma RefreshOnlyTagged(s: State, node: Node, it: Item, merged: Option<Doc>, current: Option<Doc>, version: nat,
                          source: string, runId: string)
    requires TaggedAs(s, node, it, source)
    ensures OnlyTagged(s, RefreshWith(s, node, merged, current, version,
        Seen(s.cis[node].prov, source, it.extId, runId)).0, it, source)
  {
    var seen := Seen(s.cis[node].prov, source, it.extId, runId);
    var t := RefreshWith(s, node, merged, current, version, seen).0;
    RefreshTouchesOnlyItem(s, node, merged, current, version, seen);
    assert TaggedAs(t, node, it, source);
  }

  /** An upsert leaves alone whatever does not carry the tag of its item. */
  lemma UpsertOnlyTagged(s: State, it: Item, source: string, runId: string)
    requires IdsFresh(s)
    ensures OnlyTagged(s, ApplyDiscovery(s, it.ciType, it.data, source, it.extId, runId).0, it, source)
  {
    FindTaggedSound(s, it.ciType, source, it.extId);
    var def := FindType(s, it.ciType);
    var found := FindTagged(s, it.ciType, source, it.extId);
    if def.Some? {
      if found.Some? {
        var ci := s.cis[found.value];
        RefreshOnlyTagged(s, found.value, it, Validate(def.value.model, ci.fields + it.data),
                          Validate(def.value.model, ci.fields),
                          def.value.version, source, runId);
      } else {
        var valid := Validate(def.value.model, it.data);
        if valid.Some? {
          InsertOnlyTagged(s, it, Ci(valid.value, 1, def.value.version, Seen(NO_PROVENANCE, source, it.extId, runId)),
                           source);
        }
      }
    }
  }

  lemma InsertOnlyTagged(s: State, it: Item, ci: Ci, source: string)
    requires ci.prov.source == Some(source) && ci.prov.extId == Some(it.extId)
    requires forall n :: !TaggedAs(s, n, it, source)
    requires IdsFresh(s)
    ensures OnlyTagged(s, InsertCi(s, it.ciType, ci), it, source)
  {
    var t := InsertCi(s, it.ciType, ci);
    assert t.cis == s.cis[Node(it.ciType, s.nextId) := ci];
  }

  // ------------------------------------------------------------ settled items

  /** The stored item carrying the tag of `it`, if any, is the same one with the same fields in both states. */
  ghost predicate SameKnown(s: State, t: State, it: Item, source: string) {
    && (forall n :: TaggedAs(s, n, it, source) <==> TaggedAs(t, n, it, source))
    && (forall n | TaggedAs(s, n, it, source) :: t.cis[n].fields == s.cis[n].fields)
  }

  lemma FoundIsTheOne(s: State, it: Item, source: string, n: Node)
    requires TagsUnique(s) && TaggedAs(s, n, it, source)
    ensures FindTagged(s, it.ciType, source, it.extId) == Some(n)
  {
    FindTaggedSound(s, it.ciType, source, it.extId);
  }

  lemma NoneFound(s: State, it: Item, source: string)
    requires forall n :: !TaggedAs(s, n, it, source)
    ensures FindTagged(s, it.ciType, source, it.extId) == None
  {
    FindTaggedSound(s, it.ciType, source, it.extId);
    var found := FindTagged(s, it.ciType, source, it.extId);
    assert found.Some? ==> TaggedAs(s, found.value, it, source);
  }

  /** The reply for a stored item, by its fields. */
  function RefreshReply(model: Model, fields: Doc, data: Doc): Reply<Upsert> {
    var merged, current := Validate(model, fields + data), Validate(model, fields);
    if merged.None? || current.None? then Err(ValidationFailed)
    else if merged == current then Ok(Unchanged)
    else Ok(Updated)
  }

  lemma ReplyForStored(s: State, it: Item, source: string, runId: string, n: Node)
    requires TagsUnique(s) && TaggedAs(s, n, it, source)
    ensures ReplyTo(s, it, source, runId) ==
            if FindType(s, it.ciType).None? then Err(NotFound)
            else match RefreshReply(FindType(s, it.ciType).value.model, s.cis[n].fields, it.data)
                 case Ok(action) => Ok((n.oid, action))
                 case Err(error) => Err(error)
  {
    FoundIsTheOne(s, it, source, n);
  }

  lemma ReplyForAbsent(s: State, it: Item, source: string, runId: string)
    requires forall n :: !TaggedAs(s, n, it, source)
    ensures ReplyTo(s, it, source, runId) ==
            if FindType(s, it.ciType).None? then Err(NotFound)
            else if Validate(FindType(s, it.ciType).value.model, it.data).None? then Err(ValidationFailed)
            else Ok((s.nextId, Created))
  {
    NoneFound(s, it, source);
  }

  /** Asking again would change nothing: the item is known under the id in `ids` and unchanged, or it is refused. */
  ghost predicate Settled(s: State, it: Item, source: string, ids: IdMap) {
    forall runId :: if (it.ciType, it.extId) in ids then ReplyTo(s, it, source, runId) ==
        Ok((ids[(it.ciType, it.extId)], Unchanged))
                    else ReplyTo(s, it, source, runId).Err?
  }

  lemma SettledCarriesOver(s: State, t: State, it: Item, source: string, ids: IdMap, ids': IdMap)
    requires TagsUnique(s) && TagsUnique(t) && t.types == s.types && SameKnown(s, t, it, source)
    requires Settled(s, it, source, ids)
    requires (it.ciType, it.extId) in ids <==> (it.ciType, it.extId) in ids'
    requires (it.ciType, it.extId) in ids ==> ids'[(it.ciType, it.extId)] == ids[(it.ciType, it.extId)]
    ensures Settled(t, it, source, ids')
  {
    forall runId
      ensures if (it.ciType, it.extId) in ids'
              then ReplyTo(t, it, source, runId) == Ok((ids'[(it.ciType, it.extId)], Unchanged))
              else ReplyTo(t, it, source, runId).Err?
    {
      assert if (it.ciType, it.extId) in ids
             then ReplyTo(s, it, source, runId) == Ok((ids[(it.ciType, it.extId)], Unchanged))
             else ReplyTo(s, it, source, runId).Err?;
      if exists n :: TaggedAs(s, n, it, source) {
        var n :| TaggedAs(s, n, it, source);
        ReplyForStored(s, it, source, runId, n);
        ReplyForStored(t, it, source, runId, n);
      } else {
        ReplyForAbsent(s, it, source, runId);
        ReplyForAbsent(t, it, source, runId);
      }
    }
  }

  /** Every field of a registered type accepts its own default. */
  ghost predicate GoodTypes(s: State) {
    forall name | name in s.types :: AcceptsDefaults(s.types[name].model)
  }

  /**
   An item stored with its validated data is unchanged by the same data, exactly when the defaults filled in are
   accepted.
   */
  lemma StoredThenUnchangedIff(model: Model, current: Doc, data: Doc)
    requires Validate(model, current + data).Some?
    ensures var w := Validate(model, current + data).value;
      && current + w == w
      && RefreshReply(model, w, data) ==
          if FillsWell(model, current + data) then Ok(Unchanged) else Err(ValidationFailed)
  {
    OverlaidAgainIff(model, current, data);
  }

  /**
   A new item is found unchanged when the same data comes again exactly when each default it was filled with is
   accepted by its field; otherwise the stored item itself no longer validates and every later run reports it as an
   error.
   */
  lemma CreatedIsUnchangedIff(s: State, it: Item, source: string, runId: string, runId': string)
    requires TagsUnique(s) && IdsFresh(s)
    requires forall n :: !TaggedAs(s, n, it, source)
    requires ReplyTo(s, it, source, runId).Ok?
    ensures var t := ApplyDiscovery(s, it.ciType, it.data, source, it.extId, runId).0;
      ReplyTo(t, it, source, runId') ==
        if FillsWell(FindType(s, it.ciType).value.model, it.data) then Ok((s.nextId, Unchanged))
        else Err(ValidationFailed)
  {
    NoneFound(s, it, source);
    ReplyForAbsent(s, it, source, runId);
    var def := FindType(s, it.ciType).value;
    var data := Validate(def.model, it.data).value;
    var ci := Ci(data, 1, def.version, Seen(NO_PROVENANCE, source, it.extId, runId));
    var t := InsertCi(s, it.ciType, ci);
    assert ApplyDiscovery(s, it.ciType, it.data, source, it.extId, runId).0 == t;
    InsertedIsTheOne(s, it, ci, source);
    assert map[] + it.data == it.data;
    StoredThenUnchangedIff(def.model, map[], it.data);
    ReplyForStored(t, it, source, runId', Node(it.ciType, s.nextId));
  }

  /** A freshly inserted item is the only one with its tag. */
  lemma InsertedIsTheOne(s: State, it: Item, ci: Ci, source: string)
    requires TagsUnique(s) && IdsFresh(s)
    requires ci.prov.source == Some(source) && ci.prov.extId == Some(it.extId)
    requires forall n :: !TaggedAs(s, n, it, source)
    ensures var t := InsertCi(s, it.ciType, ci);
      var node := Node(it.ciType, s.nextId);
      TagsUnique(t) && TaggedAs(t, node, it, source) && t.types == s.types && t.cis[node] == ci
  {
    var t := InsertCi(s, it.ciType, ci);
    var node := Node(it.ciType, s.nextId);
    assert forall n :: Tagged(s, n, it.ciType, source, it.extId) ==> TaggedAs(s, n, it, source);
    NewTagStaysUnique(s, node, ci);
    assert t.cis == s.cis[node := ci];
  }

  lemma CreatedIsSettled(s: State, it: Item, source: string, runId: string)
    requires TagsUnique(s) && IdsFresh(s) && GoodTypes(s)
    requires forall n :: !TaggedAs(s, n, it, source)
    requires ReplyTo(s, it, source, runId).Ok?
    ensures var t := ApplyDiscovery(s, it.ciType, it.data, source, it.extId, runId).0;
      forall runId' :: ReplyTo(t, it, source, runId') == Ok((s.nextId, Unchanged))
  {
    ReplyForAbsent(s, it, source, runId);
    var t := ApplyDiscovery(s, it.ciType, it.data, source, it.extId, runId).0;
    forall runId'
      ensures ReplyTo(t, it, source, runId') == Ok((s.nextId, Unchanged))
    {
      CreatedIsUnchangedIff(s, it, source, runId, runId');
    }
  }

  lemma RefreshedIsSettled(s: State, it: Item, source: string, runId: string, node: Node)
    requires TagsUnique(s) && GoodTypes(s) && TaggedAs(s, node, it, source)
    requires ReplyTo(s, it, source, runId).Ok?
    ensures var t := ApplyDiscovery(s, it.ciType, it.data, source, it.extId, runId).0;
      && TagsUnique(t) && TaggedAs(t, node, it, source)
      && ReplyTo(s, it, source, runId).value.0 == node.oid
      && forall runId' :: ReplyTo(t, it, source, runId') == Ok((node.oid, Unchanged))
  {
    FoundIsTheOne(s, it, source, node);
    ReplyForStored(s, it, source, runId, node);
    var def := FindType(s, it.ciType).value;
    var ci := s.cis[node];
    var merged, current := Validate(def.model, ci.fields + it.data), Validate(def.model, ci.fields);
    var seen := Seen(ci.prov, source, it.extId, runId);
    var t := ApplyDiscovery(s, it.ciType, it.data, source, it.extId, runId).0;
    assert t == RefreshWith(s, node, merged, current, def.version, seen).0;
    RefreshTouchesOnlyItem(s, node, merged, current, def.version, seen);
    StoredThenUnchangedIff(def.model, ci.fields, it.data);
    RefreshedFields(s, node, merged, current, def.version, seen);
    assert TaggedAs(t, node, it, source);
    RetagKeepsUnique(s, t, node);
    forall runId'
      ensures ReplyTo(t, it, source, runId') == Ok((node.oid, Unchanged))
    {
      ReplyForStored(t, it, source, runId', node);
    }
  }

  lemma RefreshedFields(s: State, node: Node, merged: Option<Doc>, current: Option<Doc>, version: nat, seen: Provenance)
    requires node in s.cis && merged.Some? && current.Some?
    ensures var t := RefreshWith(s, node, merged, current, version, seen).0;
      && node in t.cis && t.cis[node].prov == seen
      && t.cis[node].fields == if merged == current then s.cis[node].fields else s.cis[node].fields + merged.value
  {
  }

  lemma RetagKeepsUnique(s: State, t: State, node: Node)
    requires TagsUnique(s) && OnlyItem(s, t, node)
    requires t.cis[node].prov.source == s.cis[node].prov.source && t.cis[node].prov.extId == s.cis[node].prov.extId
    ensures TagsUnique(t)
  {
  }

  lemma RefusedChangesNothing(s: State, it: Item, source: string, runId: string)
    requires ReplyTo(s, it, source, runId).Err?
    ensures ApplyDiscovery(s, it.ciType, it.data, source, it.extId, runId).0 == s
  {
    FindTaggedSound(s, it.ciType, source, it.extId);
  }

  /** An upsert settles its item, whatever the outcome. */
  lemma UpsertSettles(p: Pass, it: Item, source: string, runId: string)
    requires TagsUnique(p.s) && IdsFresh(p.s) && GoodTypes(p.s) && (it.ciType, it.extId) !in p.ids
    ensures var q := ApplyItem(p, it, source, runId); Settled(q.s, it, source, q.ids)
  {
    var q := ApplyItem(p, it, source, runId);
    if ReplyTo(p.s, it, source, runId).Err? {
      RefusedChangesNothing(p.s, it, source, runId);
      RefusedStaysRefused(p.s, it, source, runId);
    } else if exists n :: TaggedAs(p.s, n, it, source) {
      var n :| TaggedAs(p.s, n, it, source);
      RefreshedIsSettled(p.s, it, source, runId, n);
    } else {
      ReplyForAbsent(p.s, it, source, runId);
      CreatedIsSettled(p.s, it, source, runId);
    }
  }

  lemma RefusedStaysRefused(s: State, it: Item, source: string, runId: string)
    requires TagsUnique(s) && ReplyTo(s, it, source, runId).Err?
    ensures forall runId' :: ReplyTo(s, it, source, runId').Err?
  {
    forall runId'
      ensures ReplyTo(s, it, source, runId').Err?
    {
      if exists n :: TaggedAs(s, n, it, source) {
        var n :| TaggedAs(s, n, it, source);
        ReplyForStored(s, it, source, runId, n);
        ReplyForStored(s, it, source, runId', n);
      } else {
        ReplyForAbsent(s, it, source, runId);
        ReplyForAbsent(s, it, source, runId');
      }
    }
  }

  /** What an upsert answers tells whether its item is stored afterwards. */
  lemma UpsertStores(s: State, it: Item, source: string, runId: string)
    requires TagsUnique(s) && IdsFresh(s)
    ensures var t := ApplyDiscovery(s, it.ciType, it.data, source, it.extId, runId).0;
      var reply := ReplyTo(s, it, source, runId);
      && (reply.Ok? ==> TaggedAs(t, Node(it.ciType, reply.value.0), it, source))
      && (reply.Err? ==> t == s)
  {
    if ReplyTo(s, it, source, runId).Err? {
      RefusedChangesNothing(s, it, source, runId);
    } else if exists n :: TaggedAs(s, n, it, source) {
      var n :| TaggedAs(s, n, it, source);
      FoundIsTheOne(s, it, source, n);
      ReplyForStored(s, it, source, runId, n);
      UpsertOnlyTagged(s, it, source, runId);
    } else {
      NoneFound(s, it, source);
      ReplyForAbsent(s, it, source, runId);
      var def := FindType(s, it.ciType).value;
      InsertedIsTheOne(s, it, Ci(Validate(def.model, it.data).value, 1, def.version,
          Seen(NO_PROVENANCE, source, it.extId, runId)), source);
    }
  }

  /** Two different items of a snapshot do not disturb each other. */
  lemma UpsertLeavesOther(s: State, t: State, it: Item, other: Item, source: string)
    requires OnlyTagged(s, t, it, source) && !SameKey(it, other)
    ensures SameKnown(s, t, other, source)
  {
  }
}
