/**
 Creates under an Idempotency-Key: the record store, and every interleaving of the steps of any number of create
 requests, including aborted commits, commits whose acknowledgement is lost, requests that crash anywhere, and records
 that expire.
 */
module IdempotentCreate {
  import opened Prelude

  datatype Record = Pending | Finished(response: nat)

  function RecordKey(scope: string, key: string): string {
    scope + ":" + key
  }

  /** Type names contain no colon, so different types or keys never share a record. */
  lemma RecordKeyInjective(scope: string, key: string, scope': string, key': string)
    requires ':' !in scope && ':' !in scope'
    requires RecordKey(scope, key) == RecordKey(scope', key')
    ensures scope == scope' && key == key'
  {
    var k := RecordKey(scope, key);
    assert k[|scope|] == ':' && k[|scope'|] == ':';
    forall i | 0 <= i < |scope|
      ensures k[i] != ':'
    {
      assert k[i] == scope[i] && scope[i] in scope;
    }
    forall i | 0 <= i < |scope'|
      ensures k[i] != ':'
    {
      assert k[i] == scope'[i] && scope'[i] in scope';
    }
    assert scope == k[..|scope|] && scope' == k[..|scope'|];
    assert key == k[|scope| + 1..] && key' == k[|scope'| + 1..];
  }

  // ------------------------------------------------------------ the record store

  type Records = map<string, Record>

  function Claimed(records: Records, k: string): Records {
    if k in records then records else records[k := Pending]
  }

  /** `update_one`: a record that is gone stays gone. */
  function StoredResult(records: Records, k: string, response: nat): Records {
    if k in records then records[k := Finished(response)] else records
  }

  /** Only a pending record is dropped. */
  function Released(records: Records, k: string): Records {
    if k in records && records[k].Pending? then records - {k} else records
  }

  class IdempotencyStore {
    var records: Records

    constructor ()
      ensures records == map[]
    {
      records := map[];
    }

    function Get(scope: string, key: string): (r: Option<Record>)
      reads this
      ensures r.Some? <==> RecordKey(scope, key) in records
      ensures r.Some? ==> r.value == records[RecordKey(scope, key)]
    {
      var k := RecordKey(scope, key);
      if k in records then Some(records[k]) else None
    }

    /** Atomically claims a key; fails if it is taken. */
    method Claim(scope: string, key: string) returns (claimed: bool)
      modifies this
      ensures claimed <==> RecordKey(scope, key) !in old(records)
      ensures records == Claimed(old(records), RecordKey(scope, key))
    {
      var k := RecordKey(scope, key);
      if k in records {
        return false;
      }
      records := records[k := Pending];
      claimed := true;
    }

    method StoreResult(scope: string, key: string, response: nat)
      modifies this
      ensures records == StoredResult(old(records), RecordKey(scope, key), response)
    {
      var k := RecordKey(scope, key);
      if k in records {
        records := records[k := Finished(response)];
      }
    }

    method Release(scope: string, key: string)
      modifies this
      ensures records == Released(old(records), RecordKey(scope, key))
    {
      var k := RecordKey(scope, key);
      if k in records && records[k] == Pending {
        records := records - {k};
      }
    }

    /** What the check before a create decides; `None` means the key has been claimed. */
    method Precheck(scope: string, key: string) returns (replay: Option<nat>, conflict: bool)
      modifies this
      ensures var k := RecordKey(scope, key);
        && records == Claimed(old(records), k)
        && (replay.Some? <==> k in old(records) && old(records)[k].Finished?)
        && (replay.Some? ==> old(records)[k] == Finished(replay.value) && !conflict)
        && (conflict <==> k in old(records) && old(records)[k].Pending?)
    {
      var rec := Get(scope, key);
      if rec.Some? {
        if rec.value.Finished? {
          return Some(rec.value.response), false;
        }
        return None, true;
      }
      var claimed := Claim(scope, key);
      replay, conflict := None, !claimed;
    }
  }

  // ------------------------------------------------------------ interleavings

  datatype Phase =
    | Arrived
    | Claiming
    | LookingAgain
    | Holding
    | Failing
    | Replied(id: nat)
    | Refused
    | Failed
    | Crashed

  /** One create request: the record key it works under and how far it has come. */
  datatype Client = Client(k: string, phase: Phase)

  /** The record store, the items committed so far with the record key each was created under, and the requests. */
  datatype World = World(records: Records, items: map<nat, string>, nextId: nat, clients: map<nat, Client>)

  datatype Step =
    | Begin(client: nat, k: string)
    | LookUp(client: nat)
    | TryClaim(client: nat)
    | LookAgain(client: nat)
    | Commit(client: nat)
    | CommitUnacknowledged(client: nat)
    | Abort(client: nat)
    | Release(client: nat)
    | Crash(client: nat)
    | Expire(k: string)

  function At(w: World, c: nat, phase: Phase): World
    requires c in w.clients
  {
    w.(clients := w.clients[c := w.clients[c].(phase := phase)])
  }

  predicate In(w: World, c: nat, phase: Phase) {
    c in w.clients && w.clients[c].phase == phase
  }

  /** The item and its finished record appear together. */
  function Committed(w: World, k: string): World {
    w.(records := StoredResult(w.records, k, w.nextId), items := w.items[w.nextId := k], nextId := w.nextId + 1)
  }

  function Act(w: World, step: Step): World {
    match step
    case Begin(c, k) => if c in w.clients then w else w.(clients := w.clients[c := Client(k, Arrived)])
    case LookUp(c) =>
      if !In(w, c, Arrived) then w
      else
        var k := w.clients[c].k;
        if k !in w.records then At(w, c, Claiming)
        else if w.records[k].Finished? then At(w, c, Replied(w.records[k].response))
        else At(w, c, Refused)
    case TryClaim(c) =>
      if !In(w, c, Claiming) then w
      else
        var k := w.clients[c].k;
        if k in w.records then At(w, c, LookingAgain)
        else At(w, c, Holding).(records := Claimed(w.records, k))
    case LookAgain(c) =>
      if !In(w, c, LookingAgain) then w
      else
        var k := w.clients[c].k;
        if k in w.records && w.records[k].Finished? then At(w, c, Replied(w.records[k].response))
        else At(w, c, Refused)
    case Commit(c) => if !In(w, c, Holding) then w else At(Committed(w, w.clients[c].k), c, Replied(w.nextId))
    case CommitUnacknowledged(c) => if !In(w, c, Holding) then w else At(Committed(w, w.clients[c].k), c, Failing)
    case Abort(c) => if !In(w, c, Holding) then w else At(w, c, Failing)
    case Release(c) =>
      if !In(w, c, Failing) then w else At(w, c, Failed).(records := Released(w.records, w.clients[c].k))
    case Crash(c) => if c !in w.clients then w else At(w, c, Crashed)
    case Expire(k) => w.(records := w.records - {k})
  }

  const NOBODY := World(map[], map[], 0, map[])

  function After(w: World, steps: seq<Step>): World {
    if steps == [] then w else Act(After(w, steps[..|steps| - 1]), steps[|steps| - 1])
  }

  // ------------------------------------------------------------ the invariant

  /** The client may still commit under its key, or release it. */
  predicate Owner(w: World, c: nat) {
    In(w, c, Holding) || In(w, c, Failing)
  }

  /** Items exist exactly under the finished records that name them. */
  ghost predicate ItemsRecorded(w: World) {
    && (forall id | id in w.items ::
          id < w.nextId && w.items[id] in w.records && w.records[w.items[id]] == Finished(id))
    && (forall k | k in w.records && w.records[k].Finished? ::
          w.records[k].response in w.items && w.items[w.records[k].response] == k)
  }

  /**
   While a key is pending at most one request may act on it; without a pending record nobody can commit under the key.
   */
  ghost predicate OwnersAlone(w: World) {
    && (forall c | In(w, c, Holding) :: w.clients[c].k in w.records && w.records[w.clients[c].k].Pending?)
    && (forall c | In(w, c, Failing) :: w.clients[c].k in w.records)
    && (forall c, d | Owner(w, c) && Owner(w, d) && c != d && w.clients[c].k == w.clients[d].k :: false)
  }

  /** What a client was told is an item committed under its own key. */
  ghost predicate RepliesTrue(w: World) {
    forall c | c in w.clients && w.clients[c].phase.Replied? ::
      w.clients[c].phase.id in w.items && w.items[w.clients[c].phase.id] == w.clients[c].k
  }

  ghost predicate Sound(w: World) {
    ItemsRecorded(w) && OwnersAlone(w) && RepliesTrue(w)
  }

  /** The world once a holder has committed, told of it or not. */
  function AfterCommit(w: World, c: nat, told: bool): World
    requires c in w.clients
  {
    At(Committed(w, w.clients[c].k), c, if told then Replied(w.nextId) else Failing)
  }

  lemma CommitKeepsOwners(w: World, c: nat, told: bool)
    requires Sound(w) && In(w, c, Holding)
    ensures OwnersAlone(AfterCommit(w, c, told))
  {
    var k, t := w.clients[c].k, AfterCommit(w, c, told);
    assert t.records == w.records[k := Finished(w.nextId)];
    forall d | Owner(t, d)
      ensures Owner(w, d) && t.clients[d].k == w.clients[d].k
      ensures d != c ==> t.clients[d] == w.clients[d] && w.clients[d].k != k
    {
    }
  }

  lemma CommitKeepsItems(w: World, c: nat, told: bool)
    requires Sound(w) && In(w, c, Holding)
    ensures ItemsRecorded(AfterCommit(w, c, told)) && RepliesTrue(AfterCommit(w, c, told))
  {
    var k, t := w.clients[c].k, AfterCommit(w, c, told);
    assert t.records == w.records[k := Finished(w.nextId)] && t.items == w.items[w.nextId := k];
    assert forall id | id in w.items :: w.items[id] != k;
  }

  lemma CommitKeepsSound(w: World, c: nat, told: bool)
    requires Sound(w) && In(w, c, Holding)
    ensures Sound(AfterCommit(w, c, told))
  {
    CommitKeepsOwners(w, c, told);
    CommitKeepsItems(w, c, told);
  }

  lemma ReleaseKeepsSound(w: World, c: nat)
    requires Sound(w) && In(w, c, Failing)
    ensures Sound(Act(w, Release(c)))
  {
    var k := w.clients[c].k;
    var t := Act(w, Release(c));
    forall d | Owner(t, d)
      ensures Owner(w, d) && w.clients[d].k != k && t.clients[d] == w.clients[d]
    {
      assert d != c;
    }
    forall id | id in w.items
      ensures w.items[id] in t.records && t.records[w.items[id]] == w.records[w.items[id]]
    {
    }
  }

  lemma ClaimKeepsSound(w: World, c: nat)
    requires Sound(w) && In(w, c, Claiming)
    ensures Sound(Act(w, TryClaim(c)))
  {
    var k := w.clients[c].k;
    var t := Act(w, TryClaim(c));
    forall d | Owner(t, d) && d != c
      ensures Owner(w, d) && t.clients[d] == w.clients[d]
    {
    }
  }

  /** One client moves on to a phase in which it owns no more than before and claims no unknown item. */
  lemma MovingOnKeepsSound(w: World, c: nat, client: Client)
    requires Sound(w)
    requires c in w.clients ==> client.k == w.clients[c].k
    requires client.phase.Holding? || client.phase.Failing? ==> client.phase.Failing? && Owner(w, c)
    requires client.phase.Replied? ==> client.phase.id in w.items && w.items[client.phase.id] == client.k
    ensures Sound(w.(clients := w.clients[c := client]))
  {
    var t := w.(clients := w.clients[c := client]);
    forall d | Owner(t, d)
      ensures Owner(w, d) && t.clients[d].k == w.clients[d].k
    {
    }
  }

  /** A record may go if no item was created under the key and no request may still commit under it or release it. */
  ghost predicate HarmlessExpiry(w: World, k: string) {
    && (forall id | id in w.items :: w.items[id] != k)
    && (forall c | Owner(w, c) :: w.clients[c].k != k)
  }

  lemma HarmlessExpiryKeepsSound(w: World, k: string)
    requires Sound(w) && HarmlessExpiry(w, k)
    ensures Sound(Act(w, Expire(k)))
  {
    var t := Act(w, Expire(k));
    forall c | Owner(t, c)
      ensures Owner(w, c) && w.clients[c].k != k
    {
    }
  }

  /** Any step but the expiry of a record that is still of use. */
  ghost predicate Safe(w: World, step: Step) {
    step.Expire? ==> HarmlessExpiry(w, step.k)
  }

  lemma StepKeepsSound(w: World, step: Step)
    requires Sound(w) && Safe(w, step)
    ensures Sound(Act(w, step))
  {
    match step
    case Begin(c, k) => if c !in w.clients { MovingOnKeepsSound(w, c, Client(k, Arrived)); }
    case LookUp(c) => if In(w, c, Arrived) { MovingOnKeepsSound(w, c, Act(w, step).clients[c]); }
    case TryClaim(c) => if In(w, c, Claiming) { ClaimKeepsSound(w, c); }
    case LookAgain(c) => if In(w, c, LookingAgain) { MovingOnKeepsSound(w, c, Act(w, step).clients[c]); }
    case Commit(c) => if In(w, c, Holding) { CommitKeepsSound(w, c, true); }
    case CommitUnacknowledged(c) => if In(w, c, Holding) { CommitKeepsSound(w, c, false); }
    case Abort(c) => if In(w, c, Holding) { MovingOnKeepsSound(w, c, Client(w.clients[c].k, Failing)); }
    case Release(c) => if In(w, c, Failing) { ReleaseKeepsSound(w, c); }
    case Crash(c) => if c in w.clients { MovingOnKeepsSound(w, c, Client(w.clients[c].k, Crashed)); }
    case Expire(k) => HarmlessExpiryKeepsSound(w, k);
  }

  ghost predicate SafeRun(w: World, steps: seq<Step>) {
    steps != [] ==> SafeRun(w, steps[..|steps| - 1]) && Safe(After(w, steps[..|steps| - 1]), steps[|steps| - 1])
  }

  lemma {:induction false} SafeRunStaysSound(w: World, steps: seq<Step>)
    requires Sound(w) && SafeRun(w, steps)
    ensures Sound(After(w, steps))
  {
    if steps != [] {
      SafeRunStaysSound(w, steps[..|steps| - 1]);
      StepKeepsSound(After(w, steps[..|steps| - 1]), steps[|steps| - 1]);
    }
  }

  /**
   However the steps of any number of creates interleave, fail or crash, while records expire only if they are of no
   more use: at most one item is committed under one key, and every request that is answered with an item is answered
   with that one.
   */
  lemma AtMostOneItemPerKey(steps: seq<Step>)
    requires SafeRun(NOBODY, steps)
    ensures var w := After(NOBODY, steps);
      && (forall i, j | i in w.items && j in w.items && w.items[i] == w.items[j] :: i == j)
      && (forall c, d | c in w.clients && d in w.clients && w.clients[c].k == w.clients[d].k &&
                        w.clients[c].phase.Replied? && w.clients[d].phase.Replied? ::
            w.clients[c].phase.id == w.clients[d].phase.id)
      && (forall c | c in w.clients && w.clients[c].phase.Replied? ::
            w.clients[c].phase.id in w.items && w.items[w.clients[c].phase.id] == w.clients[c].k)
  {
    SafeRunStaysSound(NOBODY, steps);
  }

  lemma OneMoreStep(w: World, steps: seq<Step>, step: Step)
    ensures After(w, steps + [step]) == Act(After(w, steps), step)
  {
    assert (steps + [step])[..|steps|] == steps;
  }

  lemma AbortAndRelease(w: World, c: nat)
    requires Sound(w) && In(w, c, Holding)
    ensures var k := w.clients[c].k;
      var t := Act(Act(w, Abort(c)), Release(c));
      k !in t.records && (forall id | id in t.items :: t.items[id] != k)
  {
    var k := w.clients[c].k;
    var aborted := Act(w, Abort(c));
    assert In(aborted, c, Failing) && aborted.clients[c].k == k && aborted.records == w.records;
    assert w.records[k].Pending?;
  }

  /** A request that fails before committing and releases its claim leaves the key free for the next one. */
  lemma AbortFreesKey(steps: seq<Step>, c: nat)
    requires SafeRun(NOBODY, steps) && In(After(NOBODY, steps), c, Holding)
    ensures var k := After(NOBODY, steps).clients[c].k;
      var t := After(NOBODY, steps + [Abort(c)] + [Release(c)]);
      k !in t.records && (forall id | id in t.items :: t.items[id] != k)
  {
    SafeRunStaysSound(NOBODY, steps);
    OneMoreStep(NOBODY, steps, Abort(c));
    OneMoreStep(NOBODY, steps + [Abort(c)], Release(c));
    AbortAndRelease(After(NOBODY, steps), c);
  }

  // ------------------------------------------------------------ expiry

  lemma {:induction false} AfterAppend(w: World, first: seq<Step>, second: seq<Step>)
    ensures After(w, first + second) == After(After(w, first), second)
  {
    if second == [] {
      assert first + second == first;
    } else {
      var n := |second| - 1;
      AfterAppend(w, first, second[..n]);
      assert first + second == first + second[..n] + [second[n]] && second == second[..n] + [second[n]];
      OneMoreStep(w, first + second[..n], second[n]);
      OneMoreStep(After(w, first), second[..n], second[n]);
    }
  }

  /** A new request gets as far as claiming its key. */
  function Claims(c: nat, k: string): seq<Step> {
    [Begin(c, k)] + [LookUp(c)] + [TryClaim(c)]
  }

  lemma ClaimsRun(w: World, c: nat, k: string)
    requires c !in w.clients && k !in w.records
    ensures After(w, Claims(c, k)) ==
      w.(records := w.records[k := Pending], clients := w.clients[c := Client(k, Holding)])
  {
    OneMoreStep(w, [], Begin(c, k));
    OneMoreStep(w, [Begin(c, k)], LookUp(c));
    OneMoreStep(w, [Begin(c, k)] + [LookUp(c)], TryClaim(c));
    assert [] + [Begin(c, k)] == [Begin(c, k)];
    assert w.clients[c := Client(k, Arrived)][c := Client(k, Claiming)][c := Client(k, Holding)] ==
      w.clients[c := Client(k, Holding)];
  }

  /** A new request that runs to the end without interruption. */
  function Undisturbed(c: nat, k: string): seq<Step> {
    Claims(c, k) + [Commit(c)]
  }

  lemma UndisturbedCommits(w: World, c: nat, k: string)
    requires c !in w.clients && k !in w.records
    ensures var t := After(w, Undisturbed(c, k));
      && t.items == w.items[w.nextId := k] && t.nextId == w.nextId + 1
      && t.clients == w.clients[c := Client(k, Replied(w.nextId))]
  {
    ClaimsRun(w, c, k);
    OneMoreStep(w, Claims(c, k), Commit(c));
    assert w.clients[c := Client(k, Holding)][c := Client(k, Replied(w.nextId))] ==
      w.clients[c := Client(k, Replied(w.nextId))];
  }

  predicate IdsUsedUp(w: World) {
    forall id | id in w.items :: id < w.nextId
  }

  lemma {:induction false} IdsAreUsedUp(steps: seq<Step>)
    ensures IdsUsedUp(After(NOBODY, steps))
  {
    if steps != [] {
      IdsAreUsedUp(steps[..|steps| - 1]);
      StepUsesUpIds(After(NOBODY, steps[..|steps| - 1]), steps[|steps| - 1]);
    }
  }

  lemma StepUsesUpIds(w: World, step: Step)
    requires IdsUsedUp(w)
    ensures IdsUsedUp(Act(w, step))
  {
    var t := Act(w, step);
    if step.Commit? || step.CommitUnacknowledged? {
      assert t == w || t.items == w.items[w.nextId := w.clients[step.client].k];
    }
  }

  ghost predicate TwoItems(w: World, k: string) {
    exists i, j :: i in w.items && j in w.items && i != j && w.items[i] == w.items[j] == k
  }

  /**
   Once the record of a key under which an item exists has expired, the next request with that key creates a second.
   */
  lemma ExpiryAllowsSecondItem(steps: seq<Step>, c: nat, k: string, id: nat)
    requires var w := After(NOBODY, steps); c !in w.clients && id in w.items && w.items[id] == k
    ensures TwoItems(After(NOBODY, steps + [Expire(k)] + Undisturbed(c, k)), k)
  {
    IdsAreUsedUp(steps);
    OneMoreStep(NOBODY, steps, Expire(k));
    AfterAppend(NOBODY, steps + [Expire(k)], Undisturbed(c, k));
    SecondItem(After(NOBODY, steps + [Expire(k)]), c, k, id);
  }

  lemma SecondItem(w: World, c: nat, k: string, id: nat)
    requires IdsUsedUp(w) && c !in w.clients && k !in w.records && id in w.items && w.items[id] == k
    ensures TwoItems(After(w, Undisturbed(c, k)), k)
  {
    UndisturbedCommits(w, c, k);
    var t := After(w, Undisturbed(c, k));
    assert w.nextId in t.items && id in t.items && t.items[id] == k;
  }

  /** So does the one after it, if a request that had claimed the key commits only then. */
  lemma HolderCommitsSecond(w: World, c: nat, k: string, holder: nat)
    requires IdsUsedUp(w) && c !in w.clients && k !in w.records && In(w, holder, Holding) && w.clients[holder].k == k
    ensures TwoItems(After(w, Undisturbed(c, k) + [Commit(holder)]), k)
  {
    UndisturbedCommits(w, c, k);
    OneMoreStep(w, Undisturbed(c, k), Commit(holder));
    var t := After(w, Undisturbed(c, k) + [Commit(holder)]);
    assert t.items == w.items[w.nextId := k][w.nextId + 1 := k];
    assert w.nextId in t.items && w.nextId + 1 in t.items;
  }

  /** A request that failed and releases its claim only after the key has expired drops the claim of the next one. */
  function LateRelease(failing: nat, c: nat, d: nat, k: string): seq<Step> {
    Claims(c, k) + ([Release(failing)] + (Claims(d, k) + ([Commit(c)] + [Commit(d)])))
  }

  lemma LateReleaseRun(w: World, failing: nat, c: nat, d: nat, k: string)
    requires IdsUsedUp(w) && c !in w.clients && d !in w.clients && c != d && k !in w.records
    requires In(w, failing, Failing) && w.clients[failing].k == k
    ensures TwoItems(After(w, LateRelease(failing, c, d, k)), k)
  {
    ClaimsRun(w, c, k);
    var claimed := After(w, Claims(c, k));
    AfterAppend(w, Claims(c, k), [Release(failing)] + (Claims(d, k) + ([Commit(c)] + [Commit(d)])));
    AfterAppend(claimed, [Release(failing)], Claims(d, k) + ([Commit(c)] + [Commit(d)]));
    OneMoreStep(claimed, [], Release(failing));
    assert [] + [Release(failing)] == [Release(failing)];
    var released := Act(claimed, Release(failing));
    assert released.items == w.items && released.nextId == w.nextId && released.clients[c] == Client(k, Holding);
    BothCommit(released, c, d, k);
  }

  lemma BothCommit(w: World, c: nat, d: nat, k: string)
    requires IdsUsedUp(w) && d !in w.clients && k !in w.records && In(w, c, Holding) && w.clients[c].k == k
    ensures TwoItems(After(w, Claims(d, k) + ([Commit(c)] + [Commit(d)])), k)
  {
    ClaimsRun(w, d, k);
    var claimed := After(w, Claims(d, k));
    AfterAppend(w, Claims(d, k), [Commit(c)] + [Commit(d)]);
    OneMoreStep(claimed, [Commit(c)], Commit(d));
    OneMoreStep(claimed, [], Commit(c));
    assert [] + [Commit(c)] == [Commit(c)];
    var t := After(claimed, [Commit(c)] + [Commit(d)]);
    assert t.items == w.items[w.nextId := k][w.nextId + 1 := k];
    assert w.nextId in t.items && w.nextId + 1 in t.items;
  }

  lemma FreshClients(clients: map<nat, Client>) returns (c: nat, d: nat)
    ensures c !in clients && d !in clients && c != d
  {
    c := FreshClient(clients.Keys);
    d := FreshClient(clients.Keys + {c});
  }

  lemma FreshClient(taken: set<nat>) returns (c: nat)
    ensures c !in taken
  {
    var numbers := seq(|taken| + 1, i requires 0 <= i => i);
    if forall n | n in numbers :: n in taken {
      Pigeonhole(numbers, taken);
      assert false;
    }
    c :| c in numbers && c !in taken;
  }

  /** The steps lead to a second item without any more records expiring that are of use. */
  ghost predicate Doubles(w: World, k: string, steps: seq<Step>) {
    SafeRun(w, steps) && TwoItems(After(w, steps), k)
  }

  lemma {:induction false} WithoutExpiryIsSafe(w: World, steps: seq<Step>)
    requires forall i | 0 <= i < |steps| :: !steps[i].Expire?
    ensures SafeRun(w, steps)
  {
    if steps != [] {
      WithoutExpiryIsSafe(w, steps[..|steps| - 1]);
    }
  }

  lemma HarmfulExpiryDoubles(w: World, k: string)
    requires Sound(w) && !HarmlessExpiry(w, k)
    ensures exists steps :: Doubles(Act(w, Expire(k)), k, steps)
  {
    var t := Act(w, Expire(k));
    var c, d := FreshClients(w.clients);
    var steps;
    if id :| id in w.items && w.items[id] == k {
      steps := Undisturbed(c, k);
      SecondItem(t, c, k, id);
    } else {
      var owner :| Owner(w, owner) && w.clients[owner].k == k;
      if w.clients[owner].phase.Holding? {
        steps := Undisturbed(c, k) + [Commit(owner)];
        HolderCommitsSecond(t, c, k, owner);
      } else {
        steps := LateRelease(owner, c, d, k);
        LateReleaseRun(t, owner, c, d, k);
      }
    }
    WithoutExpiryIsSafe(t, steps);
    assert Doubles(t, k, steps);
  }

  /**
   The expiry of one record lets a second item be created under its key, with no further harm done, if and only if an
   item exists under the key or a request has claimed it and has neither answered nor crashed. A key whose owner
   crashed before committing may expire at any time.
   */
  lemma ExpiryDoublesIff(w: World, k: string)
    requires Sound(w)
    ensures (exists steps :: Doubles(Act(w, Expire(k)), k, steps)) <==> !HarmlessExpiry(w, k)
  {
    if HarmlessExpiry(w, k) {
      forall steps
        ensures !Doubles(Act(w, Expire(k)), k, steps)
      {
        HarmlessExpiryKeepsSound(w, k);
        if SafeRun(Act(w, Expire(k)), steps) {
          SafeRunStaysSound(Act(w, Expire(k)), steps);
        }
      }
    } else {
      HarmfulExpiryDoubles(w, k);
    }
  }
}
