/**
 The CI-type registry with its per-worker caches, and the polling invalidator that keeps them coherent across workers.
 */
module TypeRegistry {
  import opened Prelude
  import opened Schema
  import Database

  type Fields = map<string, FieldSpec>

  datatype TypeDoc = TypeDoc(fields: Fields, version: nat, active: bool, updatedAt: nat)

  /** All type documents ever created, by name: deactivated ones keep their name. */
  type Store = map<string, TypeDoc>

  type TypeCache = map<string, Option<TypeDoc>>

  /** The last compiled model of each type with the version it was compiled from. */
  datatype Compiled = Compiled(version: nat, model: Model)

  type ModelCache = map<string, Compiled>

  datatype Worker = Worker(cache: TypeCache, models: ModelCache, watermark: nat)

  function Active(store: Store, name: string): Option<TypeDoc> {
    if name in store && store[name].active then Some(store[name]) else None
  }

  /** The document a worker answers with: its cached one if it has one. */
  function ReadType(w: Worker, store: Store, name: string): Option<TypeDoc> {
    if name in w.cache then w.cache[name] else Active(store, name)
  }

  function ModelOf(fields: Fields): Model {
    map k | k in fields :: RuleOf(fields[k])
  }

  /** The model a worker answers with for the document it reads: a cached one of the same version if it has one. */
  function CompiledModel(w: Worker, doc: TypeDoc, name: string): Model {
    if name in w.models && w.models[name].version == doc.version then w.models[name].model else ModelOf(doc.fields)
  }

  /** The worker once it has cached the document it read. */
  function Remembering(w: Worker, name: string, doc: Option<TypeDoc>): Worker {
    w.(cache := w.cache[name := doc])
  }

  /** The worker once it has compiled the document it read. */
  function Compiling(w: Worker, name: string, doc: Option<TypeDoc>): Worker {
    if doc.None? then w
    else w.(models := w.models[name := Compiled(doc.value.version, CompiledModel(w, doc.value, name))])
  }

  function Invalidated(w: Worker, names: set<string>): Worker {
    w.(cache := w.cache - names, models := w.models - names)
  }

  /** The names whose document changed after the watermark. */
  function Changed(store: Store, watermark: nat): set<string> {
    set name | name in store && store[name].updatedAt > watermark
  }

  ghost predicate IsNewest(store: Store, floor: nat, newest: nat) {
    && floor <= newest
    && (forall name | name in store :: store[name].updatedAt <= newest)
    && (newest == floor || exists name :: name in store && store[name].updatedAt == newest)
  }

  lemma {:induction false} NewestExists(store: Store, floor: nat)
    ensures exists n :: IsNewest(store, floor, n)
    decreases |store|
  {
    if store == map[] {
      assert IsNewest(store, floor, floor);
    } else {
      var name :| name in store;
      var rest := store - {name};
      NewestExists(rest, floor);
      var n :| IsNewest(rest, floor, n);
      var newest := if store[name].updatedAt > n then store[name].updatedAt else n;
      assert forall other | other in store :: other == name || (other in rest && rest[other] == store[other]);
      assert IsNewest(store, floor, newest);
    }
  }

  ghost function Newest(store: Store, floor: nat): (n: nat)
    ensures IsNewest(store, floor, n)
  {
    NewestExists(store, floor);
    var n :| IsNewest(store, floor, n);
    n
  }

  ghost function Polled(w: Worker, store: Store): Worker {
    Invalidated(w, Changed(store, w.watermark)).(watermark := Newest(store, w.watermark))
  }

  // ------------------------------------------------------------ many workers

  /** A read that missed the cache: what the query answered, not yet cached. */
  datatype Flight = Flight(worker: nat, name: string, doc: Option<TypeDoc>)

  /** An update that has read the version it will raise. */
  datatype Draft = Draft(worker: nat, name: string, seen: nat, fields: Fields)

  type History = map<(string, nat), Fields>

  /**
   The store, the time of the last commit, the workers with their reads and updates under way, and the fields each
   name and version was last written with.
   */
  datatype World = World(store: Store, clock: nat, workers: map<nat, Worker>, flights: map<nat, Flight>,
                         drafts: map<nat, Draft>, history: History)

  const NOTHING := World(map[], 0, map[], map[], map[], map[])

  /**
   `Fetch` queries a document that is not cached and `Put` caches the answer, for a compilation or not; `Compile` finds
   the document cached. `Lapse` is a cache entry outliving its time to live.
   */
  datatype Step =
    | Join(worker: nat)
    | Create(worker: nat, name: string, fields: Fields, at: nat)
    | BeginUpdate(req: nat, worker: nat, name: string, fields: Fields)
    | WriteUpdate(req: nat, at: nat)
    | Deactivate(worker: nat, name: string, at: nat)
    | Fetch(req: nat, worker: nat, name: string)
    | Put(req: nat, compiles: bool)
    | Compile(worker: nat, name: string)
    | Poll(worker: nat)
    | Lapse(worker: nat, name: string)

  function With(w: World, i: nat, own: Worker): World {
    w.(workers := w.workers[i := own])
  }

  function Committed(w: World, i: nat, name: string, doc: TypeDoc): World
    requires i in w.workers
  {
    w.(store := w.store[name := doc], clock := doc.updatedAt,
       workers := w.workers[i := Invalidated(w.workers[i], {name})],
       history := w.history[(name, doc.version) := doc.fields])
  }

  /** The document an update stores: the version after the one it saw. */
  function Drafted(d: Draft, at: nat): TypeDoc {
    TypeDoc(d.fields, d.seen + 1, true, at)
  }

  /** Writes only if the type is still active; the writer's own caches are dropped either way. */
  function Written(w: World, req: nat, at: nat): World
    requires req in w.drafts && w.drafts[req].worker in w.workers
  {
    var d, rest := w.drafts[req], w.(drafts := w.drafts - {req});
    if Active(w.store, d.name).None? then With(rest, d.worker, Invalidated(w.workers[d.worker], {d.name}))
    else Committed(rest, d.worker, d.name, Drafted(d, at))
  }

  function Landed(w: World, req: nat, compiles: bool): World
    requires req in w.flights && w.flights[req].worker in w.workers
  {
    var f := w.flights[req];
    var own := Remembering(w.workers[f.worker], f.name, f.doc);
    With(w, f.worker, if compiles then Compiling(own, f.name, f.doc) else own).(flights := w.flights - {req})
  }

  ghost function Act(w: World, step: Step): World {
    match step
    case Join(i) => if i in w.workers then w else With(w, i, Worker(map[], map[], w.clock))
    case Create(i, name, fields, at) =>
      if i !in w.workers || name in w.store then w else Committed(w, i, name, TypeDoc(fields, 1, true, at))
    case BeginUpdate(req, i, name, fields) =>
      if i !in w.workers || req in w.drafts || Active(w.store, name).None? then w
      else w.(drafts := w.drafts[req := Draft(i, name, w.store[name].version, fields)])
    case WriteUpdate(req, at) =>
      if req !in w.drafts || w.drafts[req].worker !in w.workers then w else Written(w, req, at)
    case Deactivate(i, name, at) =>
      if i !in w.workers || Active(w.store, name).None? then w
      else Committed(w, i, name, w.store[name].(active := false, updatedAt := at))
    case Fetch(req, i, name) =>
      if i !in w.workers || req in w.flights || name in w.workers[i].cache then w
      else w.(flights := w.flights[req := Flight(i, name, Active(w.store, name))])
    case Put(req, compiles) =>
      if req !in w.flights || w.flights[req].worker !in w.workers then w else Landed(w, req, compiles)
    case Compile(i, name) =>
      if i !in w.workers || name !in w.workers[i].cache then w
      else With(w, i, Compiling(w.workers[i], name, w.workers[i].cache[name]))
    case Poll(i) => if i !in w.workers then w else With(w, i, Polled(w.workers[i], w.store))
    case Lapse(i, name) =>
      if i !in w.workers then w else With(w, i, w.workers[i].(cache := w.workers[i].cache - {name}))
  }

  ghost function After(w: World, steps: seq<Step>): World {
    if steps == [] then w else Act(After(w, steps[..|steps| - 1]), steps[|steps| - 1])
  }

  lemma OneMoreStep(w: World, steps: seq<Step>, step: Step)
    ensures After(w, steps + [step]) == Act(After(w, steps), step)
  {
    assert (steps + [step])[..|steps|] == steps;
  }

  /** An update and nothing in between is the atomic update of the registry. */
  lemma UpdateInOneGo(w: World, req: nat, i: nat, name: string, fields: Fields, at: nat)
    requires i in w.workers && req !in w.drafts && Active(w.store, name).Some?
    ensures Act(Act(w, BeginUpdate(req, i, name, fields)), WriteUpdate(req, at)) ==
      Committed(w, i, name, TypeDoc(fields, w.store[name].version + 1, true, at))
  {
    assert w.drafts[req := Draft(i, name, w.store[name].version, fields)] - {req} == w.drafts;
  }

  // ------------------------------------------------------------ coherence

  /** An answer is the stored one, or the document has changed past the watermark. */
  predicate InStep(store: Store, watermark: nat, name: string, doc: Option<TypeDoc>) {
    doc == Active(store, name) || (name in store && store[name].updatedAt > watermark)
  }

  ghost predicate WorkerCoherent(store: Store, w: Worker) {
    forall name | name in w.cache :: InStep(store, w.watermark, name, w.cache[name])
  }

  ghost predicate FlightCoherent(w: World, f: Flight) {
    f.worker in w.workers && InStep(w.store, w.workers[f.worker].watermark, f.name, f.doc)
  }

  /** Every answer cached or on its way into a cache is in step. */
  ghost predicate Coherent(w: World) {
    && (forall name | name in w.store :: w.store[name].updatedAt <= w.clock)
    && (forall i | i in w.workers :: w.workers[i].watermark <= w.clock && WorkerCoherent(w.store, w.workers[i]))
    && (forall r | r in w.flights :: FlightCoherent(w, w.flights[r]))
  }

  lemma CommitStaysInStep(store: Store, watermark: nat, name: string, doc: TypeDoc, n: string, answer: Option<TypeDoc>)
    requires InStep(store, watermark, n, answer) && doc.updatedAt > watermark
    ensures InStep(store[name := doc], watermark, n, answer)
  {
  }

  lemma CommitStaysCoherent(w: World, worker: nat, name: string, doc: TypeDoc)
    requires Coherent(w) && worker in w.workers && doc.updatedAt > w.clock
    ensures Coherent(Committed(w, worker, name, doc))
  {
    var t := Committed(w, worker, name, doc);
    forall i | i in t.workers
      ensures t.workers[i].watermark <= t.clock && WorkerCoherent(t.store, t.workers[i])
    {
      assert WorkerCoherent(w.store, w.workers[i]);
      forall n | n in t.workers[i].cache
        ensures InStep(t.store, t.workers[i].watermark, n, t.workers[i].cache[n])
      {
        assert n in w.workers[i].cache && t.workers[i].cache[n] == w.workers[i].cache[n];
        CommitStaysInStep(w.store, w.workers[i].watermark, name, doc, n, w.workers[i].cache[n]);
      }
    }
    forall r | r in t.flights
      ensures FlightCoherent(t, t.flights[r])
    {
      var f := w.flights[r];
      assert FlightCoherent(w, f);
      CommitStaysInStep(w.store, w.workers[f.worker].watermark, name, doc, f.name, f.doc);
    }
  }

  lemma PollMakesCurrent(store: Store, w: Worker)
    requires WorkerCoherent(store, w)
    ensures forall name | name in Polled(w, store).cache :: Polled(w, store).cache[name] == Active(store, name)
    ensures forall name | name in store :: store[name].updatedAt <= Polled(w, store).watermark
  {
    forall name | name in Polled(w, store).cache
      ensures Polled(w, store).cache[name] == Active(store, name)
    {
      assert InStep(store, w.watermark, name, w.cache[name]);
    }
  }

  /** A worker may change in any way that leaves its own answers in step and its watermark where it was. */
  lemma WorkerStaysCoherent(w: World, i: nat, own: Worker)
    requires Coherent(w) && WorkerCoherent(w.store, own) && own.watermark <= w.clock
    requires i in w.workers ==> own.watermark == w.workers[i].watermark
    ensures Coherent(With(w, i, own))
  {
    var t := With(w, i, own);
    forall r | r in t.flights
      ensures FlightCoherent(t, t.flights[r])
    {
      assert FlightCoherent(w, w.flights[r]);
    }
  }

  /** The answers on their way into the worker's cache are the stored ones. */
  ghost predicate FlightsCurrent(w: World, i: nat) {
    forall r | r in w.flights && w.flights[r].worker == i :: w.flights[r].doc == Active(w.store, w.flights[r].name)
  }

  /**
   A poll keeps the registry coherent if and only if none of the worker's reads under way has been overtaken by a
   change: such an answer would be cached after the poll that should have dropped it.
   */
  lemma PollKeepsCoherentIff(w: World, i: nat)
    requires Coherent(w) && i in w.workers
    ensures Coherent(Act(w, Poll(i))) <==> FlightsCurrent(w, i)
  {
    var own, t := w.workers[i], Act(w, Poll(i));
    PollMakesCurrent(w.store, own);
    assert t.workers[i].watermark <= w.clock;
    if FlightsCurrent(w, i) {
      forall j | j in t.workers
        ensures t.workers[j].watermark <= t.clock && WorkerCoherent(t.store, t.workers[j])
      {
        assert j != i ==> t.workers[j] == w.workers[j];
      }
      forall r | r in t.flights
        ensures FlightCoherent(t, t.flights[r])
      {
        assert FlightCoherent(w, w.flights[r]);
      }
    } else {
      var r :| r in w.flights && w.flights[r].worker == i && w.flights[r].doc != Active(w.store, w.flights[r].name);
      assert !FlightCoherent(t, t.flights[r]);
    }
  }

  lemma LandingStaysCoherent(w: World, req: nat, compiles: bool)
    requires Coherent(w) && req in w.flights && w.flights[req].worker in w.workers
    ensures Coherent(Landed(w, req, compiles))
  {
    var f, rest := w.flights[req], w.(flights := w.flights - {req});
    var own := Remembering(w.workers[f.worker], f.name, f.doc);
    assert FlightCoherent(w, f);
    forall r | r in rest.flights
      ensures FlightCoherent(rest, rest.flights[r])
    {
      assert FlightCoherent(w, w.flights[r]);
    }
    WorkerStaysCoherent(rest, f.worker, if compiles then Compiling(own, f.name, f.doc) else own);
  }

  lemma FetchStaysCoherent(w: World, req: nat, i: nat, name: string)
    requires Coherent(w) && i in w.workers
    ensures Coherent(w.(flights := w.flights[req := Flight(i, name, Active(w.store, name))]))
  {
    var t := w.(flights := w.flights[req := Flight(i, name, Active(w.store, name))]);
    forall r | r in t.flights
      ensures FlightCoherent(t, t.flights[r])
    {
      assert r != req ==> FlightCoherent(w, w.flights[r]);
    }
  }

  lemma WriteStaysCoherent(w: World, req: nat, at: nat)
    requires Coherent(w) && at > w.clock && req in w.drafts && w.drafts[req].worker in w.workers
    ensures Coherent(Written(w, req, at))
  {
    var d, rest := w.drafts[req], w.(drafts := w.drafts - {req});
    forall r | r in rest.flights
      ensures FlightCoherent(rest, rest.flights[r])
    {
      assert FlightCoherent(w, w.flights[r]);
    }
    assert Coherent(rest);
    if Active(w.store, d.name).None? {
      WorkerStaysCoherent(rest, d.worker, Invalidated(w.workers[d.worker], {d.name}));
    } else {
      CommitStaysCoherent(rest, d.worker, d.name, Drafted(d, at));
    }
  }

  lemma DraftStaysCoherent(w: World, drafts: map<nat, Draft>)
    requires Coherent(w)
    ensures Coherent(w.(drafts := drafts))
  {
    var t := w.(drafts := drafts);
    forall r | r in t.flights
      ensures FlightCoherent(t, t.flights[r])
    {
      assert FlightCoherent(w, w.flights[r]);
    }
  }

  /** Commit times increase strictly, and no poll overtakes a read that a change has made stale. */
  ghost predicate Timely(w: World, step: Step) {
    && (step.Create? || step.WriteUpdate? || step.Deactivate? ==> step.at > w.clock)
    && (step.Poll? ==> FlightsCurrent(w, step.worker))
  }

  lemma StepStaysCoherent(w: World, step: Step)
    requires Coherent(w) && Timely(w, step)
    ensures Coherent(Act(w, step))
  {
    match step
    case Join(i) => if i !in w.workers { JoinStaysCoherent(w, i); }
    case Create(i, name, fields, at) =>
      if i in w.workers && name !in w.store { CommitStaysCoherent(w, i, name, TypeDoc(fields, 1, true, at)); }
    case BeginUpdate(_, _, _, _) => DraftStaysCoherent(w, Act(w, step).drafts);
    case WriteUpdate(req, at) =>
      if req in w.drafts && w.drafts[req].worker in w.workers { WriteStaysCoherent(w, req, at); }
    case Deactivate(i, name, at) =>
      if i in w.workers && Active(w.store, name).Some? {
        CommitStaysCoherent(w, i, name, w.store[name].(active := false, updatedAt := at));
      }
    case Fetch(req, i, name) => if i in w.workers { FetchStaysCoherent(w, req, i, name); }
    case Put(req, compiles) =>
      if req in w.flights && w.flights[req].worker in w.workers { LandingStaysCoherent(w, req, compiles); }
    case Compile(i, name) =>
      if i in w.workers && name in w.workers[i].cache {
        WorkerStaysCoherent(w, i, Compiling(w.workers[i], name, w.workers[i].cache[name]));
      }
    case Poll(i) => if i in w.workers { PollKeepsCoherentIff(w, i); }
    case Lapse(i, name) =>
      if i in w.workers { WorkerStaysCoherent(w, i, w.workers[i].(cache := w.workers[i].cache - {name})); }
  }

  lemma JoinStaysCoherent(w: World, i: nat)
    requires Coherent(w) && i !in w.workers
    ensures Coherent(With(w, i, Worker(map[], map[], w.clock)))
  {
    WorkerStaysCoherent(w, i, Worker(map[], map[], w.clock));
  }

  ghost predicate TimelyRun(steps: seq<Step>) {
    steps != [] ==>
      TimelyRun(steps[..|steps| - 1]) && Timely(After(NOTHING, steps[..|steps| - 1]), steps[|steps| - 1])
  }

  lemma {:induction false} EveryRunIsCoherent(steps: seq<Step>)
    requires TimelyRun(steps)
    ensures Coherent(After(NOTHING, steps))
  {
    if steps != [] {
      EveryRunIsCoherent(steps[..|steps| - 1]);
      StepStaysCoherent(After(NOTHING, steps[..|steps| - 1]), steps[|steps| - 1]);
    }
  }

  /** Right after a poll a worker's cached reads agree with reads that bypass the cache, for every name. */
  lemma PolledReadIsCurrent(steps: seq<Step>, worker: nat, name: string)
    requires TimelyRun(steps) && worker in After(NOTHING, steps).workers
    ensures var w := Act(After(NOTHING, steps), Poll(worker));
      ReadType(w.workers[worker], w.store, name) == Active(w.store, name)
  {
    EveryRunIsCoherent(steps);
    PollMakesCurrent(After(NOTHING, steps).store, After(NOTHING, steps).workers[worker]);
  }

  // ------------------------------------------------------------ compilation

  /** The document has the fields its name and version stand for, as far as a model can tell. */
  ghost predicate Recorded(history: History, name: string, doc: TypeDoc) {
    (name, doc.version) in history && ModelOf(history[(name, doc.version)]) == ModelOf(doc.fields)
  }

  /** What a worker holds of a name is what that name and version stand for. */
  ghost predicate WorkerFaithful(history: History, w: Worker) {
    && (forall name | name in w.cache && w.cache[name].Some? :: Recorded(history, name, w.cache[name].value))
    && (forall name | name in w.models ::
          (name, w.models[name].version) in history &&
          w.models[name].model == ModelOf(history[(name, w.models[name].version)]))
  }

  ghost predicate FlightFaithful(w: World, f: Flight) {
    f.worker in w.workers && (f.doc.Some? ==> Recorded(w.history, f.name, f.doc.value))
  }

  /** Every document and model around is the one its name and version stand for. */
  ghost predicate Faithful(w: World) {
    && (forall name | name in w.store :: Recorded(w.history, name, w.store[name]))
    && (forall i | i in w.workers :: WorkerFaithful(w.history, w.workers[i]))
    && (forall r | r in w.flights :: FlightFaithful(w, w.flights[r]))
  }

  /** The worker holds the name and version with another meaning. */
  ghost predicate Holds(w: Worker, name: string, version: nat, fields: Fields) {
    || (name in w.cache && w.cache[name].Some? && w.cache[name].value.version == version &&
        ModelOf(w.cache[name].value.fields) != ModelOf(fields))
    || (name in w.models && w.models[name].version == version && w.models[name].model != ModelOf(fields))
  }

  ghost predicate Carries(f: Flight, name: string, version: nat, fields: Fields) {
    f.name == name && f.doc.Some? && f.doc.value.version == version && ModelOf(f.doc.value.fields) != ModelOf(fields)
  }

  /** Some other worker holds the name and version with another meaning, or a read is about to bring it. */
  ghost predicate Conflicts(w: World, writer: nat, name: string, version: nat, fields: Fields) {
    || (exists i :: i in w.workers && i != writer && Holds(w.workers[i], name, version, fields))
    || (exists r :: r in w.flights && Carries(w.flights[r], name, version, fields))
  }

  lemma RewrittenStaysRecorded(history: History, name: string, version: nat, fields: Fields, n: string, doc: TypeDoc)
    requires Recorded(history, n, doc)
    requires n == name && doc.version == version ==> ModelOf(doc.fields) == ModelOf(fields)
    ensures Recorded(history[(name, version) := fields], n, doc)
  {
  }

  lemma RewrittenStaysFaithful(history: History, w: Worker, name: string, version: nat, fields: Fields)
    requires WorkerFaithful(history, w) && !Holds(w, name, version, fields)
    ensures WorkerFaithful(history[(name, version) := fields], w)
  {
    var longer := history[(name, version) := fields];
    forall n | n in w.cache && w.cache[n].Some?
      ensures Recorded(longer, n, w.cache[n].value)
    {
      RewrittenStaysRecorded(history, name, version, fields, n, w.cache[n].value);
    }
  }

  lemma InvalidatedStaysFaithful(history: History, w: Worker, name: string, version: nat, fields: Fields)
    requires WorkerFaithful(history, w)
    ensures WorkerFaithful(history[(name, version) := fields], Invalidated(w, {name}))
  {
    FewerEntriesStayFaithful(history, w, Invalidated(w, {name}));
    RewrittenStaysFaithful(history, Invalidated(w, {name}), name, version, fields);
  }

  /** Dropping entries keeps what remains faithful. */
  lemma FewerEntriesStayFaithful(history: History, w: Worker, t: Worker)
    requires WorkerFaithful(history, w)
    requires forall name | name in t.cache :: name in w.cache && t.cache[name] == w.cache[name]
    requires forall name | name in t.models :: name in w.models && t.models[name] == w.models[name]
    ensures WorkerFaithful(history, t)
  {
  }

  lemma CommittedWorkersFaithful(w: World, writer: nat, name: string, doc: TypeDoc, i: nat)
    requires Faithful(w) && writer in w.workers && !Conflicts(w, writer, name, doc.version, doc.fields)
    requires i in w.workers
    ensures var t := Committed(w, writer, name, doc); WorkerFaithful(t.history, t.workers[i])
  {
    if i == writer {
      InvalidatedStaysFaithful(w.history, w.workers[i], name, doc.version, doc.fields);
    } else {
      RewrittenStaysFaithful(w.history, w.workers[i], name, doc.version, doc.fields);
    }
  }

  lemma CommittedFlightsFaithful(w: World, writer: nat, name: string, doc: TypeDoc, r: nat)
    requires Faithful(w) && writer in w.workers && !Conflicts(w, writer, name, doc.version, doc.fields)
    requires r in w.flights
    ensures var t := Committed(w, writer, name, doc); FlightFaithful(t, t.flights[r])
  {
    var f := w.flights[r];
    assert FlightFaithful(w, f) && !Carries(f, name, doc.version, doc.fields);
    if f.doc.Some? {
      RewrittenStaysRecorded(w.history, name, doc.version, doc.fields, f.name, f.doc.value);
    }
  }

  /** A commit is harmless unless someone holds the same name and version with another meaning. */
  lemma CommitStaysFaithful(w: World, writer: nat, name: string, doc: TypeDoc)
    requires Faithful(w) && writer in w.workers && !Conflicts(w, writer, name, doc.version, doc.fields)
    ensures Faithful(Committed(w, writer, name, doc))
  {
    var t := Committed(w, writer, name, doc);
    forall i | i in t.workers
      ensures WorkerFaithful(t.history, t.workers[i])
    {
      CommittedWorkersFaithful(w, writer, name, doc, i);
    }
    forall r | r in t.flights
      ensures FlightFaithful(t, t.flights[r])
    {
      CommittedFlightsFaithful(w, writer, name, doc, r);
    }
  }

  lemma WorkerStaysFaithful(w: World, i: nat, own: Worker)
    requires Faithful(w) && WorkerFaithful(w.history, own)
    ensures Faithful(With(w, i, own))
  {
    var t := With(w, i, own);
    forall r | r in t.flights
      ensures FlightFaithful(t, t.flights[r])
    {
      assert FlightFaithful(w, w.flights[r]);
    }
  }

  lemma LandingStaysFaithful(w: World, req: nat, compiles: bool)
    requires Faithful(w) && req in w.flights && w.flights[req].worker in w.workers
    ensures Faithful(Landed(w, req, compiles))
  {
    var f, rest := w.flights[req], w.(flights := w.flights - {req});
    assert FlightFaithful(w, f) && WorkerFaithful(w.history, w.workers[f.worker]);
    forall r | r in rest.flights
      ensures FlightFaithful(rest, rest.flights[r])
    {
      assert FlightFaithful(w, w.flights[r]);
    }
    var own := Remembering(w.workers[f.worker], f.name, f.doc);
    CompilingStaysFaithful(w.history, own, f.name, f.doc);
    WorkerStaysFaithful(rest, f.worker, if compiles then Compiling(own, f.name, f.doc) else own);
  }

  lemma CompilingStaysFaithful(history: History, w: Worker, name: string, doc: Option<TypeDoc>)
    requires WorkerFaithful(history, w) && (doc.Some? ==> Recorded(history, name, doc.value))
    ensures WorkerFaithful(history, Compiling(w, name, doc))
    ensures doc.Some? ==> CompiledModel(w, doc.value, name) == ModelOf(doc.value.fields)
  {
  }

  lemma FlightsStayFaithful(w: World, t: World)
    requires Faithful(w) && t.store == w.store && t.history == w.history && t.workers == w.workers
    requires forall r | r in t.flights ::
      (r in w.flights && t.flights[r] == w.flights[r]) || FlightFaithful(t, t.flights[r])
    ensures Faithful(t)
  {
    forall r | r in t.flights
      ensures FlightFaithful(t, t.flights[r])
    {
      if r in w.flights && t.flights[r] == w.flights[r] {
        assert FlightFaithful(w, w.flights[r]);
      }
    }
  }

  /** A step that commits nothing. */
  predicate Local(step: Step) {
    !(step.Create? || step.WriteUpdate? || step.Deactivate?)
  }

  lemma LocalStepStaysFaithful(w: World, step: Step)
    requires Faithful(w) && Local(step)
    ensures Faithful(Act(w, step))
  {
    match step
    case Join(i) => if i !in w.workers { WorkerStaysFaithful(w, i, Worker(map[], map[], w.clock)); }
    case BeginUpdate(_, _, _, _) => FlightsStayFaithful(w, Act(w, step));
    case Fetch(_, _, _) => FlightsStayFaithful(w, Act(w, step));
    case Put(req, compiles) =>
      if req in w.flights && w.flights[req].worker in w.workers { LandingStaysFaithful(w, req, compiles); }
    case Compile(i, name) =>
      if i in w.workers && name in w.workers[i].cache {
        CompilingStaysFaithful(w.history, w.workers[i], name, w.workers[i].cache[name]);
        WorkerStaysFaithful(w, i, Compiling(w.workers[i], name, w.workers[i].cache[name]));
      }
    case Poll(i) =>
      if i in w.workers {
        FewerEntriesStayFaithful(w.history, w.workers[i], Polled(w.workers[i], w.store));
        WorkerStaysFaithful(w, i, Polled(w.workers[i], w.store));
      }
    case Lapse(i, name) =>
      if i in w.workers {
        var own := w.workers[i].(cache := w.workers[i].cache - {name});
        FewerEntriesStayFaithful(w.history, w.workers[i], own);
        WorkerStaysFaithful(w, i, own);
      }
    case Create(_, _, _, _) => assert false;
    case WriteUpdate(_, _) => assert false;
    case Deactivate(_, _, _) => assert false;
  }

  /** Compiling the type now, the worker would be answered with a model of other fields than it reads. */
  ghost predicate Misled(w: World, i: nat, name: string) {
    && i in w.workers
    && var doc := ReadType(w.workers[i], w.store, name);
    && doc.Some?
    && CompiledModel(w.workers[i], doc.value, name) != ModelOf(doc.value.fields)
  }

  lemma FaithfulIsNotMisled(w: World, i: nat, name: string)
    requires Faithful(w)
    ensures !Misled(w, i, name)
  {
    if i in w.workers && ReadType(w.workers[i], w.store, name).Some? {
      assert WorkerFaithful(w.history, w.workers[i]);
      assert name in w.store ==> Recorded(w.history, name, w.store[name]);
      CompilingStaysFaithful(w.history, w.workers[i], name, ReadType(w.workers[i], w.store, name));
    }
  }

  // ------------------------------------------------------------ overlapping updates

  /** By these steps, none of which commits anything, the worker comes to be misled about the type. */
  ghost predicate WillMislead(w: World, name: string, steps: seq<Step>, i: nat) {
    (forall k | 0 <= k < |steps| :: Local(steps[k])) && Misled(After(w, steps), i, name)
  }

  ghost predicate Misleads(w: World, name: string) {
    exists steps, i :: WillMislead(w, name, steps, i)
  }

  lemma {:induction false} LocalRunStaysFaithful(w: World, steps: seq<Step>)
    requires Faithful(w) && forall k | 0 <= k < |steps| :: Local(steps[k])
    ensures Faithful(After(w, steps))
  {
    if steps != [] {
      LocalRunStaysFaithful(w, steps[..|steps| - 1]);
      LocalStepStaysFaithful(After(w, steps[..|steps| - 1]), steps[|steps| - 1]);
    }
  }

  /** A worker whose model of the stored version is another one is misled once its cached document lapses. */
  lemma WrongModelMisleads(w: World, i: nat, name: string)
    requires i in w.workers && Active(w.store, name).Some? && name in w.workers[i].models
    requires w.workers[i].models[name].version == w.store[name].version
    requires w.workers[i].models[name].model != ModelOf(w.store[name].fields)
    ensures Misled(Act(w, Lapse(i, name)), i, name)
  {
  }

  lemma TwoSteps(w: World, a: Step, b: Step)
    ensures After(w, [a, b]) == Act(Act(w, a), b) && After(w, [a]) == Act(w, a)
  {
    OneMoreStep(w, [], a);
    OneMoreStep(w, [a], b);
    assert [] + [a] == [a] && [a] + [b] == [a, b];
  }

  lemma ModelHolderIsMisled(t: World, i: nat, name: string)
    requires i in t.workers && Active(t.store, name).Some? && name in t.workers[i].models
    requires t.workers[i].models[name].version == t.store[name].version
    requires t.workers[i].models[name].model != ModelOf(t.store[name].fields)
    ensures WillMislead(t, name, [Lapse(i, name)], i)
  {
    TwoSteps(t, Lapse(i, name), Lapse(i, name));
    WrongModelMisleads(t, i, name);
  }

  lemma DocumentHolderIsMisled(history: History, t: World, i: nat, name: string)
    requires i in t.workers && WorkerFaithful(history, t.workers[i]) && Active(t.store, name).Some?
    requires name in t.workers[i].cache && t.workers[i].cache[name].Some?
    requires var doc := t.workers[i].cache[name].value;
      doc.version == t.store[name].version && ModelOf(doc.fields) != ModelOf(t.store[name].fields)
    ensures WillMislead(t, name, [Compile(i, name), Lapse(i, name)], i)
  {
    TwoSteps(t, Compile(i, name), Lapse(i, name));
    CompilingStaysFaithful(history, t.workers[i], name, t.workers[i].cache[name]);
    WrongModelMisleads(Act(t, Compile(i, name)), i, name);
  }

  lemma HolderIsMisled(history: History, t: World, i: nat, name: string)
    requires i in t.workers && WorkerFaithful(history, t.workers[i]) && Active(t.store, name).Some?
    requires Holds(t.workers[i], name, t.store[name].version, t.store[name].fields)
    ensures exists steps :: WillMislead(t, name, steps, i)
  {
    var own := t.workers[i];
    if name in own.models && own.models[name].version == t.store[name].version &&
        own.models[name].model != ModelOf(t.store[name].fields) {
      ModelHolderIsMisled(t, i, name);
    } else {
      DocumentHolderIsMisled(history, t, i, name);
    }
  }

  lemma CarrierIsMisled(history: History, t: World, r: nat, name: string)
    requires r in t.flights && t.flights[r].worker in t.workers
    requires WorkerFaithful(history, t.workers[t.flights[r].worker])
    requires t.flights[r].doc.Some? && Recorded(history, t.flights[r].name, t.flights[r].doc.value)
    requires Active(t.store, name).Some? && Carries(t.flights[r], name, t.store[name].version, t.store[name].fields)
    ensures WillMislead(t, name, [Put(r, true), Lapse(t.flights[r].worker, name)], t.flights[r].worker)
  {
    var f := t.flights[r];
    TwoSteps(t, Put(r, true), Lapse(f.worker, name));
    CompilingStaysFaithful(history, Remembering(t.workers[f.worker], name, f.doc), name, f.doc);
    WrongModelMisleads(Act(t, Put(r, true)), f.worker, name);
  }

  /** What a write of an active type leaves of the world. */
  lemma WrittenWorld(w: World, req: nat, at: nat)
    requires req in w.drafts && w.drafts[req].worker in w.workers && Active(w.store, w.drafts[req].name).Some?
    ensures var d, t := w.drafts[req], Act(w, WriteUpdate(req, at));
      && t.flights == w.flights && t.workers.Keys == w.workers.Keys
      && Active(t.store, d.name) == Some(Drafted(d, at)) && d.name in t.store && t.store[d.name] == Drafted(d, at)
      && t.workers[d.worker] == Invalidated(w.workers[d.worker], {d.name})
      && forall i | i in w.workers && i != d.worker :: t.workers[i] == w.workers[i]
  {
  }

  lemma WrittenWorkersFaithful(w: World, req: nat, at: nat, i: nat)
    requires Faithful(w) && req in w.drafts && w.drafts[req].worker in w.workers && i in w.workers
    requires Active(w.store, w.drafts[req].name).Some?
    ensures var t := Act(w, WriteUpdate(req, at)); i in t.workers && WorkerFaithful(w.history, t.workers[i])
  {
    WrittenWorld(w, req, at);
    FewerEntriesStayFaithful(w.history, w.workers[i], Invalidated(w.workers[i], {w.drafts[req].name}));
  }

  /**
   An update may have read any earlier version. From a world in which every document and model around is the one its
   name and version stand for, what it writes comes to mislead some worker, by reads, polls and lapses alone, if and
   only if another worker holds a document or a model of the version it writes that differs from its own, or such a
   document is on its way into a cache.
   */
  lemma UpdateMisleadsIff(w: World, req: nat, at: nat)
    requires Faithful(w) && req in w.drafts && w.drafts[req].worker in w.workers
    requires Active(w.store, w.drafts[req].name).Some?
    ensures var d := w.drafts[req];
      Misleads(Act(w, WriteUpdate(req, at)), d.name) <==> Conflicts(w, d.worker, d.name, d.seen + 1, d.fields)
  {
    var d := w.drafts[req];
    if Conflicts(w, d.worker, d.name, d.seen + 1, d.fields) {
      ConflictMisleads(w, req, at);
    } else {
      HarmlessWrite(w, req, at);
    }
  }

  lemma ConflictMisleads(w: World, req: nat, at: nat)
    requires Faithful(w) && req in w.drafts && w.drafts[req].worker in w.workers
    requires Active(w.store, w.drafts[req].name).Some?
    requires var d := w.drafts[req]; Conflicts(w, d.worker, d.name, d.seen + 1, d.fields)
    ensures Misleads(Act(w, WriteUpdate(req, at)), w.drafts[req].name)
  {
    var d := w.drafts[req];
    if i :| i in w.workers && i != d.worker && Holds(w.workers[i], d.name, d.seen + 1, d.fields) {
      HeldVersionMisleads(w, req, at, i);
    } else {
      var r :| r in w.flights && Carries(w.flights[r], d.name, d.seen + 1, d.fields);
      CarriedVersionMisleads(w, req, at, r);
    }
  }

  lemma HeldVersionMisleads(w: World, req: nat, at: nat, i: nat)
    requires Faithful(w) && req in w.drafts && w.drafts[req].worker in w.workers
    requires Active(w.store, w.drafts[req].name).Some?
    requires var d := w.drafts[req];
      i in w.workers && i != d.worker && Holds(w.workers[i], d.name, d.seen + 1, d.fields)
    ensures Misleads(Act(w, WriteUpdate(req, at)), w.drafts[req].name)
  {
    WrittenWorld(w, req, at);
    WrittenWorkersFaithful(w, req, at, i);
    HolderIsMisled(w.history, Act(w, WriteUpdate(req, at)), i, w.drafts[req].name);
  }

  lemma CarriedVersionMisleads(w: World, req: nat, at: nat, r: nat)
    requires Faithful(w) && req in w.drafts && w.drafts[req].worker in w.workers
    requires Active(w.store, w.drafts[req].name).Some?
    requires var d := w.drafts[req]; r in w.flights && Carries(w.flights[r], d.name, d.seen + 1, d.fields)
    ensures Misleads(Act(w, WriteUpdate(req, at)), w.drafts[req].name)
  {
    WrittenWorld(w, req, at);
    assert FlightFaithful(w, w.flights[r]);
    WrittenWorkersFaithful(w, req, at, w.flights[r].worker);
    CarrierIsMisled(w.history, Act(w, WriteUpdate(req, at)), r, w.drafts[req].name);
  }

  lemma HarmlessWrite(w: World, req: nat, at: nat)
    requires Faithful(w) && req in w.drafts && w.drafts[req].worker in w.workers
    requires Active(w.store, w.drafts[req].name).Some?
    requires var d := w.drafts[req]; !Conflicts(w, d.worker, d.name, d.seen + 1, d.fields)
    ensures !Misleads(Act(w, WriteUpdate(req, at)), w.drafts[req].name)
  {
    var d, rest := w.drafts[req], w.(drafts := w.drafts - {req});
    FlightsStayFaithful(w, rest);
    CommitStaysFaithful(rest, d.worker, d.name, Drafted(d, at));
    FaithfulMisleadsNobody(Act(w, WriteUpdate(req, at)), d.name);
  }

  lemma FaithfulMisleadsNobody(w: World, name: string)
    requires Faithful(w)
    ensures !Misleads(w, name)
  {
    forall steps, i
      ensures !WillMislead(w, name, steps, i)
    {
      if forall k | 0 <= k < |steps| :: Local(steps[k]) {
        LocalRunStaysFaithful(w, steps);
        FaithfulIsNotMisled(After(w, steps), i, name);
      }
    }
  }

  // ------------------------------------------------------------ serial updates

  /** Updates of one type do not overlap: each writes the version after the stored one. */
  predicate Serial(w: World, step: Step) {
    step.WriteUpdate? && step.req in w.drafts && w.drafts[step.req].name in w.store ==>
      w.drafts[step.req].seen == w.store[w.drafts[step.req].name].version
  }

  ghost predicate SerialRun(steps: seq<Step>) {
    steps != [] ==>
      SerialRun(steps[..|steps| - 1]) && Serial(After(NOTHING, steps[..|steps| - 1]), steps[|steps| - 1])
  }

  /** Every record is of a name in the store, up to its version. */
  ghost predicate Bounded(store: Store, history: History) {
    forall k | k in history :: k.0 in store && k.1 <= store[k.0].version
  }

  /** Nobody holds what was never written. */
  lemma UnwrittenHasNoConflict(w: World, writer: nat, name: string, version: nat, fields: Fields)
    requires Faithful(w) && (name, version) in w.history ==> ModelOf(w.history[(name, version)]) == ModelOf(fields)
    ensures Faithful(w) ==> !Conflicts(w, writer, name, version, fields)
  {
    if Faithful(w) {
      forall i | i in w.workers
        ensures !Holds(w.workers[i], name, version, fields)
      {
        assert WorkerFaithful(w.history, w.workers[i]);
      }
      forall r | r in w.flights
        ensures !Carries(w.flights[r], name, version, fields)
      {
        assert FlightFaithful(w, w.flights[r]);
      }
    }
  }

  lemma SerialCommit(w: World, writer: nat, name: string, doc: TypeDoc)
    requires Faithful(w) && Bounded(w.store, w.history) && writer in w.workers
    requires name in w.store ==>
      || doc.version > w.store[name].version
      || (doc.version == w.store[name].version && doc.fields == w.store[name].fields)
    ensures var t := Committed(w, writer, name, doc); Faithful(t) && Bounded(t.store, t.history)
  {
    if name in w.store {
      assert Recorded(w.history, name, w.store[name]);
    }
    UnwrittenHasNoConflict(w, writer, name, doc.version, doc.fields);
    CommitStaysFaithful(w, writer, name, doc);
  }

  lemma SerialWrite(w: World, req: nat, at: nat)
    requires Faithful(w) && Bounded(w.store, w.history) && Serial(w, WriteUpdate(req, at))
    requires req in w.drafts && w.drafts[req].worker in w.workers
    ensures var t := Written(w, req, at); Faithful(t) && Bounded(t.store, t.history)
  {
    var d, rest := w.drafts[req], w.(drafts := w.drafts - {req});
    FlightsStayFaithful(w, rest);
    if Active(w.store, d.name).None? {
      FewerEntriesStayFaithful(w.history, w.workers[d.worker], Invalidated(w.workers[d.worker], {d.name}));
      WorkerStaysFaithful(rest, d.worker, Invalidated(w.workers[d.worker], {d.name}));
    } else {
      SerialCommit(rest, d.worker, d.name, Drafted(d, at));
    }
  }

  lemma LocalStepStaysBounded(w: World, step: Step)
    requires Bounded(w.store, w.history) && Local(step)
    ensures Bounded(Act(w, step).store, Act(w, step).history)
  {
  }

  lemma SerialStep(w: World, step: Step)
    requires Faithful(w) && Bounded(w.store, w.history) && Serial(w, step)
    ensures var t := Act(w, step); Faithful(t) && Bounded(t.store, t.history)
  {
    if step.Create? {
      if step.worker in w.workers && step.name !in w.store {
        SerialCommit(w, step.worker, step.name, TypeDoc(step.fields, 1, true, step.at));
      }
    } else if step.WriteUpdate? {
      if step.req in w.drafts && w.drafts[step.req].worker in w.workers {
        SerialWrite(w, step.req, step.at);
      }
    } else if step.Deactivate? {
      if step.worker in w.workers && Active(w.store, step.name).Some? {
        SerialCommit(w, step.worker, step.name, w.store[step.name].(active := false, updatedAt := step.at));
      }
    } else {
      LocalStepStaysFaithful(w, step);
      LocalStepStaysBounded(w, step);
    }
  }

  lemma {:induction false} EveryRunIsFaithful(steps: seq<Step>)
    requires SerialRun(steps)
    ensures var t := After(NOTHING, steps); Faithful(t) && Bounded(t.store, t.history)
  {
    if steps != [] {
      EveryRunIsFaithful(steps[..|steps| - 1]);
      SerialStep(After(NOTHING, steps[..|steps| - 1]), steps[|steps| - 1]);
    }
  }

  /** However stale its caches, a worker always compiles the very document it reads. */
  lemma CompileMatchesDocument(steps: seq<Step>, worker: nat, name: string)
    requires SerialRun(steps)
    ensures !Misled(After(NOTHING, steps), worker, name)
  {
    EveryRunIsFaithful(steps);
    FaithfulIsNotMisled(After(NOTHING, steps), worker, name);
  }

  // ------------------------------------------------------------ two runs

  lemma {:induction false} AfterAppend(w: World, first: seq<Step>, second: seq<Step>)
    ensures After(w, first + second) == After(After(w, first), second)
  {
    if second == [] {
      assert first + second == first;
    } else {
      var n := |second| - 1;
      AfterAppend(w, first, second[..n]);
      assert first + second == first + second[..n] + [second[n]] && second == second[..n] + [second[n]];
      OneMoreStep(w, first + second[..n], second[n]);
      OneMoreStep(After(w, first), second[..n], second[n]);
    }
  }

  lemma AfterThreeParts(w: World, a: seq<Step>, b: seq<Step>, c: seq<Step>)
    ensures After(w, a + (b + c)) == After(After(After(w, a), b), c)
  {
    AfterAppend(w, a, b + c);
    AfterAppend(After(w, a), b, c);
  }

  lemma ThreeSteps(w: World, a: Step, b: Step, c: Step)
    ensures After(w, [a, b, c]) == Act(Act(Act(w, a), b), c)
  {
    TwoSteps(w, a, b);
    OneMoreStep(w, [a, b], c);
    assert [a, b] + [c] == [a, b, c];
  }

  const IDLE := Worker(map[], map[], 0)

  /** Two workers and one type. */
  function Setup(fields: Fields): seq<Step> {
    [Join(0), Join(1), Create(0, "server", fields, 1)]
  }

  function SetupWorld(fields: Fields): World {
    World(map["server" := TypeDoc(fields, 1, true, 1)], 1, map[0 := IDLE, 1 := IDLE], map[], map[],
          map[("server", 1) := fields])
  }

  lemma SetupRun(fields: Fields)
    ensures After(NOTHING, Setup(fields)) == SetupWorld(fields)
  {
    ThreeSteps(NOTHING, Join(0), Join(1), Create(0, "server", fields, 1));
    assert Invalidated(IDLE, {"server"}) == IDLE;
  }

  /** Both updates read version 1 and write version 2; worker 1 compiles in between. */
  function FirstWrite(first: Fields, second: Fields): seq<Step> {
    [BeginUpdate(0, 0, "server", first), BeginUpdate(1, 0, "server", second), WriteUpdate(0, 2)]
  }

  function SecondWrite(): seq<Step> {
    [Fetch(0, 1, "server"), Put(0, true), WriteUpdate(1, 3)]
  }

  lemma FirstWriteRun(fields: Fields, first: Fields, second: Fields)
    ensures var t := After(SetupWorld(fields), FirstWrite(first, second));
      && t.store == map["server" := TypeDoc(first, 2, true, 2)] && t.flights == map[]
      && t.workers == map[0 := IDLE, 1 := IDLE]
      && 1 in t.drafts && t.drafts[1] == Draft(0, "server", 1, second)
  {
    var w := SetupWorld(fields);
    ThreeSteps(w, BeginUpdate(0, 0, "server", first), BeginUpdate(1, 0, "server", second), WriteUpdate(0, 2));
    assert Invalidated(IDLE, {"server"}) == IDLE;
    assert w.store["server" := TypeDoc(first, 2, true, 2)] == map["server" := TypeDoc(first, 2, true, 2)];
    assert w.workers[0 := IDLE] == w.workers;
  }

  /** The second update is stored, and worker 1 still has the model of the first. */
  ghost predicate Outdone(w: World, first: Fields, second: Fields) {
    && "server" in w.store && w.store["server"] == TypeDoc(second, 2, true, 3)
    && 1 in w.workers && "server" in w.workers[1].models
    && w.workers[1].models["server"] == Compiled(2, ModelOf(first))
  }

  lemma OutdoneMisleads(w: World, first: Fields, second: Fields)
    requires Outdone(w, first, second) && ModelOf(first) != ModelOf(second)
    ensures var t := Act(w, Lapse(1, "server")); Misled(t, 1, "server") && t.store == w.store
  {
    WrongModelMisleads(w, 1, "server");
  }

  lemma SecondWriteRun(w: World, first: Fields, second: Fields)
    requires w.store == map["server" := TypeDoc(first, 2, true, 2)] && w.flights == map[]
    requires w.workers == map[0 := IDLE, 1 := IDLE] && 1 in w.drafts && w.drafts[1] == Draft(0, "server", 1, second)
    ensures Outdone(After(w, SecondWrite()), first, second)
  {
    ThreeSteps(w, Fetch(0, 1, "server"), Put(0, true), WriteUpdate(1, 3));
    var fetched := Act(w, Fetch(0, 1, "server"));
    assert 0 in fetched.flights && fetched.flights[0] == Flight(1, "server", Some(TypeDoc(first, 2, true, 2)));
    var put := Act(fetched, Put(0, true));
    assert "server" in put.workers[1].models && put.workers[1].models["server"] == Compiled(2, ModelOf(first));
  }

  function OverlappingUpdates(fields: Fields, first: Fields, second: Fields): seq<Step> {
    Setup(fields) + (FirstWrite(first, second) + SecondWrite())
  }

  /**
   Two updates that overlap give one version two meanings: a worker that compiled the first answers with its model for
   the document of the second, once its cached document has lapsed.
   */
  lemma OverlappingUpdatesMislead(fields: Fields, first: Fields, second: Fields)
    requires ModelOf(first) != ModelOf(second)
    ensures var w := After(NOTHING, OverlappingUpdates(fields, first, second));
      var t := Act(w, Lapse(1, "server"));
      && Misled(t, 1, "server") && "server" in t.store && t.store["server"].fields == second
  {
    AfterThreeParts(NOTHING, Setup(fields), FirstWrite(first, second), SecondWrite());
    SetupRun(fields);
    FirstWriteRun(fields, first, second);
    SecondWriteRun(After(SetupWorld(fields), FirstWrite(first, second)), first, second);
    OutdoneMisleads(After(NOTHING, OverlappingUpdates(fields, first, second)), first, second);
  }

  /** A read, an update by the other worker, the poll that sees it, and only then the read's arrival in the cache. */
  function OvertakenRead(fields: Fields): seq<Step> {
    [Fetch(0, 1, "server"), BeginUpdate(0, 0, "server", fields), WriteUpdate(0, 2)]
  }

  function Polls(n: nat): seq<Step> {
    if n == 0 then [] else Polls(n - 1) + [Poll(1)]
  }

  /** Worker 1 has caught up with the store, but for one outdated document. */
  ghost predicate StuckAt(w: World, doc: TypeDoc) {
    && 1 in w.workers && "server" in w.workers[1].cache && w.workers[1].cache["server"] == Some(doc)
    && Active(w.store, "server").Some? && w.store["server"] != doc
    && (forall name | name in w.store :: w.store[name].updatedAt <= w.workers[1].watermark)
  }

  lemma PollLeavesStuck(w: World, doc: TypeDoc)
    requires StuckAt(w, doc)
    ensures StuckAt(Act(w, Poll(1)), doc)
  {
    assert Changed(w.store, w.workers[1].watermark) == {};
  }

  lemma {:induction false} PollsLeaveStuck(w: World, doc: TypeDoc, n: nat)
    requires StuckAt(w, doc)
    ensures StuckAt(After(w, Polls(n)), doc)
  {
    if n > 0 {
      PollsLeaveStuck(w, doc, n - 1);
      OneMoreStep(w, Polls(n - 1), Poll(1));
      PollLeavesStuck(After(w, Polls(n - 1)), doc);
    }
  }

  lemma OvertakenReadRun(first: Fields, second: Fields)
    ensures var w := After(SetupWorld(first), OvertakenRead(second));
      && w.store == map["server" := TypeDoc(second, 2, true, 2)] && w.workers == map[0 := IDLE, 1 := IDLE]
      && 0 in w.flights && w.flights[0] == Flight(1, "server", Some(TypeDoc(first, 1, true, 1)))
  {
    var w := SetupWorld(first);
    ThreeSteps(w, Fetch(0, 1, "server"), BeginUpdate(0, 0, "server", second), WriteUpdate(0, 2));
    var begun := Act(Act(w, Fetch(0, 1, "server")), BeginUpdate(0, 0, "server", second));
    assert begun.store == w.store && begun.workers == w.workers && begun.drafts[0] == Draft(0, "server", 1, second);
    assert begun.flights[0] == Flight(1, "server", Some(TypeDoc(first, 1, true, 1)));
    assert Invalidated(IDLE, {"server"}) == IDLE;
    assert w.store["server" := TypeDoc(second, 2, true, 2)] == map["server" := TypeDoc(second, 2, true, 2)];
    assert w.workers[0 := IDLE] == w.workers;
  }

  lemma PolledBeforeLanding(w: World, doc: TypeDoc)
    requires w.store.Keys == {"server"} && Active(w.store, "server").Some? && w.store["server"] != doc
    requires w.workers == map[0 := IDLE, 1 := IDLE]
    requires 0 in w.flights && w.flights[0] == Flight(1, "server", Some(doc))
    ensures StuckAt(After(w, [Poll(1), Put(0, false)]), doc)
  {
    TwoSteps(w, Poll(1), Put(0, false));
    var polled := Act(w, Poll(1));
    assert IsNewest(w.store, 0, polled.workers[1].watermark);
  }

  /** Ends with a poll that falls between the read's query and its caching, and `n` more polls after that. */
  function OvertakenReadThenPolls(first: Fields, second: Fields, n: nat): seq<Step> {
    Setup(first) + (OvertakenRead(second) + ([Poll(1), Put(0, false)] + Polls(n)))
  }

  /**
   An outdated document that reaches the cache after the poll that should have dropped it outlives any further polls.
   */
  lemma OvertakenReadOutlivesPolls(first: Fields, second: Fields, n: nat)
    ensures var w := After(NOTHING, OvertakenReadThenPolls(first, second, n));
      1 in w.workers && ReadType(w.workers[1], w.store, "server") != Active(w.store, "server")
  {
    var w := After(SetupWorld(first), OvertakenRead(second));
    AfterThreeParts(NOTHING, Setup(first), OvertakenRead(second), [Poll(1), Put(0, false)] + Polls(n));
    SetupRun(first);
    AfterAppend(w, [Poll(1), Put(0, false)], Polls(n));
    OvertakenReadRun(first, second);
    PolledBeforeLanding(w, TypeDoc(first, 1, true, 1));
    PollsLeaveStuck(After(w, [Poll(1), Put(0, false)]), TypeDoc(first, 1, true, 1), n);
  }

  // ------------------------------------------------------------ one worker's registry and invalidator

  class TypeStore {
    var types: Store

    constructor ()
      ensures types == map[]
    {
      types := map[];
    }
  }

  class SchemaRegistry {
    const db: TypeStore
    const ttl: real
    /** Cached answers, each with the time it lapses. */
    var cache: map<string, (real, Option<TypeDoc>)>
    var models: ModelCache

    constructor (db: TypeStore, ttl: real)
      ensures this.db == db && this.ttl == ttl && cache == map[] && models == map[]
    {
      this.db, this.ttl := db, ttl;
      cache, models := map[], map[];
    }

    /** The caches without the lapsed entry of `name`, as the interleavings see them. */
    ghost function Live(name: string, now: real, watermark: nat): Worker
      reads this
    {
      Worker(map k | k in cache && !(k == name && now >= cache[k].0) :: cache[k].1, models, watermark)
    }

    method Invalidate(name: string)
      modifies this
      ensures cache == old(cache) - {name} && models == old(models) - {name}
    {
      cache := cache - {name};
      models := models - {name};
    }

    /** Cached read of the active document; a lapsed entry is read afresh. */
    method GetType(name: string, now: real) returns (doc: Option<TypeDoc>)
      modifies this`cache
      ensures doc == ReadType(old(Live(name, now, 0)), db.types, name)
      ensures name in cache && cache[name].1 == doc
      ensures forall k | k != name :: (k in cache <==> k in old(cache)) && (k in cache ==> cache[k] == old(cache)[k])
    {
      if name in cache && now < cache[name].0 {
        return cache[name].1;
      }
      doc := None;
      if name in db.types && db.types[name].active {
        doc := Some(db.types[name]);
      }
      cache := cache[name := (now + ttl, doc)];
    }

    /** Compiles the document a cached read gives, reusing the model of the same version. */
    method CompileType(name: string, now: real) returns (model: Option<Model>)
      modifies this
      ensures var live := old(Live(name, now, 0));
        var doc := ReadType(live, db.types, name);
        && model == (if doc.None? then None else Some(CompiledModel(live, doc.value, name)))
        && models == Compiling(live, name, doc).models
    {
      var doc := GetType(name, now);
      if doc.None? {
        return None;
      }
      var version := doc.value.version;
      if name in models && models[name].version == version {
        assert models[name := models[name]] == models;
        return Some(models[name].model);
      }
      var compiled := CompileModel(doc.value.fields);
      models := models[name := Compiled(version, compiled)];
      model := Some(compiled);
    }

    /** `None` stands for a name that is taken. */
    method CreateType(name: string, fields: Fields, at: nat) returns (created: bool)
      modifies this, db
      ensures created <==> name !in old(db.types)
      ensures db.types == if created then old(db.types)[name := TypeDoc(fields, 1, true, at)] else old(db.types)
      ensures created ==> cache == old(cache) - {name} && models == old(models) - {name}
      ensures !created ==> cache == old(cache) && models == old(models)
    {
      if name in db.types {
        return false;
      }
      db.types := db.types[name := TypeDoc(fields, 1, true, at)];
      Invalidate(name);
      created := true;
    }

    method UpdateType(name: string, fields: Fields, at: nat) returns (updated: bool)
      modifies this, db
      ensures updated <==> Active(old(db.types), name).Some?
      ensures db.types == if updated then old(db.types)[name := TypeDoc(fields, old(db.types)[name].version + 1, true,
          at)] else old(db.types)
      ensures updated ==> cache == old(cache) - {name} && models == old(models) - {name}
      ensures !updated ==> cache == old(cache) && models == old(models)
    {
      if name !in db.types || !db.types[name].active {
        return false;
      }
      var version := db.types[name].version + 1;
      db.types := db.types[name := db.types[name].(fields := fields, version := version, updatedAt := at)];
      Invalidate(name);
      updated := true;
    }

    method DeactivateType(name: string, at: nat) returns (found: bool)
      modifies this, db
      ensures found <==> Active(old(db.types), name).Some?
      ensures db.types == if found then old(db.types)[name := old(db.types)[name].(active := false,
          updatedAt := at)] else old(db.types)
      ensures found ==> cache == old(cache) - {name} && models == old(models) - {name}
      ensures !found ==> cache == old(cache) && models == old(models)
    {
      if name !in db.types || !db.types[name].active {
        return false;
      }
      db.types := db.types[name := db.types[name].(active := false, updatedAt := at)];
      Invalidate(name);
      found := true;
    }
  }

  class RegistryCacheInvalidator {
    const registry: SchemaRegistry
    var watermark: nat

    constructor (registry: SchemaRegistry, now: nat)
      ensures this.registry == registry && watermark == now
    {
      this.registry, watermark := registry, now;
    }

    /** Drops what changed since the last sweep and moves the watermark to the newest change. */
    method PollOnce() returns (invalidated: nat)
      modifies this, registry
      ensures invalidated == |Changed(registry.db.types, old(watermark))|
      ensures registry.cache == old(registry.cache) - Changed(registry.db.types, old(watermark))
      ensures registry.models == old(registry.models) - Changed(registry.db.types, old(watermark))
      ensures IsNewest(registry.db.types, old(watermark), watermark)
    {
      var types := registry.db.types;
      var changed := Changed(types, watermark);
      var docs := Database.Scan(changed);
      var newest := watermark;
      for i := 0 to |docs|
        invariant watermark == old(watermark)
        invariant registry.cache == old(registry.cache) - set name | name in docs[..i]
        invariant registry.models == old(registry.models) - set name | name in docs[..i]
        invariant newest >= watermark
        invariant forall name | name in docs[..i] && name in types :: types[name].updatedAt <= newest
        invariant newest == watermark || exists name :: name in types && types[name].updatedAt == newest
      {
        var name := docs[i];
        assert name in docs && docs[..i + 1] == docs[..i] + [name];
        registry.Invalidate(name);
        if types[name].updatedAt > newest {
          newest := types[name].updatedAt;
        }
      }
      assert docs[..|docs|] == docs && (set name | name in docs) == changed;
      if newest > watermark {
        watermark := newest;
      }
      invalidated := |docs|;
    }
  }
}
