/**
 Many dispatchers over one outbox, each fetching, publishing and marking in separate steps, with operators
 replaying dead events.
 */
module DispatchRace {
  import opened Prelude
  import opened OutboxDispatch

  datatype Outcome = Fetched | Delivered | Raised

  /** A fetched row in a dispatcher's hands: the attempts it showed and how its delivery went. */
  datatype Held = Held(attempts: nat, outcome: Outcome)

  /** The rows, the events published at least once, and what each dispatcher holds. */
  datatype World = World(rows: Rows, published: set<nat>, hands: map<(nat, nat), Held>)

  const EMPTY := World(map[], {}, map[])

  /**
   `MarkRaises` is a mark that raised before it was stored, `MarkUnacknowledged` one that raised after. `Mark` stores
   the outcome in hand: sent, or the failed attempt. `Crash` also stands for a sweep cut short by a write that raised.
   */
  datatype Step =
    | Add(id: nat, now: real)
    | Fetch(dispatcher: nat, ids: set<nat>)
    | Publish(dispatcher: nat, id: nat, raises: bool)
    | MarkRaises(dispatcher: nat, id: nat)
    | MarkUnacknowledged(dispatcher: nat, id: nat)
    | Mark(dispatcher: nat, id: nat, now: real)
    | Replay(id: nat, now: real)
    | Crash(dispatcher: nat)

  /** What a dispatcher holds. */
  function HandsOf(w: World, d: nat): set<(nat, nat)> {
    set k | k in w.hands && k.0 == d
  }

  /** The rows a query answers with, as they are shown to the dispatcher. */
  function Shown(w: World, d: nat, ids: set<nat>): map<(nat, nat), Held> {
    map k | k in (set id | id in ids && id in PendingIds(w.rows) :: (d, id)) && k.1 in w.rows ::
      Held(w.rows[k.1].attempts, Fetched)
  }

  /** A dispatcher sweeps again once it has seen each event through; rows not yet due it has merely skipped. */
  predicate MayFetch(w: World, d: nat) {
    forall k | k in HandsOf(w, d) :: w.hands[k].outcome.Fetched?
  }

  /** Marks by id, whatever has become of the row since it was fetched. */
  function Marked(c: Settings, w: World, id: nat, h: Held, now: real): World
    requires id in w.rows
  {
    var row := if h.outcome.Delivered? then SentRow(w.rows[id]) else FailedRow(c, w.rows[id], h.attempts, now);
    w.(rows := w.rows[id := row])
  }

  function Act(c: Settings, w: World, step: Step): World {
    match step
    case Add(id, now) => if id in w.rows then w else w.(rows := w.rows[id := Row(Pending, 0, now)])
    case Fetch(d, ids) => if MayFetch(w, d) then w.(hands := w.hands - HandsOf(w, d) + Shown(w, d, ids)) else w
    case Publish(d, id, raises) =>
      if (d, id) !in w.hands || !w.hands[(d, id)].outcome.Fetched? then w
      else
        var outcome := if raises then Raised else Delivered;
        w.(hands := w.hands[(d, id) := w.hands[(d, id)].(outcome := outcome)],
           published := if raises then w.published else w.published + {id})
    case MarkRaises(d, id) =>
      if (d, id) !in w.hands || !w.hands[(d, id)].outcome.Delivered? then w
      else w.(hands := w.hands[(d, id) := w.hands[(d, id)].(outcome := Raised)])
    case MarkUnacknowledged(d, id) =>
      if (d, id) !in w.hands || id !in w.rows || !w.hands[(d, id)].outcome.Delivered? then w
      else w.(rows := w.rows[id := SentRow(w.rows[id])],
              hands := w.hands[(d, id) := w.hands[(d, id)].(outcome := Raised)])
    case Mark(d, id, now) =>
      if (d, id) !in w.hands || id !in w.rows || w.hands[(d, id)].outcome.Fetched? then w
      else Marked(c, w, id, w.hands[(d, id)], now).(hands := w.hands - {(d, id)})
    case Replay(id, now) =>
      if id in w.rows && w.rows[id].status == Dead then w.(rows := w.rows[id := Row(Pending, 0, now)]) else w
    case Crash(d) => w.(hands := w.hands - HandsOf(w, d))
  }

  function Interleave(c: Settings, w: World, steps: seq<Step>): World {
    if steps == [] then w else Act(c, Interleave(c, w, steps[..|steps| - 1]), steps[|steps| - 1])
  }

  lemma {:induction false} InterleaveAppend(c: Settings, w: World, first: seq<Step>, second: seq<Step>)
    ensures Interleave(c, w, first + second) == Interleave(c, Interleave(c, w, first), second)
  {
    if second == [] {
      assert first + second == first;
    } else {
      var n := |second| - 1;
      assert (first + second)[..|first| + n] == first + second[..n];
      InterleaveAppend(c, w, first, second[..n]);
    }
  }

  // ------------------------------------------------------------ what every run keeps

  /** Sent means published, also for what is about to be marked, and whatever is pending or held has an attempt left. */
  ghost predicate Sound(c: Settings, w: World) {
    && (forall id | id in w.rows && w.rows[id].status == Sent :: id in w.published)
    && (forall k | k in w.hands && w.hands[k].outcome.Delivered? :: k.1 in w.published)
    && AttemptsLeft(c, w.rows)
    && (forall k | k in w.hands :: w.hands[k].attempts < c.maxAttempts)
  }

  lemma MarkKeepsSound(c: Settings, w: World, d: nat, id: nat, now: real)
    requires GoodSettings(c) && Sound(c, w) && (d, id) in w.hands && id in w.rows
    requires !w.hands[(d, id)].outcome.Fetched?
    ensures var h := w.hands[(d, id)];
      Sound(c, Marked(c, w, id, h, now).(hands := w.hands - {(d, id)}))
  {
  }

  lemma StepKeepsSound(c: Settings, w: World, step: Step)
    requires GoodSettings(c) && Sound(c, w)
    ensures var t := Act(c, w, step); Sound(c, t) && w.rows.Keys <= t.rows.Keys && w.published <= t.published
  {
    if step.Mark? && (step.dispatcher, step.id) in w.hands && step.id in w.rows &&
        !w.hands[(step.dispatcher, step.id)].outcome.Fetched? {
      MarkKeepsSound(c, w, step.dispatcher, step.id, step.now);
    }
  }

  /**
   In every interleaving no row is removed, a sent event has been published, and no pending event has run out of
   attempts.
   */
  lemma {:induction false} EveryRunIsSound(c: Settings, w: World, steps: seq<Step>)
    requires GoodSettings(c) && Sound(c, w)
    ensures var t := Interleave(c, w, steps); Sound(c, t) && w.rows.Keys <= t.rows.Keys && w.published <= t.published
  {
    if steps != [] {
      EveryRunIsSound(c, w, steps[..|steps| - 1]);
      StepKeepsSound(c, Interleave(c, w, steps[..|steps| - 1]), steps[|steps| - 1]);
    }
  }

  // ------------------------------------------------------------ when sent is final

  predicate IsSent(w: World, id: nat) {
    id in w.rows && w.rows[id].status == Sent
  }

  /** The dispatcher holds the event and fetched it with one attempt left. */
  predicate HoldsLastAttempt(c: Settings, w: World, d: nat, id: nat) {
    (d, id) in w.hands && w.hands[(d, id)].attempts + 1 >= c.maxAttempts
  }

  ghost predicate LeavesSent(c: Settings, w: World, id: nat, steps: seq<Step>) {
    !IsSent(Interleave(c, w, steps), id)
  }

  lemma StepKeepsSent(c: Settings, w: World, id: nat, step: Step)
    requires IsSent(w, id) && forall d: nat :: !HoldsLastAttempt(c, w, d, id)
    ensures var t := Act(c, w, step); IsSent(t, id) && forall d: nat :: !HoldsLastAttempt(c, t, d, id)
  {
    var t := Act(c, w, step);
    forall d: nat
      ensures !HoldsLastAttempt(c, t, d, id)
    {
      assert !HoldsLastAttempt(c, w, d, id);
      assert (d, id) in t.hands ==> (d, id) in w.hands && t.hands[(d, id)].attempts == w.hands[(d, id)].attempts;
    }
    if step.Mark? && step.id == id {
      assert !HoldsLastAttempt(c, w, step.dispatcher, id);
    }
  }

  lemma {:induction false} RunKeepsSent(c: Settings, w: World, id: nat, steps: seq<Step>)
    requires IsSent(w, id) && forall d: nat :: !HoldsLastAttempt(c, w, d, id)
    ensures var t := Interleave(c, w, steps); IsSent(t, id) && forall d: nat :: !HoldsLastAttempt(c, t, d, id)
  {
    if steps != [] {
      RunKeepsSent(c, w, id, steps[..|steps| - 1]);
      StepKeepsSent(c, Interleave(c, w, steps[..|steps| - 1]), id, steps[|steps| - 1]);
    }
  }

  /** Whatever the dispatcher has done with the event so far, these steps end in its failing. */
  function FailingSteps(d: nat, id: nat): seq<Step> {
    [Publish(d, id, true), MarkRaises(d, id), Mark(d, id, 0.0)]
  }

  lemma ThreeSteps(c: Settings, w: World, a: Step, b: Step, e: Step)
    ensures Interleave(c, w, [a, b, e]) == Act(c, Act(c, Act(c, w, a), b), e)
  {
    assert [a, b, e][..2] == [a, b] && [a, b][..1] == [a] && [a][..0] == [];
    assert Interleave(c, w, [a]) == Act(c, w, a);
  }

  lemma LastAttemptBuries(c: Settings, w: World, d: nat, id: nat)
    requires id in w.rows && HoldsLastAttempt(c, w, d, id)
    ensures var t := Interleave(c, w, FailingSteps(d, id)); id in t.rows && t.rows[id].status == Dead
  {
    ThreeSteps(c, w, Publish(d, id, true), MarkRaises(d, id), Mark(d, id, 0.0));
    var one := Act(c, w, Publish(d, id, true));
    var two := Act(c, one, MarkRaises(d, id));
    assert (d, id) in two.hands && two.hands[(d, id)] == Held(w.hands[(d, id)].attempts, Raised);
  }

  /**
   From any world with a sent event, some interleaving makes it something else if and only if a dispatcher still holds
   it that fetched it with one attempt left.
   */
  lemma SentIsFinalIff(c: Settings, w: World, id: nat)
    requires IsSent(w, id)
    ensures (exists steps :: LeavesSent(c, w, id, steps)) <==> exists d: nat :: HoldsLastAttempt(c, w, d, id)
  {
    if d: nat :| HoldsLastAttempt(c, w, d, id) {
      LastAttemptBuries(c, w, d, id);
      assert LeavesSent(c, w, id, FailingSteps(d, id));
    } else {
      forall steps
        ensures !LeavesSent(c, w, id, steps)
      {
        RunKeepsSent(c, w, id, steps);
      }
    }
  }

  // ------------------------------------------------------------ one dispatcher

  /** A step of one dispatcher, whose marks are not lost once stored, or of someone who adds or replays events. */
  predicate ByOne(d: nat, step: Step) {
    match step
    case Add(_, _) => true
    case Replay(_, _) => true
    case MarkUnacknowledged(_, _) => false
    case _ => step.dispatcher == d
  }

  ghost predicate HeldArePending(w: World, d: nat) {
    forall k | k in w.hands :: k.0 == d && k.1 in w.rows && w.rows[k.1].status == Pending
  }

  lemma OneDispatcherStep(c: Settings, w: World, d: nat, step: Step)
    requires HeldArePending(w, d) && ByOne(d, step)
    ensures var t := Act(c, w, step); HeldArePending(t, d) && forall id | IsSent(w, id) :: IsSent(t, id)
  {
  }

  /** With one dispatcher whose marks are acknowledged when they are stored, sent is final in every run. */
  lemma {:induction false} OneDispatcherKeepsSent(c: Settings, w: World, d: nat, steps: seq<Step>)
    requires HeldArePending(w, d) && forall i | 0 <= i < |steps| :: ByOne(d, steps[i])
    ensures var t := Interleave(c, w, steps); HeldArePending(t, d) && forall id | IsSent(w, id) :: IsSent(t, id)
  {
    if steps != [] {
      OneDispatcherKeepsSent(c, w, d, steps[..|steps| - 1]);
      OneDispatcherStep(c, Interleave(c, w, steps[..|steps| - 1]), d, steps[|steps| - 1]);
    }
  }

  // ------------------------------------------------------------ two dispatchers

  /** A new event whose delivery has failed `n` times. */
  function Failures(n: nat): seq<Step> {
    if n == 0 then [Add(0, 0.0)] else Failures(n - 1) + [Fetch(0, {0}), Publish(0, 0, true), Mark(0, 0, 0.0)]
  }

  lemma FetchOne(c: Settings, w: World, d: nat)
    requires 0 in w.rows && w.rows[0].status == Pending && HandsOf(w, d) == {}
    ensures Act(c, w, Fetch(d, {0})) == w.(hands := w.hands[(d, 0) := Held(w.rows[0].attempts, Fetched)])
  {
    var shown := Shown(w, d, {0});
    assert shown.Keys == {(d, 0)};
    assert w.hands - HandsOf(w, d) + shown == w.hands[(d, 0) := Held(w.rows[0].attempts, Fetched)];
  }

  lemma FailureRound(c: Settings, w: World, n: nat)
    requires w.rows.Keys == {0} && w.rows[0].status == Pending && w.rows[0].attempts == n && w.hands.Keys == {}
    requires n + 1 < c.maxAttempts
    ensures var t := Interleave(c, w, [Fetch(0, {0}), Publish(0, 0, true), Mark(0, 0, 0.0)]);
      t.rows.Keys == {0} && t.rows[0].status == Pending && t.rows[0].attempts == n + 1 && t.hands.Keys == {}
  {
    ThreeSteps(c, w, Fetch(0, {0}), Publish(0, 0, true), Mark(0, 0, 0.0));
    FetchOne(c, w, 0);
    var two := Act(c, Act(c, w, Fetch(0, {0})), Publish(0, 0, true));
    assert two.rows == w.rows && two.hands.Keys == {(0, 0)} && two.hands[(0, 0)] == Held(n, Raised);
  }

  lemma {:induction false} FailuresRun(c: Settings, n: nat)
    requires n < c.maxAttempts
    ensures var t := Interleave(c, EMPTY, Failures(n));
      t.rows.Keys == {0} && t.rows[0].status == Pending && t.rows[0].attempts == n && t.hands.Keys == {}
  {
    if n == 0 {
      assert Failures(0)[..0] == [];
      assert Interleave(c, EMPTY, Failures(0)) == Act(c, EMPTY, Add(0, 0.0));
    } else {
      FailuresRun(c, n - 1);
      InterleaveAppend(c, EMPTY, Failures(n - 1), [Fetch(0, {0}), Publish(0, 0, true), Mark(0, 0, 0.0)]);
      FailureRound(c, Interleave(c, EMPTY, Failures(n - 1)), n - 1);
    }
  }

  /** Two dispatchers fetch the last attempt; the first delivers it. */
  function SentByFirst(n: nat): seq<Step> {
    Failures(n) + ([Fetch(0, {0})] + [Fetch(1, {0}), Publish(0, 0, false), Mark(0, 0, 0.0)])
  }

  lemma BothFetch(c: Settings, w: World, n: nat)
    requires w.rows.Keys == {0} && w.rows[0].status == Pending && w.rows[0].attempts == n && w.hands.Keys == {}
    ensures var fetched := Act(c, w, Fetch(0, {0}));
      var t := Interleave(c, fetched, [Fetch(1, {0}), Publish(0, 0, false), Mark(0, 0, 0.0)]);
      IsSent(t, 0) && 0 in t.published && (1, 0) in t.hands && t.hands[(1, 0)] == Held(n, Fetched)
  {
    var one := Act(c, w, Fetch(0, {0}));
    FetchOne(c, w, 0);
    ThreeSteps(c, one, Fetch(1, {0}), Publish(0, 0, false), Mark(0, 0, 0.0));
    assert HandsOf(one, 1) == {};
    FetchOne(c, one, 1);
  }

  /**
   Sent is not final with two dispatchers, whatever the settings: one that fetched the last attempt before the other
   delivered it buries the event when its own delivery fails.
   */
  lemma SlowFailureBuriesSentEvent(c: Settings)
    requires GoodSettings(c)
    ensures var sent := Interleave(c, EMPTY, SentByFirst(c.maxAttempts - 1));
      var buried := Interleave(c, sent, FailingSteps(1, 0));
      && IsSent(sent, 0) && 0 in sent.published
      && 0 in buried.rows && buried.rows[0].status == Dead
  {
    var n := c.maxAttempts - 1;
    FailuresRun(c, n);
    var w := Interleave(c, EMPTY, Failures(n));
    var late := [Fetch(1, {0}), Publish(0, 0, false), Mark(0, 0, 0.0)];
    InterleaveAppend(c, EMPTY, Failures(n), [Fetch(0, {0})] + late);
    InterleaveAppend(c, w, [Fetch(0, {0})], late);
    assert [Fetch(0, {0})][..0] == [];
    assert Interleave(c, w, [Fetch(0, {0})]) == Act(c, w, Fetch(0, {0}));
    BothFetch(c, w, n);
    LastAttemptBuries(c, Interleave(c, EMPTY, SentByFirst(n)), 1, 0);
  }
}
