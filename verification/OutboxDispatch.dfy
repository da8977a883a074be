/** The outbox and its dispatcher: earliest-due batches, retries with capped backoff, and dead-lettering. */
module OutboxDispatch {
  import opened Prelude

  datatype Status = Pending | Sent | Dead

  datatype Row = Row(status: Status, attempts: nat, due: real)

  type Rows = map<nat, Row>

  datatype Settings = Settings(batch: nat, maxAttempts: nat, base: real, cap: real)

  predicate GoodSettings(c: Settings) {
    c.batch >= 1 && c.maxAttempts >= 1 && c.base >= 0.0 && c.cap >= 0.0
  }

  // ------------------------------------------------------------ backoff

  function Pow2(n: nat): (p: nat)
    ensures p >= 1
  {
    if n == 0 then 1 else 2 * Pow2(n - 1)
  }

  function Backoff(c: Settings, attempts: nat): real
    requires attempts >= 1
  {
    var delay := c.base * Pow2(attempts - 1) as real;
    if delay < c.cap then delay else c.cap
  }

  lemma BackoffDoubles(c: Settings, a: nat)
    requires GoodSettings(c) && 1 <= a
    ensures Backoff(c, a) <= Backoff(c, a + 1)
  {
    var p := Pow2(a - 1) as real;
    assert Pow2(a) == 2 * Pow2(a - 1);
    assert c.base * (2.0 * p) == 2.0 * (c.base * p) && c.base * p >= 0.0;
  }

  /** Later attempts never wait less. */
  lemma {:induction false} BackoffGrows(c: Settings, a: nat, b: nat)
    requires GoodSettings(c) && 1 <= a <= b
    ensures Backoff(c, a) <= Backoff(c, b)
  {
    if a < b {
      BackoffGrows(c, a, b - 1);
      BackoffDoubles(c, b - 1);
    }
  }

  /** The waits before attempts two to `failures + 1`, added up. */
  function TotalDelay(c: Settings, failures: nat): real {
    if failures == 0 then 0.0 else TotalDelay(c, failures - 1) + Backoff(c, failures)
  }

  lemma Distribute(x: real, y: real, z: real)
    ensures x * (y + z) == x * y + x * z
  {
  }

  lemma AddedUnderBase(base: real, p: real, q: real, total: real, wait: real)
    requires total <= base * (p - 1.0) && wait <= base * p && q == p + p
    ensures total + wait <= base * (q - 1.0)
  {
    assert q - 1.0 == (p - 1.0) + p;
    Distribute(base, p - 1.0, p);
  }

  lemma AddedUnderCap(cap: real, n: real, m: real, total: real, wait: real)
    requires total <= cap * n && wait <= cap && m == n + 1.0
    ensures total + wait <= cap * m
  {
    Distribute(cap, n, 1.0);
  }

  lemma BackoffUnderBoth(c: Settings, attempts: nat)
    requires attempts >= 1
    ensures Backoff(c, attempts) <= c.base * Pow2(attempts - 1) as real && Backoff(c, attempts) <= c.cap
  {
  }

  lemma TotalUnderBaseStep(c: Settings, n: nat)
    requires n > 0 && TotalDelay(c, n - 1) <= c.base * (Pow2(n - 1) as real - 1.0)
    ensures TotalDelay(c, n) <= c.base * (Pow2(n) as real - 1.0)
  {
    BackoffUnderBoth(c, n);
    AddedUnderBase(c.base, Pow2(n - 1) as real, Pow2(n) as real, TotalDelay(c, n - 1), Backoff(c, n));
  }

  lemma {:induction false} TotalUnderBase(c: Settings, failures: nat)
    ensures TotalDelay(c, failures) <= c.base * (Pow2(failures) as real - 1.0)
  {
    if failures == 0 {
      assert Pow2(0) as real - 1.0 == 0.0;
    } else {
      TotalUnderBase(c, failures - 1);
      TotalUnderBaseStep(c, failures);
    }
  }

  lemma {:induction false} TotalUnderCap(c: Settings, failures: nat)
    ensures TotalDelay(c, failures) <= c.cap * failures as real
  {
    if failures > 0 {
      TotalUnderCap(c, failures - 1);
      BackoffUnderBoth(c, failures);
      AddedUnderCap(c.cap, (failures - 1) as real, failures as real, TotalDelay(c, failures - 1),
                    Backoff(c, failures));
    }
  }

  /** The waits after some failures add up to no more than the uncapped sum and no more than the cap each time. */
  lemma TotalDelayBounded(c: Settings, failures: nat)
    requires GoodSettings(c)
    ensures TotalDelay(c, failures) <= c.base * (Pow2(failures) as real - 1.0)
    ensures TotalDelay(c, failures) <= c.cap * failures as real
  {
    TotalUnderBase(c, failures);
    TotalUnderCap(c, failures);
  }

  // ------------------------------------------------------------ one row

  /** A delivery that worked. */
  function SentRow(r: Row): Row {
    r.(status := Sent)
  }

  /**
   A delivery that raised: dead after the last attempt, otherwise due again after the backoff. The status is not
   reset.
   */
  function FailedRow(c: Settings, r: Row, seen: nat, now: real): Row {
    var attempts := seen + 1;
    if attempts >= c.maxAttempts then r.(status := Dead, attempts := attempts)
    else r.(attempts := attempts, due := now + Backoff(c, attempts))
  }

  /**
   How publishing an event and marking it sent went. One handler covers both: an event that was published but whose
   mark raised is filed like one whose publication raised, whether or not the mark had been stored.
   */
  datatype Delivery = Acknowledged | PublishRaised | MarkRaised | MarkUnacknowledged

  /** How each event of a sweep went; the events not listed went well. */
  type Outcomes = map<nat, Delivery>

  function OutcomeOf(outcomes: Outcomes, id: nat): Delivery {
    if id in outcomes then outcomes[id] else Acknowledged
  }

  function Settle(c: Settings, r: Row, outcome: Delivery, now: real): Row {
    match outcome
    case Acknowledged => SentRow(r)
    case PublishRaised => FailedRow(c, r, r.attempts, now)
    case MarkRaised => FailedRow(c, r, r.attempts, now)
    case MarkUnacknowledged => FailedRow(c, SentRow(r), r.attempts, now)
  }

  // ------------------------------------------------------------ one call

  function PendingIds(rows: Rows): set<nat> {
    set id | id in rows && rows[id].status == Pending
  }

  function DueIds(rows: Rows, now: real): set<nat> {
    set id | id in rows && rows[id].status == Pending && rows[id].due <= now
  }

  function Min(a: nat, b: nat): nat {
    if a < b then a else b
  }

  /** The answer of the sorted and limited query. */
  ghost predicate EarliestPending(rows: Rows, docs: seq<nat>, limit: nat) {
    && Distinct(docs)
    && (forall id | id in docs :: id in PendingIds(rows))
    && |docs| == Min(limit, |PendingIds(rows)|)
    && (forall i, j | 0 <= i < j < |docs| && docs[i] in rows && docs[j] in rows ::
          rows[docs[i]].due <= rows[docs[j]].due)
    && (forall id, d | id in PendingIds(rows) && id !in docs && d in docs && d in rows :: rows[d].due <= rows[id].due)
  }

  /** `picked` are as many of the due rows as fit the batch, none due later than one left out. */
  ghost predicate EarliestDue(rows: Rows, picked: set<nat>, now: real, limit: nat) {
    && picked <= DueIds(rows, now)
    && |picked| == Min(limit, |DueIds(rows, now)|)
    && (forall id, p | id in DueIds(rows, now) && id !in picked && p in picked && p in rows ::
          rows[p].due <= rows[id].due)
  }

  /** Every picked row settled, every other one as it was. */
  function SettleAll(c: Settings, rows: Rows, picked: set<nat>, outcomes: Outcomes, now: real): Rows {
    map id | id in rows :: if id in picked then Settle(c, rows[id], OutcomeOf(outcomes, id), now) else rows[id]
  }

  lemma {:induction false} SeqAsSet<T>(s: seq<T>)
    requires Distinct(s)
    ensures |set x | x in s| == |s|
  {
    if s != [] {
      var n := |s| - 1;
      SeqAsSet(s[..n]);
      assert s == s[..n] + [s[n]];
      assert (set x | x in s) == (set x | x in s[..n]) + {s[n]};
      assert s[n] !in s[..n];
    }
  }

  /** The rows of a batch that are due. */
  function DueOf(rows: Rows, docs: seq<nat>, now: real): set<nat> {
    set id | id in docs && id in DueIds(rows, now)
  }

  lemma NextDue(rows: Rows, docs: seq<nat>, i: nat, now: real)
    requires i < |docs| && Distinct(docs)
    ensures docs[i] !in DueOf(rows, docs[..i], now)
    ensures DueOf(rows, docs[..i + 1], now) ==
      DueOf(rows, docs[..i], now) + if docs[i] in DueIds(rows, now) then {docs[i]} else {}
  {
    assert docs[..i + 1] == docs[..i] + [docs[i]];
  }

  /** Filtering the limited batch by due time loses no due row to one that is backing off. */
  lemma FilteredIsEarliestDue(rows: Rows, docs: seq<nat>, limit: nat, now: real)
    requires EarliestPending(rows, docs, limit)
    ensures EarliestDue(rows, DueOf(rows, docs, now), now, limit)
  {
    var due := DueIds(rows, now);
    var all := set id | id in docs;
    var picked := DueOf(rows, docs, now);
    SeqAsSet(docs);
    if forall id | id in docs :: id in due {
      assert picked == all;
      SubsetSize(picked, due);
      SubsetSize(due, PendingIds(rows));
      if |docs| < limit {
        assert all <= PendingIds(rows) && |all| == |PendingIds(rows)|;
        SameSize(all, PendingIds(rows));
      }
    } else {
      var late :| late in docs && late !in due;
      assert due == picked;
      SubsetSize(picked, all);
    }
  }

  lemma {:induction false} SubsetSize<T>(a: set<T>, b: set<T>)
    requires a <= b
    ensures |a| <= |b|
  {
    if a != {} {
      var x :| x in a;
      SubsetSize(a - {x}, b - {x});
    }
  }

  lemma SameSize<T>(a: set<T>, b: set<T>)
    requires a <= b && |a| == |b|
    ensures a == b
  {
    forall x | x in b
      ensures x in a
    {
      if x !in a {
        SubsetSize(a, b - {x});
      }
    }
  }

  // ------------------------------------------------------------ progress

  /** The attempts that pending rows have left, each row's counted from the number it has used up. */
  function Attempts(c: Settings, rows: Rows): set<(nat, nat)> {
    set id, k: nat | id in rows && rows[id].status == Pending && rows[id].attempts <= k < c.maxAttempts :: (id, k)
  }

  function Work(c: Settings, rows: Rows): nat {
    |Attempts(c, rows)|
  }

  /** A pending row always has an attempt left. */
  ghost predicate AttemptsLeft(c: Settings, rows: Rows) {
    forall id | id in rows && rows[id].status == Pending :: rows[id].attempts < c.maxAttempts
  }

  /** The attempt each of some rows is about to use. */
  function NextAttempts(rows: Rows, picked: set<nat>): set<(nat, nat)> {
    set id | id in picked && id in rows :: (id, rows[id].attempts)
  }

  lemma {:induction false} OneAttemptEach(rows: Rows, picked: set<nat>)
    requires picked <= rows.Keys
    ensures |NextAttempts(rows, picked)| == |picked|
  {
    if picked != {} {
      var id :| id in picked;
      OneAttemptEach(rows, picked - {id});
      assert NextAttempts(rows, picked) == NextAttempts(rows, picked - {id}) + {(id, rows[id].attempts)};
    }
  }

  lemma NextAttemptsUsedUp(c: Settings, rows: Rows, picked: set<nat>, outcomes: Outcomes, now: real)
    requires AttemptsLeft(c, rows) && picked <= PendingIds(rows)
    ensures NextAttempts(rows, picked) <= Attempts(c, rows)
    ensures Attempts(c, SettleAll(c, rows, picked, outcomes, now)) <= Attempts(c, rows) - NextAttempts(rows, picked)
  {
    var rows' := SettleAll(c, rows, picked, outcomes, now);
    forall x | x in Attempts(c, rows')
      ensures x in Attempts(c, rows) && x !in NextAttempts(rows, picked)
    {
      assert x.0 in picked ==> rows'[x.0] == Settle(c, rows[x.0], OutcomeOf(outcomes, x.0), now);
    }
  }

  lemma WorkDrops(c: Settings, rows: Rows, picked: set<nat>, outcomes: Outcomes, now: real)
    requires AttemptsLeft(c, rows) && picked <= PendingIds(rows)
    ensures Work(c, SettleAll(c, rows, picked, outcomes, now)) + |picked| <= Work(c, rows)
  {
    var rest := Attempts(c, rows) - NextAttempts(rows, picked);
    NextAttemptsUsedUp(c, rows, picked, outcomes, now);
    OneAttemptEach(rows, picked);
    SubsetSize(Attempts(c, SettleAll(c, rows, picked, outcomes, now)), rest);
    assert |rest| == Work(c, rows) - |picked|;
  }

  /** A call uses up at least one attempt of each row it processes, and keeps every row. */
  lemma CallProgresses(c: Settings, rows: Rows, picked: set<nat>, outcomes: Outcomes, now: real)
    requires AttemptsLeft(c, rows) && EarliestDue(rows, picked, now, c.batch)
    ensures var rows' := SettleAll(c, rows, picked, outcomes, now);
      && rows'.Keys == rows.Keys && AttemptsLeft(c, rows')
      && Work(c, rows') + Min(c.batch, |DueIds(rows, now)|) <= Work(c, rows)
  {
    WorkDrops(c, rows, picked, outcomes, now);
  }

  /** One call of a run: its clock, the rows it processes and how their deliveries go. */
  datatype Call = Call(now: real, picked: set<nat>, outcomes: Outcomes)

  function Run(c: Settings, rows: Rows, calls: seq<Call>): Rows {
    if calls == [] then rows
    else
      var last := calls[|calls| - 1];
      SettleAll(c, Run(c, rows, calls[..|calls| - 1]), last.picked, last.outcomes, last.now)
  }

  /** Each call processes the earliest due rows and finds everything pending due. */
  ghost predicate PromptRun(c: Settings, rows: Rows, calls: seq<Call>) {
    calls != [] ==>
      && PromptRun(c, rows, calls[..|calls| - 1])
      && var before, last := Run(c, rows, calls[..|calls| - 1]), calls[|calls| - 1];
      && EarliestDue(before, last.picked, last.now, c.batch)
      && DueIds(before, last.now) == PendingIds(before)
  }

  /** Every pending row has at most `n` attempts left. */
  ghost predicate Shallow(c: Settings, rows: Rows, n: nat) {
    forall id | id in rows && rows[id].status == Pending :: c.maxAttempts - rows[id].attempts <= n
  }

  function Remaining(c: Settings, tried: nat): nat {
    if tried < c.maxAttempts then c.maxAttempts - tried else 0
  }

  /** After `k` calls: each had a whole batch to do, or all but the first `m` tried everything that was pending. */
  ghost predicate Advanced(c: Settings, start: nat, rows: Rows, k: nat) {
    Work(c, rows) + k * c.batch <= start || exists m: nat :: TriedAll(c, start, rows, k, m)
  }

  ghost predicate TriedAll(c: Settings, start: nat, rows: Rows, k: nat, m: nat) {
    m <= k && m * c.batch <= start && Shallow(c, rows, Remaining(c, k - m)) && |PendingIds(rows)| < c.batch
  }

  /** A call that finds less than a batch pending tries all of it. */
  lemma SmallBacklogIsTried(c: Settings, rows: Rows, picked: set<nat>, outcomes: Outcomes, now: real, tried: nat)
    requires GoodSettings(c) && AttemptsLeft(c, rows) && EarliestDue(rows, picked, now, c.batch)
    requires DueIds(rows, now) == PendingIds(rows) && |PendingIds(rows)| < c.batch
    requires Shallow(c, rows, Remaining(c, tried))
    ensures var rows' := SettleAll(c, rows, picked, outcomes, now);
      Shallow(c, rows', Remaining(c, tried + 1)) && |PendingIds(rows')| < c.batch
  {
    var rows' := SettleAll(c, rows, picked, outcomes, now);
    SameSize(picked, PendingIds(rows));
    SubsetSize(PendingIds(rows'), PendingIds(rows));
  }

  lemma AdvanceStep(c: Settings, start: nat, rows: Rows, picked: set<nat>, outcomes: Outcomes, now: real, k: nat)
    requires GoodSettings(c) && AttemptsLeft(c, rows) && EarliestDue(rows, picked, now, c.batch)
    requires DueIds(rows, now) == PendingIds(rows) && Advanced(c, start, rows, k)
    ensures Advanced(c, start, SettleAll(c, rows, picked, outcomes, now), k + 1)
  {
    var rows' := SettleAll(c, rows, picked, outcomes, now);
    CallProgresses(c, rows, picked, outcomes, now);
    if Work(c, rows) + k * c.batch <= start {
      if |PendingIds(rows)| >= c.batch {
        assert (k + 1) * c.batch == k * c.batch + c.batch;
      } else {
        SmallBacklogIsTried(c, rows, picked, outcomes, now, 0);
        assert TriedAll(c, start, rows', k + 1, k);
      }
    } else {
      var m: nat :| TriedAll(c, start, rows, k, m);
      SmallBacklogIsTried(c, rows, picked, outcomes, now, k - m);
      assert TriedAll(c, start, rows', k + 1, m);
    }
  }

  lemma {:induction false} PromptRunAdvances(c: Settings, rows: Rows, calls: seq<Call>)
    requires GoodSettings(c) && AttemptsLeft(c, rows) && PromptRun(c, rows, calls)
    ensures var t := Run(c, rows, calls);
      AttemptsLeft(c, t) && t.Keys == rows.Keys && Advanced(c, Work(c, rows), t, |calls|)
  {
    if calls != [] {
      var last := calls[|calls| - 1];
      var before := Run(c, rows, calls[..|calls| - 1]);
      PromptRunAdvances(c, rows, calls[..|calls| - 1]);
      CallProgresses(c, before, last.picked, last.outcomes, last.now);
      AdvanceStep(c, Work(c, rows), before, last.picked, last.outcomes, last.now, |calls| - 1);
    }
  }

  /**
   The dispatcher drains the outbox: with `w` attempts left over all pending rows, every row is sent or dead after
   `w / batch + maxAttempts` calls that each find everything pending due, whatever deliveries fail, and no row is lost.
   */
  lemma OutboxDrains(c: Settings, rows: Rows, calls: seq<Call>)
    requires GoodSettings(c) && AttemptsLeft(c, rows) && PromptRun(c, rows, calls)
    requires |calls| >= Work(c, rows) / c.batch + c.maxAttempts
    ensures var t := Run(c, rows, calls); t.Keys == rows.Keys && forall id | id in t :: t[id].status != Pending
  {
    var t, k, w := Run(c, rows, calls), |calls|, Work(c, rows);
    PromptRunAdvances(c, rows, calls);
    MoreCallsThanBatches(w, c.batch, k, c.maxAttempts);
    var m: nat :| TriedAll(c, w, t, k, m);
    FewBatches(w, c.batch, m);
  }

  lemma MoreCallsThanBatches(w: nat, batch: nat, k: nat, extra: nat)
    requires batch >= 1 && extra >= 1 && k >= w / batch + extra
    ensures k * batch > w
  {
    var q := w / batch;
    assert (q + 1) * batch > w;
    assert k * batch >= (q + 1) * batch;
  }

  lemma FewBatches(w: nat, batch: nat, m: nat)
    requires batch >= 1 && m * batch <= w
    ensures m <= w / batch
  {
    var q := w / batch;
    assert (q + 1) * batch > w;
    assert m >= q + 1 ==> m * batch >= (q + 1) * batch;
  }

  // ------------------------------------------------------------ a lone row

  /** The outbox with one new event. */
  const LONE: Rows := map[0 := Row(Pending, 0, 0.0)]

  /** The start of call `n`: the calls come a backoff cap apart. */
  function LoneClock(c: Settings, n: nat): real {
    if n == 0 then 0.0 else LoneClock(c, n - 1) + c.cap
  }

  function LoneCall(c: Settings, n: nat, outcome: Delivery): Call {
    Call(LoneClock(c, n), {0}, map[0 := outcome])
  }

  /** `n` calls in each of which the lone event goes the same way. */
  function LoneCalls(c: Settings, n: nat, outcome: Delivery): (calls: seq<Call>)
    ensures |calls| == n
  {
    if n == 0 then [] else LoneCalls(c, n - 1, outcome) + [LoneCall(c, n - 1, outcome)]
  }

  lemma OneMoreCall(c: Settings, rows: Rows, calls: seq<Call>, call: Call)
    ensures var t := Run(c, rows, calls);
      && Run(c, rows, calls + [call]) == SettleAll(c, t, call.picked, call.outcomes, call.now)
      && ((PromptRun(c, rows, calls) && EarliestDue(t, call.picked, call.now, c.batch) &&
           DueIds(t, call.now) == PendingIds(t)) ==> PromptRun(c, rows, calls + [call]))
  {
    var more := calls + [call];
    assert more[..|more| - 1] == calls && more[|more| - 1] == call;
  }

  /** The lone row before call `n`: due, with `n` attempts behind it. */
  ghost predicate LoneAt(c: Settings, rows: Rows, n: nat) {
    rows.Keys == {0} && rows[0].attempts == n && rows[0].due <= LoneClock(c, n)
  }

  lemma LoneRowDue(c: Settings, rows: Rows, n: nat)
    requires GoodSettings(c) && LoneAt(c, rows, n) && rows[0].status == Pending
    ensures var now := LoneClock(c, n);
      DueIds(rows, now) == PendingIds(rows) == {0} && EarliestDue(rows, {0}, now, c.batch)
  {
  }

  lemma LoneStep(c: Settings, rows: Rows, n: nat, outcome: Delivery)
    requires GoodSettings(c) && LoneAt(c, rows, n) && n < c.maxAttempts && rows[0].status == Pending
    requires outcome.PublishRaised? || outcome.MarkRaised?
    ensures var rows' := SettleAll(c, rows, {0}, map[0 := outcome], LoneClock(c, n));
      LoneAt(c, rows', n + 1) && rows'[0].status == if n + 1 < c.maxAttempts then Pending else Dead
  {
    var rows' := SettleAll(c, rows, {0}, map[0 := outcome], LoneClock(c, n));
    assert rows'.Keys == {0};
    assert rows'[0] == FailedRow(c, rows[0], n, LoneClock(c, n));
  }

  /** The calls find everything due and leave the lone row with `n` attempts behind it, dead if they were all. */
  ghost predicate LoneRun(c: Settings, calls: seq<Call>, n: nat) {
    && PromptRun(c, LONE, calls)
    && var t := Run(c, LONE, calls);
    && LoneAt(c, t, n) && t[0].status == if n < c.maxAttempts then Pending else Dead
  }

  lemma {:induction false} LoneRowState(c: Settings, n: nat, outcome: Delivery)
    requires GoodSettings(c) && n <= c.maxAttempts && (outcome.PublishRaised? || outcome.MarkRaised?)
    ensures var t := Run(c, LONE, LoneCalls(c, n, outcome));
      LoneAt(c, t, n) && t[0].status == if n < c.maxAttempts then Pending else Dead
  {
    if n > 0 {
      var calls := LoneCalls(c, n - 1, outcome);
      LoneRowState(c, n - 1, outcome);
      LoneStep(c, Run(c, LONE, calls), n - 1, outcome);
      OneMoreCall(c, LONE, calls, LoneCall(c, n - 1, outcome));
    }
  }

  lemma {:induction false} LoneCallsPrompt(c: Settings, n: nat, outcome: Delivery)
    requires GoodSettings(c) && n <= c.maxAttempts && (outcome.PublishRaised? || outcome.MarkRaised?)
    ensures PromptRun(c, LONE, LoneCalls(c, n, outcome))
  {
    if n > 0 {
      var calls := LoneCalls(c, n - 1, outcome);
      LoneCallsPrompt(c, n - 1, outcome);
      LoneRowState(c, n - 1, outcome);
      LoneRowDue(c, Run(c, LONE, calls), n - 1);
      OneMoreCall(c, LONE, calls, LoneCall(c, n - 1, outcome));
    }
  }

  /** A lone row whose delivery keeps raising uses up one attempt a call, and is buried with the last. */
  lemma LoneRowRun(c: Settings, n: nat, outcome: Delivery)
    requires GoodSettings(c) && n <= c.maxAttempts && (outcome.PublishRaised? || outcome.MarkRaised?)
    ensures LoneRun(c, LoneCalls(c, n, outcome), n)
  {
    LoneRowState(c, n, outcome);
    LoneCallsPrompt(c, n, outcome);
  }

  /**
   Whenever it is tried, a lone row whose delivery keeps raising is pending until its last attempt, however large the
   batch.
   */
  lemma {:induction false} LoneRowNeedsEveryAttempt(c: Settings, calls: seq<Call>, id: nat)
    requires GoodSettings(c) && |calls| < c.maxAttempts
    requires forall i | 0 <= i < |calls| :: calls[i].picked == {id}
    requires forall i | 0 <= i < |calls| ::
      OutcomeOf(calls[i].outcomes, id).PublishRaised? || OutcomeOf(calls[i].outcomes, id).MarkRaised?
    ensures var start := map[id := Row(Pending, 0, 0.0)];
      var t := Run(c, start, calls); id in t && t[id].status == Pending && t[id].attempts == |calls|
  {
    if calls != [] {
      LoneRowNeedsEveryAttempt(c, calls[..|calls| - 1], id);
    }
  }

  /** The number of batches that holds `w` attempts. */
  function Batches(w: nat, batch: nat): nat
    requires batch >= 1
  {
    (w + batch - 1) / batch
  }

  ghost predicate Drained(rows: Rows) {
    forall id | id in rows :: rows[id].status != Pending
  }

  /** With these settings a prompt run drains any backlog in as many calls as its attempts left fill batches. */
  ghost predicate WholeBatchesSuffice(c: Settings)
    requires c.batch >= 1
  {
    forall rows: Rows, calls: seq<Call> ::
      AttemptsLeft(c, rows) && PromptRun(c, rows, calls) && |calls| == Batches(Work(c, rows), c.batch)
      ==> Drained(Run(c, rows, calls))
  }

  lemma SettledStep(c: Settings, rows: Rows, picked: set<nat>, outcomes: Outcomes, now: real)
    requires GoodSettings(c) && (c.batch == 1 || c.maxAttempts == 1)
    requires AttemptsLeft(c, rows) && EarliestDue(rows, picked, now, c.batch) && DueIds(rows, now) == PendingIds(rows)
    ensures var rows' := SettleAll(c, rows, picked, outcomes, now);
      AttemptsLeft(c, rows') && (Drained(rows') || (!Drained(rows) && Work(c, rows') + c.batch <= Work(c, rows)))
  {
    CallProgresses(c, rows, picked, outcomes, now);
    if |PendingIds(rows)| < c.batch {
      SmallBacklogIsTried(c, rows, picked, outcomes, now, 0);
      if c.batch == 1 {
        assert PendingIds(rows) == {};
      }
    } else {
      assert PendingIds(rows) != {};
    }
  }

  lemma OneMoreBatch(n: nat, batch: nat)
    ensures (n + 1) * batch == n * batch + batch
  {
  }

  lemma {:induction false} SettledAtOnce(c: Settings, rows: Rows, calls: seq<Call>)
    requires GoodSettings(c) && (c.batch == 1 || c.maxAttempts == 1)
    requires AttemptsLeft(c, rows) && PromptRun(c, rows, calls)
    ensures var t := Run(c, rows, calls);
      AttemptsLeft(c, t) && (Work(c, t) + |calls| * c.batch <= Work(c, rows) || Drained(t))
  {
    if calls != [] {
      var n := |calls| - 1;
      var before, last := Run(c, rows, calls[..n]), calls[n];
      SettledAtOnce(c, rows, calls[..n]);
      SettledStep(c, before, last.picked, last.outcomes, last.now);
      OneMoreBatch(n, c.batch);
    }
  }

  lemma NoWorkNoBacklog(c: Settings, rows: Rows)
    requires AttemptsLeft(c, rows) && Work(c, rows) == 0
    ensures Drained(rows)
  {
    forall id | id in rows
      ensures rows[id].status != Pending
    {
      assert (id, rows[id].attempts) !in Attempts(c, rows);
    }
  }

  lemma BatchesHoldWork(w: nat, batch: nat)
    requires batch >= 1
    ensures Batches(w, batch) * batch >= w
  {
    assert w + batch - 1 == Batches(w, batch) * batch + (w + batch - 1) % batch;
  }

  lemma FewerBatchesThanWork(w: nat, batch: nat)
    requires batch >= 2 && w >= 2
    ensures Batches(w, batch) < w
  {
    FactorsBeatSum(w - 2, batch - 2);
    assert (w - 2 + 2) * (batch - 2 + 2) == w * batch;
    QuotientBelow(w + batch - 1, batch, w);
  }

  lemma FactorsBeatSum(x: nat, y: nat)
    ensures (x + 2) * (y + 2) == x * y + 2 * x + 2 * y + 4 && x * y >= 0
  {
  }

  lemma QuotientBelow(a: nat, b: nat, q: nat)
    requires b >= 1 && a < q * b
    ensures a / b < q
  {
    var d := a / b;
    assert d * b <= a;
    LessFactor(d, q, b);
  }

  lemma LessFactor(x: nat, y: nat, b: nat)
    requires x * b < y * b
    ensures x < y
  {
  }

  lemma {:induction false} AttemptsOfOne(id: nat, n: nat)
    ensures |set k: nat | k < n :: (id, k)| == n
  {
    if n > 0 {
      AttemptsOfOne(id, n - 1);
      assert (set k: nat | k < n :: (id, k)) == (set k: nat | k < n - 1 :: (id, k)) + {(id, n - 1)};
    }
  }

  lemma LoneWork(c: Settings)
    ensures Work(c, LONE) == c.maxAttempts
  {
    AttemptsOfOne(0, c.maxAttempts);
    assert Attempts(c, LONE) == set k: nat | k < c.maxAttempts :: (0, k);
  }

  /**
   Spreading the attempts left over whole batches tells how many calls drain the outbox if and only if a batch is one
   row or a row has one attempt. Otherwise a lone failing row takes a call for every attempt, however large the batch.
   */
  lemma WholeBatchesSufficeIff(c: Settings)
    requires GoodSettings(c)
    ensures WholeBatchesSuffice(c) <==> c.batch == 1 || c.maxAttempts == 1
  {
    if c.batch == 1 || c.maxAttempts == 1 {
      forall rows: Rows, calls: seq<Call> | AttemptsLeft(c, rows) && PromptRun(c, rows, calls) &&
          |calls| == Batches(Work(c, rows), c.batch)
        ensures Drained(Run(c, rows, calls))
      {
        SettledAtOnce(c, rows, calls);
        BatchesHoldWork(Work(c, rows), c.batch);
        if !Drained(Run(c, rows, calls)) {
          NoWorkNoBacklog(c, Run(c, rows, calls));
        }
      }
    } else {
      var n := Batches(Work(c, LONE), c.batch);
      LoneWork(c);
      FewerBatchesThanWork(c.maxAttempts, c.batch);
      LoneRowRun(c, n, PublishRaised);
      assert !Drained(Run(c, LONE, LoneCalls(c, n, PublishRaised)));
    }
  }

  // ------------------------------------------------------------ how long an event waits and how often it is published

  /** Each call processes the earliest due rows. */
  ghost predicate OrderlyRun(c: Settings, rows: Rows, calls: seq<Call>) {
    calls != [] ==>
      && OrderlyRun(c, rows, calls[..|calls| - 1])
      && EarliestDue(Run(c, rows, calls[..|calls| - 1]), calls[|calls| - 1].picked, calls[|calls| - 1].now, c.batch)
  }

  /** The waits an event is given: each time it is put off, how long after the sweep it is due again. */
  function Waits(c: Settings, rows: Rows, calls: seq<Call>, id: nat): seq<real> {
    if calls == [] then []
    else
      var last, after := calls[|calls| - 1], Run(c, rows, calls);
      Waits(c, rows, calls[..|calls| - 1], id) +
      if id in last.picked && id in after && after[id].status == Pending then [after[id].due - last.now] else []
  }

  function Sum(xs: seq<real>): real {
    if xs == [] then 0.0 else Sum(xs[..|xs| - 1]) + xs[|xs| - 1]
  }

  /** The waits so far are the first backoffs, one for each attempt but a last one. */
  ghost predicate WaitedSoFar(c: Settings, r: Row, waits: seq<real>) {
    && |waits| < c.maxAttempts && (r.status == Pending ==> |waits| == r.attempts)
    && forall i | 0 <= i < |waits| :: waits[i] == Backoff(c, i + 1)
  }

  lemma SettlingWaits(c: Settings, r: Row, outcome: Delivery, now: real, waits: seq<real>)
    requires GoodSettings(c) && r.status == Pending && WaitedSoFar(c, r, waits)
    ensures var r' := Settle(c, r, outcome, now);
      WaitedSoFar(c, r', waits + if r'.status == Pending then [r'.due - now] else [])
  {
  }

  lemma {:induction false} WaitsAreBackoffs(c: Settings, rows: Rows, calls: seq<Call>, id: nat)
    requires GoodSettings(c) && OrderlyRun(c, rows, calls)
    requires id in rows && rows[id].status == Pending && rows[id].attempts == 0
    ensures var t := Run(c, rows, calls); id in t && WaitedSoFar(c, t[id], Waits(c, rows, calls, id))
  {
    if calls != [] {
      var earlier, last := calls[..|calls| - 1], calls[|calls| - 1];
      var before := Run(c, rows, earlier);
      WaitsAreBackoffs(c, rows, earlier, id);
      if id in last.picked {
        assert id in DueIds(before, last.now);
        SettlingWaits(c, before[id], OutcomeOf(last.outcomes, id), last.now, Waits(c, rows, earlier, id));
      }
    }
  }

  lemma {:induction false} SumOfBackoffs(c: Settings, waits: seq<real>)
    requires forall i | 0 <= i < |waits| :: waits[i] == Backoff(c, i + 1)
    ensures Sum(waits) == TotalDelay(c, |waits|)
  {
    if waits != [] {
      SumOfBackoffs(c, waits[..|waits| - 1]);
    }
  }

  lemma BackoffNotNegative(c: Settings, a: nat)
    requires GoodSettings(c) && 1 <= a
    ensures Backoff(c, a) >= 0.0
  {
    assert c.base * Pow2(a - 1) as real >= 0.0;
  }

  lemma {:induction false} TotalDelayGrows(c: Settings, n: nat, m: nat)
    requires GoodSettings(c) && n <= m
    ensures TotalDelay(c, n) <= TotalDelay(c, m)
  {
    if n < m {
      TotalDelayGrows(c, n, m - 1);
      BackoffNotNegative(c, m);
    }
  }

  predicate NonDecreasing(xs: seq<real>) {
    forall i, j | 0 <= i <= j < |xs| :: xs[i] <= xs[j]
  }

  /** No more than the uncapped geometric sum of `n` waits and no more than `n` times the cap. */
  predicate WithinBounds(c: Settings, n: nat, total: real) {
    total <= c.base * (Pow2(n) as real - 1.0) && total <= c.cap * n as real
  }

  lemma BackoffsInOrder(c: Settings, waits: seq<real>)
    requires GoodSettings(c)
    requires forall i | 0 <= i < |waits| :: waits[i] == Backoff(c, i + 1)
    ensures NonDecreasing(waits)
  {
    forall i, j | 0 <= i <= j < |waits|
      ensures waits[i] <= waits[j]
    {
      BackoffGrows(c, i + 1, j + 1);
    }
  }

  lemma BackoffsWithin(c: Settings, waits: seq<real>, n: nat)
    requires GoodSettings(c) && |waits| <= n
    requires forall i | 0 <= i < |waits| :: waits[i] == Backoff(c, i + 1)
    ensures Sum(waits) <= TotalDelay(c, n)
  {
    SumOfBackoffs(c, waits);
    TotalDelayGrows(c, |waits|, n);
  }

  lemma SumWithin(c: Settings, sum: real, n: nat)
    requires GoodSettings(c) && sum <= TotalDelay(c, n)
    ensures WithinBounds(c, n, sum)
  {
    TotalDelayBounded(c, n);
  }

  /** Fewer waits than attempts, none shorter than the one before, and within both bounds together. */
  ghost predicate WellPaced(c: Settings, waits: seq<real>)
    requires GoodSettings(c)
  {
    |waits| < c.maxAttempts && NonDecreasing(waits) && WithinBounds(c, c.maxAttempts - 1, Sum(waits))
  }

  lemma BackoffsWellPaced(c: Settings, waits: seq<real>)
    requires GoodSettings(c) && |waits| < c.maxAttempts
    requires forall i | 0 <= i < |waits| :: waits[i] == Backoff(c, i + 1)
    ensures WellPaced(c, waits)
  {
    BackoffsInOrder(c, waits);
    BackoffsWithin(c, waits, c.maxAttempts - 1);
    SumWithin(c, Sum(waits), c.maxAttempts - 1);
  }

  /**
   In every run of one dispatcher a new event is put off fewer times than it has attempts, never for less than the time
   before, and in all for no more than the uncapped geometric sum and no more than the cap each time.
   */
  lemma WaitsBounded(c: Settings, rows: Rows, calls: seq<Call>, id: nat)
    requires GoodSettings(c) && OrderlyRun(c, rows, calls)
    requires id in rows && rows[id].status == Pending && rows[id].attempts == 0
    ensures WellPaced(c, Waits(c, rows, calls, id))
  {
    WaitsAreBackoffs(c, rows, calls, id);
    BackoffsWellPaced(c, Waits(c, rows, calls, id));
  }

  /** How often an event has been published normally. */
  function Publications(calls: seq<Call>, id: nat): nat {
    if calls == [] then 0
    else
      var last := calls[|calls| - 1];
      Publications(calls[..|calls| - 1], id) +
      if id in last.picked && !OutcomeOf(last.outcomes, id).PublishRaised? then 1 else 0
  }

  /**
   The mark of an event just published does not last: it was not stored, or the last attempt's handler overrides it.
   */
  predicate MarkIsLost(c: Settings, r: Row, outcome: Delivery) {
    outcome.MarkRaised? || (outcome.MarkUnacknowledged? && r.attempts + 1 >= c.maxAttempts)
  }

  function LostMarks(c: Settings, rows: Rows, calls: seq<Call>, id: nat): nat {
    if calls == [] then 0
    else
      var before, last := Run(c, rows, calls[..|calls| - 1]), calls[|calls| - 1];
      LostMarks(c, rows, calls[..|calls| - 1], id) +
      if id in last.picked && id in before && MarkIsLost(c, before[id], OutcomeOf(last.outcomes, id)) then 1 else 0
  }

  /** What the publications of an event so far have come to. */
  ghost predicate Accounted(c: Settings, start: Row, now: Row, publications: nat, lost: nat) {
    && publications == (if now.status == Sent then 1 else 0) + lost
    && start.attempts + publications <= c.maxAttempts
    && (now.status == Pending ==> start.attempts + publications <= now.attempts < c.maxAttempts)
  }

  lemma SettleAccounts(c: Settings, start: Row, r: Row, outcome: Delivery, now: real, n: nat, lost: nat)
    requires GoodSettings(c) && r.status == Pending && Accounted(c, start, r, n, lost)
    ensures Accounted(c, start, Settle(c, r, outcome, now), n + if outcome.PublishRaised? then 0 else 1,
      lost + if MarkIsLost(c, r, outcome) then 1 else 0)
  {
  }

  /**
   With one dispatcher and no replay an event is published once for its being sent, and once more for every mark that
   was lost; in all no more often than it has attempts. So a sent event was published exactly once if and only if no
   mark was lost, and an event that is not sent was published if and only if one was.
   */
  lemma {:induction false} PublishedOncePlusLostMarks(c: Settings, rows: Rows, calls: seq<Call>, id: nat)
    requires GoodSettings(c) && OrderlyRun(c, rows, calls)
    requires id in rows && rows[id].status == Pending && rows[id].attempts < c.maxAttempts
    ensures var t := Run(c, rows, calls);
      id in t && Accounted(c, rows[id], t[id], Publications(calls, id), LostMarks(c, rows, calls, id))
  {
    if calls != [] {
      PublishedOncePlusLostMarks(c, rows, calls[..|calls| - 1], id);
      var before, last := Run(c, rows, calls[..|calls| - 1]), calls[|calls| - 1];
      if id in last.picked {
        assert id in DueIds(before, last.now);
        SettleAccounts(c, rows[id], before[id], OutcomeOf(last.outcomes, id), last.now,
          Publications(calls[..|calls| - 1], id), LostMarks(c, rows, calls[..|calls| - 1], id));
      }
    }
  }

  lemma {:induction false} LonePublications(c: Settings, n: nat)
    ensures Publications(LoneCalls(c, n, MarkRaised), 0) == n
  {
    if n > 0 {
      LonePublications(c, n - 1);
      assert LoneCalls(c, n, MarkRaised)[..n - 1] == LoneCalls(c, n - 1, MarkRaised);
    }
  }

  lemma {:induction false} PromptIsOrderly(c: Settings, rows: Rows, calls: seq<Call>)
    requires PromptRun(c, rows, calls)
    ensures OrderlyRun(c, rows, calls)
  {
    if calls != [] {
      PromptIsOrderly(c, rows, calls[..|calls| - 1]);
    }
  }

  /** All but the last attempt's mark lost, the last one kept. */
  function LastMarkKept(c: Settings): seq<Call>
    requires GoodSettings(c)
  {
    var n := c.maxAttempts - 1;
    LoneCalls(c, n, MarkRaised) + [LoneCall(c, n, Acknowledged)]
  }

  /** The bound is reached: when every mark is lost, an event is published once per attempt and ends up dead. */
  lemma EveryMarkLost(c: Settings)
    requires GoodSettings(c)
    ensures var calls := LoneCalls(c, c.maxAttempts, MarkRaised);
      && OrderlyRun(c, LONE, calls) && Publications(calls, 0) == c.maxAttempts
      && var t := Run(c, LONE, calls); 0 in t && t[0].status == Dead
  {
    LoneRowRun(c, c.maxAttempts, MarkRaised);
    PromptIsOrderly(c, LONE, LoneCalls(c, c.maxAttempts, MarkRaised));
    LonePublications(c, c.maxAttempts);
  }

  lemma MarkKeptNext(c: Settings, lost: seq<Call>, n: nat)
    requires GoodSettings(c) && n < c.maxAttempts && LoneRun(c, lost, n)
    ensures var calls := lost + [LoneCall(c, n, Acknowledged)];
      && OrderlyRun(c, LONE, calls) && Publications(calls, 0) == Publications(lost, 0) + 1
      && var t := Run(c, LONE, calls); 0 in t && t[0].status == Sent
  {
    var calls := lost + [LoneCall(c, n, Acknowledged)];
    OneMoreCall(c, LONE, lost, LoneCall(c, n, Acknowledged));
    LoneRowDue(c, Run(c, LONE, lost), n);
    PromptIsOrderly(c, LONE, calls);
    assert calls[..|calls| - 1] == lost;
  }

  /** When all marks but the last are lost, it is published as often and ends up sent. */
  lemma LastMarkKeptRun(c: Settings)
    requires GoodSettings(c)
    ensures var calls := LastMarkKept(c);
      && OrderlyRun(c, LONE, calls) && Publications(calls, 0) == c.maxAttempts
      && var t := Run(c, LONE, calls); 0 in t && t[0].status == Sent
  {
    var n := c.maxAttempts - 1;
    LoneRowRun(c, n, MarkRaised);
    LonePublications(c, n);
    MarkKeptNext(c, LoneCalls(c, n, MarkRaised), n);
  }

  // ------------------------------------------------------------ the store and the dispatcher

  /** The events of a sweep that were published. */
  function PublishedOf(picked: set<nat>, outcomes: Outcomes): set<nat> {
    set id | id in picked && !OutcomeOf(outcomes, id).PublishRaised?
  }

  /** The events of a sweep that were published and marked without anything raised. */
  function AcknowledgedOf(picked: set<nat>, outcomes: Outcomes): set<nat> {
    set id | id in picked && OutcomeOf(outcomes, id).Acknowledged?
  }

  lemma {:induction false} EarliestExists(rows: Rows, ids: set<nat>)
    requires ids != {} && ids <= rows.Keys
    ensures exists e :: e in ids && forall id | id in ids :: rows[e].due <= rows[id].due
    decreases |ids|
  {
    var x :| x in ids;
    var rest := ids - {x};
    assert forall id | id in ids && id != x :: id in rest;
    if rest != {} {
      EarliestExists(rows, rest);
      var e :| e in rest && forall id | id in rest :: rows[e].due <= rows[id].due;
      var earlier := if rows[e].due <= rows[x].due then e else x;
      assert earlier in ids && forall id | id in ids :: rows[earlier].due <= rows[id].due;
    }
  }

  /** `docs` are the earliest of the pending rows, in order, and `rest` the others. */
  ghost predicate Fetched(rows: Rows, docs: seq<nat>, rest: set<nat>) {
    && Distinct(docs) && rest <= PendingIds(rows) && |docs| + |rest| == |PendingIds(rows)|
    && (forall id :: id in docs <==> id in PendingIds(rows) && id !in rest)
    && (forall d, id | d in docs && id in rest && d in rows && id in rows :: rows[d].due <= rows[id].due)
    && (forall i, j | 0 <= i < j < |docs| && docs[i] in rows && docs[j] in rows ::
          rows[docs[i]].due <= rows[docs[j]].due)
  }

  lemma FetchedOneMore(rows: Rows, docs: seq<nat>, rest: set<nat>, e: nat)
    requires Fetched(rows, docs, rest) && e in rest
    requires forall id | id in rest && id in rows :: rows[e].due <= rows[id].due
    ensures Fetched(rows, docs + [e], rest - {e})
  {
    assert e !in docs;
  }

  class Outbox {
    var rows: Rows
    /** The events whose publication has returned normally. */
    ghost var published: set<nat>

    constructor ()
      ensures rows == map[] && published == {}
    {
      rows := map[];
      published := {};
    }

    /** Sent means published. */
    ghost predicate Valid()
      reads this
    {
      forall id | id in rows && rows[id].status == Sent :: id in published
    }

    method Add(id: nat, now: real)
      requires id !in rows
      modifies this`rows
      ensures rows == old(rows)[id := Row(Pending, 0, now)]
    {
      rows := rows[id := Row(Pending, 0, now)];
    }

    /** Pending rows, earliest due first, at most `limit`. */
    method FetchPending(limit: nat) returns (docs: seq<nat>)
      ensures EarliestPending(rows, docs, limit)
    {
      docs := [];
      var rest := PendingIds(rows);
      while |docs| < limit && rest != {}
        invariant |docs| <= limit && Fetched(rows, docs, rest)
        decreases |rest|
      {
        EarliestExists(rows, rest);
        var e :| e in rest && forall id | id in rest :: rows[e].due <= rows[id].due;
        FetchedOneMore(rows, docs, rest, e);
        docs := docs + [e];
        rest := rest - {e};
      }
    }

    method MarkSent(id: nat)
      modifies this`rows
      ensures rows == if id in old(rows) then old(rows)[id := SentRow(old(rows)[id])] else old(rows)
    {
      if id in rows {
        rows := rows[id := rows[id].(status := Sent)];
      }
    }

    method Reschedule(id: nat, attempts: nat, due: real)
      modifies this`rows
      ensures rows ==
        if id in old(rows) then old(rows)[id := old(rows)[id].(attempts := attempts, due := due)] else old(rows)
    {
      if id in rows {
        rows := rows[id := rows[id].(attempts := attempts, due := due)];
      }
    }

    method MarkDead(id: nat, attempts: nat)
      modifies this`rows
      ensures rows ==
        if id in old(rows) then old(rows)[id := old(rows)[id].(status := Dead, attempts := attempts)] else old(rows)
    {
      if id in rows {
        rows := rows[id := rows[id].(status := Dead, attempts := attempts)];
      }
    }

    /** An operator puts a dead row back, with all its attempts. */
    method Replay(id: nat, now: real) returns (replayed: bool)
      modifies this`rows
      ensures replayed <==> id in old(rows) && old(rows)[id].status == Dead
      ensures rows == if replayed then old(rows)[id := Row(Pending, 0, now)] else old(rows)
    {
      replayed := id in rows && rows[id].status == Dead;
      if replayed {
        rows := rows[id := Row(Pending, 0, now)];
      }
    }
  }

  class OutboxDispatcher {
    const outbox: Outbox
    const settings: Settings

    constructor (outbox: Outbox, settings: Settings)
      ensures this.outbox == outbox && this.settings == settings
    {
      this.outbox, this.settings := outbox, settings;
    }

    function BackoffOf(attempts: nat): real
      requires attempts >= 1
    {
      Backoff(settings, attempts)
    }

    /** Publishes one event, marks it sent, and files the attempt if either raised. */
    method Deliver(id: nat, outcome: Delivery, now: real) returns (sent: bool)
      requires id in outbox.rows && outbox.Valid()
      modifies outbox
      ensures outbox.Valid() && sent == outcome.Acknowledged?
      ensures outbox.rows == old(outbox.rows)[id := Settle(settings, old(outbox.rows)[id], outcome, now)]
      ensures outbox.published == old(outbox.published) + if outcome.PublishRaised? then {} else {id}
    {
      if !outcome.PublishRaised? {
        outbox.published := outbox.published + {id};
        if !outcome.MarkRaised? {
          outbox.MarkSent(id);
        }
        if outcome.Acknowledged? {
          return true;
        }
      }
      var attempts := outbox.rows[id].attempts + 1;
      if attempts >= settings.maxAttempts {
        outbox.MarkDead(id, attempts);
      } else {
        var delay := BackoffOf(attempts);
        outbox.Reschedule(id, attempts, now + delay);
      }
      sent := false;
    }

    /** How the outbox stands in the middle of a sweep that has delivered `picked`. */
    ghost predicate Swept(rows: Rows, published: set<nat>, picked: set<nat>, outcomes: Outcomes, now: real,
                          delivered: nat)
      reads this, outbox
    {
      && outbox.Valid()
      && outbox.rows == SettleAll(settings, rows, picked, outcomes, now)
      && outbox.published == published + PublishedOf(picked, outcomes)
      && delivered == |AcknowledgedOf(picked, outcomes)|
    }

    /** One turn of the sweep: skips a row that is backing off, delivers a due one. */
    method Turn(id: nat, now: real, outcomes: Outcomes, delivered0: nat, ghost rows: Rows, ghost published: set<nat>,
                ghost picked0: set<nat>)
      returns (delivered: nat, ghost picked: set<nat>)
      requires id in PendingIds(rows) && id !in picked0 && Swept(rows, published, picked0, outcomes, now, delivered0)
      modifies outbox
      ensures Swept(rows, published, picked, outcomes, now, delivered)
      ensures picked == picked0 + if id in DueIds(rows, now) then {id} else {}
    {
      delivered, picked := delivered0, picked0;
      OneMoreSettled(settings, rows, picked, outcomes, now, id);
      OneMoreDelivered(picked, outcomes, id);
      if outbox.rows[id].due <= now {
        var sent := Deliver(id, OutcomeOf(outcomes, id), now);
        if sent {
          delivered := delivered + 1;
        }
        picked := picked0 + {id};
      }
    }

    /**
     One sweep: fetches the earliest pending rows up to the batch size, skips the ones backing off, and delivers the
     rest. The rows delivered are as many of the due ones as fit the batch, the earliest first, and no other row is
     touched. An event is published unless its publication raised, and counted only if its mark was acknowledged.
     */
    method DispatchOnce(now: real, outcomes: Outcomes) returns (delivered: nat, ghost picked: set<nat>)
      requires outbox.Valid()
      modifies outbox
      ensures outbox.Valid()
      ensures EarliestDue(old(outbox.rows), picked, now, settings.batch)
      ensures outbox.rows == SettleAll(settings, old(outbox.rows), picked, outcomes, now)
      ensures outbox.published == old(outbox.published) + PublishedOf(picked, outcomes)
      ensures delivered == |AcknowledgedOf(picked, outcomes)|
    {
      ghost var rows, published := outbox.rows, outbox.published;
      var docs := outbox.FetchPending(settings.batch);
      delivered, picked := 0, {};
      NoneSettled(settings, rows, outcomes, now);
      for i := 0 to |docs|
        invariant picked == DueOf(rows, docs[..i], now)
        invariant Swept(rows, published, picked, outcomes, now, delivered)
      {
        NextDue(rows, docs, i, now);
        assert docs[i] in docs;
        delivered, picked := Turn(docs[i], now, outcomes, delivered, rows, published, picked);
      }
      assert docs[..|docs|] == docs;
      FilteredIsEarliestDue(rows, docs, settings.batch, now);
    }
  }

  lemma NoneSettled(c: Settings, rows: Rows, outcomes: Outcomes, now: real)
    ensures SettleAll(c, rows, {}, outcomes, now) == rows
  {
  }

  lemma OneMoreDelivered(picked: set<nat>, outcomes: Outcomes, id: nat)
    requires id !in picked
    ensures PublishedOf(picked + {id}, outcomes) ==
      PublishedOf(picked, outcomes) + if OutcomeOf(outcomes, id).PublishRaised? then {} else {id}
    ensures |AcknowledgedOf(picked + {id}, outcomes)| ==
      |AcknowledgedOf(picked, outcomes)| + if OutcomeOf(outcomes, id).Acknowledged? then 1 else 0
  {
    assert AcknowledgedOf(picked + {id}, outcomes) ==
      AcknowledgedOf(picked, outcomes) + if OutcomeOf(outcomes, id).Acknowledged? then {id} else {};
  }

  lemma OneMoreSettled(c: Settings, rows: Rows, picked: set<nat>, outcomes: Outcomes, now: real, id: nat)
    requires id in rows && id !in picked
    ensures var before := SettleAll(c, rows, picked, outcomes, now);
      && id in before && before[id] == rows[id]
      && SettleAll(c, rows, picked + {id}, outcomes, now) ==
          before[id := Settle(c, rows[id], OutcomeOf(outcomes, id), now)]
  {
  }
}
