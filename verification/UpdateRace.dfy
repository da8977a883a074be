/**
 Many updaters of one configuration item, each split into its two database steps: reading the stored document and
 swapping it under the expected revision. The new revision is computed from what was read, the swap is guarded by what
 was expected.
 */
module UpdateRace {
  import opened Prelude
  import opened Schema
  import Walks
  import Inventory

  datatype Row = Row(fields: Doc, revision: nat)

  /** A PUT or PATCH with its If-Match revision. */
  datatype Request = Request(payload: Doc, partial: bool, expected: nat)

  datatype Phase =
    | Waiting(req: Request)
    | Holding(req: Request, seen: Row, data: Doc)
    | Invalid
    | Conflicted
    | Won(revision: nat)

  /** A successful swap: what was asked, what had been read, and the row before and after. */
  datatype Win = Win(req: Request, seen: Row, before: Row, after: Row)

  datatype Race = Race(row: Row, clients: map<nat, Phase>, wins: seq<Win>)

  datatype Step = Arrive(client: nat, req: Request) | Load(client: nat) | Swap(client: nat)

  /**
   The validation of a type version: the normal form of a document, or nothing. The race depends on nothing else about
   it.
   */
  type Validator = Doc -> Option<Doc>

  function Target(model: Validator, fields: Doc, req: Request): Option<Doc> {
    model(if req.partial then fields + req.payload else req.payload)
  }

  /** One step of one client; a step whose client is not in the right phase does nothing. */
  function Act(model: Validator, r: Race, step: Step): Race {
    match step
    case Arrive(c, req) =>
      if c in r.clients then r else r.(clients := r.clients[c := Waiting(req)])
    case Load(c) =>
      if c !in r.clients || !r.clients[c].Waiting? then r
      else
        var req := r.clients[c].req;
        var data := Target(model, r.row.fields, req);
        r.(clients := r.clients[c := if data.None? then Invalid else Holding(req, r.row, data.value)])
    case Swap(c) =>
      if c !in r.clients || !r.clients[c].Holding? then r
      else
        var Holding(req, seen, data) := r.clients[c];
        if r.row.revision != req.expected then r.(clients := r.clients[c := Conflicted])
        else
          var after := Row(r.row.fields + data, seen.revision + 1);
          Race(after, r.clients[c := Won(after.revision)], r.wins + [Win(req, seen, r.row, after)])
  }

  function Interleave(model: Validator, row: Row, steps: seq<Step>): Race {
    if steps == [] then Race(row, map[], [])
    else Act(model, Interleave(model, row, steps[..|steps| - 1]), steps[|steps| - 1])
  }

  // ------------------------------------------------------------ one update taken as a whole

  /** The two steps taken together. */
  function UpdateRow(model: Validator, row: Row, req: Request): Option<Row> {
    var data := Target(model, row.fields, req);
    if data.None? || row.revision != req.expected then None
    else Some(Row(row.fields + data.value, row.revision + 1))
  }

  /** It is what the atomic update of the inventory does to the item. */
  lemma UpdateRowIsUpdateCi(s: Inventory.State, node: Walks.Node, req: Request)
    requires node in s.cis && Inventory.FindType(s, node.ciType).Some?
    ensures var (s', reply) := Inventory.UpdateCi(s, node, req.payload, req.expected, req.partial);
      var model := Inventory.FindType(s, node.ciType).value.model;
      var row := UpdateRow(d => Validate(model, d), Row(s.cis[node].fields, s.cis[node].revision), req);
      && node in s'.cis
      && (reply.Ok? <==> row.Some?)
      && (row.Some? ==> row.value == Row(s'.cis[node].fields, s'.cis[node].revision))
      && (row.None? ==> s' == s)
  {
  }

  /** The requests of the winners, one after the other; `None` if one of them were refused. */
  function Sequential(model: Validator, row: Row, wins: seq<Win>): Option<Row> {
    if wins == [] then Some(row)
    else
      var earlier := Sequential(model, row, wins[..|wins| - 1]);
      if earlier.None? then None else UpdateRow(model, earlier.value, wins[|wins| - 1].req)
  }

  // ------------------------------------------------------------ what every interleaving keeps

  /** A win is what the compare-and-swap lets through. */
  predicate Swapped(model: Validator, w: Win) {
    var data := Target(model, w.seen.fields, w.req);
    && data.Some?
    && w.req.expected == w.before.revision
    && w.after == Row(w.before.fields + data.value, w.seen.revision + 1)
  }

  /** The row after the first `n` wins. */
  function After(row: Row, wins: seq<Win>, n: nat): Row
    requires n <= |wins|
  {
    if n == 0 then row else wins[n - 1].after
  }

  /** The rows of the wins follow each other from `row` to the current one. */
  predicate Chain(row: Row, wins: seq<Win>, current: Row) {
    && (forall i {:trigger After(row, wins, i)} | 0 <= i < |wins| :: wins[i].before == After(row, wins, i))
    && current == After(row, wins, |wins|)
  }

  predicate AllSwapped(model: Validator, wins: seq<Win>) {
    forall i | 0 <= i < |wins| :: Swapped(model, wins[i])
  }

  /** What a client is about to write is what it computed from what it read. */
  predicate HandsValid(model: Validator, clients: map<nat, Phase>) {
    forall c | c in clients && clients[c].Holding? ::
      Target(model, clients[c].seen.fields, clients[c].req) == Some(clients[c].data)
  }

  predicate Linked(model: Validator, row: Row, r: Race) {
    AllSwapped(model, r.wins) && Chain(row, r.wins, r.row) && HandsValid(model, r.clients)
  }

  lemma LongerChain(row: Row, wins: seq<Win>, w: Win)
    requires Chain(row, wins, w.before)
    ensures Chain(row, wins + [w], w.after)
  {
    var longer := wins + [w];
    forall i | 0 <= i < |longer|
      ensures longer[i].before == After(row, longer, i)
    {
      assert After(row, longer, i) == After(row, wins, i);
    }
  }

  lemma SwapIsSwapped(model: Validator, r: Race, c: nat)
    requires HandsValid(model, r.clients) && c in r.clients && r.clients[c].Holding?
    requires r.row.revision == r.clients[c].req.expected
    ensures var Holding(req, seen, data) := r.clients[c];
      var w := Win(req, seen, r.row, Row(r.row.fields + data, seen.revision + 1));
      var t := Act(model, r, Swap(c));
      && Swapped(model, w) && t.wins == r.wins + [w] && t.row == w.after && w.before == r.row
      && t.clients == r.clients[c := Won(w.after.revision)]
  {
  }

  lemma SwapStaysLinked(model: Validator, row: Row, r: Race, c: nat)
    requires Linked(model, row, r) && c in r.clients && r.clients[c].Holding?
    requires r.row.revision == r.clients[c].req.expected
    ensures Linked(model, row, Act(model, r, Swap(c)))
  {
    SwapIsSwapped(model, r, c);
    var t := Act(model, r, Swap(c));
    LongerChain(row, r.wins, t.wins[|r.wins|]);
    assert AllSwapped(model, t.wins);
    assert HandsValid(model, t.clients);
  }

  lemma StepStaysLinked(model: Validator, row: Row, r: Race, step: Step)
    requires Linked(model, row, r)
    ensures Linked(model, row, Act(model, r, step))
  {
    var t := Act(model, r, step);
    if step.Swap? && step.client in r.clients && r.clients[step.client].Holding? && r.row.revision ==
        r.clients[step.client].req.expected {
      SwapStaysLinked(model, row, r, step.client);
    } else {
      assert t.row == r.row && t.wins == r.wins;
    }
  }

  lemma {:induction false} EveryRunIsLinked(model: Validator, row: Row, steps: seq<Step>)
    ensures Linked(model, row, Interleave(model, row, steps))
  {
    if steps == [] {
      assert Interleave(model, row, steps) == Race(row, map[], []);
    } else {
      EveryRunIsLinked(model, row, steps[..|steps| - 1]);
      StepStaysLinked(model, row, Interleave(model, row, steps[..|steps| - 1]), steps[|steps| - 1]);
    }
  }

  /** The winner's If-Match revision was one the item had reached when it was read. */
  predicate Prudent(w: Win) {
    w.req.expected <= w.seen.revision
  }

  predicate RaisedByOne(w: Win) {
    w.after.revision == w.before.revision + 1
  }

  /** What clients hold is no newer than the row, and if as new then it is the row. */
  predicate Fresh(r: Race) {
    forall c | c in r.clients && r.clients[c].Holding? ::
      var seen := r.clients[c].seen; seen.revision < r.row.revision || seen == r.row
  }

  lemma FreshStep(model: Validator, row: Row, r: Race, step: Step)
    requires Linked(model, row, r) && Fresh(r)
    ensures var t := Act(model, r, step);
      && (t.wins != r.wins ==> |t.wins| == |r.wins| + 1 && t.wins[..|r.wins|] == r.wins)
      && (t.wins != r.wins ==> var w := t.wins[|r.wins|];
            (RaisedByOne(w) <==> Prudent(w)) && (Prudent(w) ==> w.seen == w.before))
      && ((t.wins != r.wins ==> RaisedByOne(t.wins[|r.wins|])) ==> Fresh(t))
  {
  }

  ghost predicate AllPrudent(wins: seq<Win>) {
    forall i | 0 <= i < |wins| :: Prudent(wins[i])
  }

  ghost predicate AllRaisedByOne(wins: seq<Win>) {
    forall i | 0 <= i < |wins| :: RaisedByOne(wins[i])
  }

  lemma {:induction false} RaisedIffPrudentSoFar(model: Validator, row: Row, steps: seq<Step>)
    ensures var r := Interleave(model, row, steps);
      && (AllRaisedByOne(r.wins) <==> AllPrudent(r.wins))
      && (AllPrudent(r.wins) ==> Fresh(r) && forall i | 0 <= i < |r.wins| :: r.wins[i].seen == r.wins[i].before)
  {
    if steps != [] {
      var earlier := Interleave(model, row, steps[..|steps| - 1]);
      var r := Interleave(model, row, steps);
      RaisedIffPrudentSoFar(model, row, steps[..|steps| - 1]);
      EveryRunIsLinked(model, row, steps[..|steps| - 1]);
      if AllPrudent(earlier.wins) {
        FreshStep(model, row, earlier, steps[|steps| - 1]);
      } else {
        WinsOnlyGrow(model, earlier, steps[|steps| - 1]);
        var i, j :| 0 <= i < |earlier.wins| && !Prudent(earlier.wins[i]) && 0 <= j < |earlier.wins| &&
            !RaisedByOne(earlier.wins[j]);
        assert !Prudent(r.wins[i]) && !RaisedByOne(r.wins[j]);
      }
    }
  }

  lemma WinsOnlyGrow(model: Validator, r: Race, step: Step)
    ensures var t := Act(model, r, step); |r.wins| <= |t.wins| && t.wins[..|r.wins|] == r.wins
  {
  }

  /**
   In every interleaving, each success raises the revision by exactly one if and only if each winner expected no
   more than it read.
   */
  lemma RaisedByOneIffPrudent(model: Validator, row: Row, steps: seq<Step>)
    ensures AllRaisedByOne(Interleave(model, row, steps).wins) <==> AllPrudent(Interleave(model, row, steps).wins)
  {
    RaisedIffPrudentSoFar(model, row, steps);
  }

  // ------------------------------------------------------------ honest clients

  /** Every If-Match revision has been handed out before the request that carries it arrives. */
  predicate HandedOut(model: Validator, row: Row, steps: seq<Step>) {
    steps != [] ==>
      && HandedOut(model, row, steps[..|steps| - 1])
      && (steps[|steps| - 1].Arrive? ==>
            steps[|steps| - 1].req.expected <= Interleave(model, row, steps[..|steps| - 1]).row.revision)
  }

  /** Nobody expects more than has been reached. */
  predicate NoGuess(r: Race) {
    forall c | c in r.clients ::
      && (r.clients[c].Waiting? ==> r.clients[c].req.expected <= r.row.revision)
      && (r.clients[c].Holding? ==> r.clients[c].req.expected <= r.clients[c].seen.revision)
  }

  lemma NoGuessStep(model: Validator, row: Row, r: Race, step: Step)
    requires Linked(model, row, r) && Fresh(r) && NoGuess(r)
    requires step.Arrive? ==> step.req.expected <= r.row.revision
    ensures var t := Act(model, r, step); NoGuess(t) && (t.wins != r.wins ==> Prudent(t.wins[|t.wins| - 1]))
  {
    FreshStep(model, row, r, step);
    assert Act(model, r, step).row.revision >= r.row.revision;
  }

  lemma {:induction false} HandedOutIsPrudent(model: Validator, row: Row, steps: seq<Step>)
    requires HandedOut(model, row, steps)
    ensures var r := Interleave(model, row, steps); AllPrudent(r.wins) && NoGuess(r)
  {
    if steps != [] {
      var step := steps[|steps| - 1];
      var earlier := Interleave(model, row, steps[..|steps| - 1]);
      HandedOutIsPrudent(model, row, steps[..|steps| - 1]);
      EveryRunIsLinked(model, row, steps[..|steps| - 1]);
      RaisedIffPrudentSoFar(model, row, steps[..|steps| - 1]);
      NoGuessStep(model, row, earlier, step);
      WinsOnlyGrow(model, earlier, step);
      FreshStep(model, row, earlier, step);
    }
  }

  lemma SequentialStep(model: Validator, row: Row, wins: seq<Win>, n: nat)
    requires 0 < n <= |wins|
    ensures Sequential(model, row, wins[..n]) ==
            (var earlier := Sequential(model, row, wins[..n - 1]); if earlier.None? then None else UpdateRow(model,
                earlier.value, wins[n - 1].req))
  {
    assert wins[..n][..n - 1] == wins[..n - 1] && wins[..n][n - 1] == wins[n - 1];
  }

  /** A winner that wrote over what it had read did what its request does to the row before. */
  lemma PrudentWinIsUpdate(model: Validator, w: Win)
    requires Swapped(model, w) && w.seen == w.before
    ensures UpdateRow(model, w.before, w.req) == Some(w.after) && w.after.revision == w.before.revision + 1
  {
  }

  lemma {:induction false} PrudentWinsAreSequential(model: Validator, row: Row, wins: seq<Win>, current: Row, n: nat)
    requires AllSwapped(model, wins) && Chain(row, wins, current) && n <= |wins|
    requires forall i | 0 <= i < n :: wins[i].seen == wins[i].before
    ensures Sequential(model, row, wins[..n]) == Some(After(row, wins, n))
    ensures After(row, wins, n).revision == row.revision + n
  {
    if n > 0 {
      PrudentWinsAreSequential(model, row, wins, current, n - 1);
      SequentialStep(model, row, wins, n);
      PrudentWinIsUpdate(model, wins[n - 1]);
    }
  }

  /**
   In every interleaving of honest updaters the outcome is that of the winners' requests applied one after the other.
   The `n`-th success takes the revision from `n - 1` to `n` above the start, so each revision is won once and no
   update is lost.
   */
  lemma RaceIsSequential(model: Validator, row: Row, steps: seq<Step>)
    requires HandedOut(model, row, steps)
    ensures var r := Interleave(model, row, steps);
      && Sequential(model, row, r.wins) == Some(r.row)
      && r.row.revision == row.revision + |r.wins|
      && forall i | 0 <= i < |r.wins| :: r.wins[i].after.revision == row.revision + i + 1
  {
    var r := Interleave(model, row, steps);
    HandedOutIsPrudent(model, row, steps);
    RaisedIffPrudentSoFar(model, row, steps);
    EveryRunIsLinked(model, row, steps);
    PrudentWinsAreSequential(model, row, r.wins, r.row, |r.wins|);
    assert r.wins[..|r.wins|] == r.wins;
    PrudentRevisions(model, row, r);
  }

  lemma {:induction false} PrudentRevision(model: Validator, row: Row, wins: seq<Win>, current: Row, i: nat)
    requires AllSwapped(model, wins) && Chain(row, wins, current) && i < |wins|
    requires forall j | 0 <= j < |wins| :: wins[j].seen == wins[j].before
    ensures wins[i].after.revision == row.revision + i + 1
  {
    assert wins[i].before == After(row, wins, i);
    PrudentWinIsUpdate(model, wins[i]);
    if i > 0 {
      PrudentRevision(model, row, wins, current, i - 1);
    }
  }

  lemma PrudentRevisions(model: Validator, row: Row, r: Race)
    requires Linked(model, row, r) && forall i | 0 <= i < |r.wins| :: r.wins[i].seen == r.wins[i].before
    ensures forall i | 0 <= i < |r.wins| :: r.wins[i].after.revision == row.revision + i + 1
  {
    forall i | 0 <= i < |r.wins|
      ensures r.wins[i].after.revision == row.revision + i + 1
    {
      PrudentRevision(model, row, r.wins, r.row, i);
    }
  }

  /** Two clients told they won were told different revisions. */
  predicate WinnersDiffer(r: Race) {
    forall c, d | c in r.clients && d in r.clients && c != d && r.clients[c].Won? && r.clients[d].Won? ::
      r.clients[c].revision != r.clients[d].revision
  }

  predicate NoneAhead(r: Race) {
    forall c | c in r.clients && r.clients[c].Won? :: r.clients[c].revision <= r.row.revision
  }

  lemma WinnersStayDifferent(model: Validator, row: Row, r: Race, step: Step)
    requires Linked(model, row, r) && Fresh(r) && WinnersDiffer(r) && NoneAhead(r)
    requires AllPrudent(Act(model, r, step).wins)
    ensures WinnersDiffer(Act(model, r, step)) && NoneAhead(Act(model, r, step))
  {
    FreshStep(model, row, r, step);
    var t := Act(model, r, step);
    if t.wins == r.wins {
      assert t.row == r.row;
      assert forall c | c in t.clients && t.clients[c].Won? :: c in r.clients && r.clients[c] == t.clients[c];
    } else {
      assert t.row.revision == r.row.revision + 1;
      assert forall c | c in t.clients && c != step.client :: c in r.clients && r.clients[c] == t.clients[c];
    }
  }

  lemma {:induction false} EachRevisionWonOnce(model: Validator, row: Row, steps: seq<Step>)
    requires HandedOut(model, row, steps)
    ensures var r := Interleave(model, row, steps); WinnersDiffer(r) && NoneAhead(r)
  {
    if steps != [] {
      var earlier := Interleave(model, row, steps[..|steps| - 1]);
      EachRevisionWonOnce(model, row, steps[..|steps| - 1]);
      HandedOutIsPrudent(model, row, steps);
      HandedOutIsPrudent(model, row, steps[..|steps| - 1]);
      RaisedIffPrudentSoFar(model, row, steps[..|steps| - 1]);
      EveryRunIsLinked(model, row, steps[..|steps| - 1]);
      WinnersStayDifferent(model, row, earlier, steps[|steps| - 1]);
    }
  }

  // ------------------------------------------------------------ a guessed revision

  function RunFrom(model: Validator, r: Race, steps: seq<Step>): Race
    decreases |steps|
  {
    if steps == [] then r else RunFrom(model, Act(model, r, steps[0]), steps[1..])
  }

  lemma {:induction false} InterleaveFrom(model: Validator, row: Row, done: seq<Step>, steps: seq<Step>)
    ensures Interleave(model, row, done + steps) == RunFrom(model, Interleave(model, row, done), steps)
    decreases |steps|
  {
    if steps == [] {
      assert done + steps == done;
    } else {
      var next := done + [steps[0]];
      assert next[..|next| - 1] == done;
      assert done + steps == next + steps[1..];
      InterleaveFrom(model, row, next, steps[1..]);
    }
  }

  lemma SixSteps(model: Validator, r0: Race, steps: seq<Step>)
    requires |steps| == 6
    ensures var r4 := Act(model, Act(model, Act(model, Act(model, r0, steps[0]), steps[1]), steps[2]), steps[3]);
      RunFrom(model, r0, steps) == Act(model, Act(model, r4, steps[4]), steps[5])
  {
    var r1 := Act(model, r0, steps[0]);
    var r2 := Act(model, r1, steps[1]);
    var r3 := Act(model, r2, steps[2]);
    var r4 := Act(model, r3, steps[3]);
    var r5 := Act(model, r4, steps[4]);
    assert RunFrom(model, r0, steps) == RunFrom(model, r1, steps[1..]);
    assert RunFrom(model, r1, steps[1..]) == RunFrom(model, r2, steps[1..][1..]) && steps[1..][1..] == steps[2..];
    assert RunFrom(model, r2, steps[2..]) == RunFrom(model, r3, steps[2..][1..]) && steps[2..][1..] == steps[3..];
    assert RunFrom(model, r3, steps[3..]) == RunFrom(model, r4, steps[3..][1..]) && steps[3..][1..] == steps[4..];
    assert RunFrom(model, r4, steps[4..]) == RunFrom(model, r5, steps[4..][1..]) && steps[4..][1..] == steps[5..];
    assert RunFrom(model, r5, steps[5..]) == RunFrom(model, Act(model, r5, steps[5]), steps[5..][1..]);
  }

  /**
   The guesser reads first, the other client wins the next revision, and the guess then goes through on what was read
   before.
   */
  function GuessedRun(guess: Request, fair: Request): seq<Step> {
    [Arrive(0, guess), Load(0), Arrive(1, fair), Load(1), Swap(1), Swap(0)]
  }

  lemma BothLoaded(model: Validator, row: Row, guess: Request, fair: Request)
    requires Target(model, row.fields, guess).Some? && Target(model, row.fields, fair).Some?
    ensures var r0 := Race(row, map[], []);
      var r2 := Act(model, Act(model, r0, Arrive(0, guess)), Load(0));
      Act(model, Act(model, r2, Arrive(1, fair)), Load(1)) ==
        Race(row, map[0 := Holding(guess, row, Target(model, row.fields, guess).value),
            1 := Holding(fair, row, Target(model, row.fields, fair).value)], [])
  {
    var a := Holding(guess, row, Target(model, row.fields, guess).value);
    LoadsTarget(model, Race(row, map[], []), 0, guess);
    LoadsTarget(model, Race(row, map[0 := a], []), 1, fair);
  }

  /** A client that guesses the next revision wins it a second time, writing over the first winner. */
  lemma GuessWinsAgain(model: Validator, row: Row, guess: Request, fair: Request)
    requires guess.expected == row.revision + 1 && fair.expected == row.revision
    requires Target(model, row.fields, guess).Some? && Target(model, row.fields, fair).Some?
    ensures var r := Interleave(model, row, GuessedRun(guess, fair));
      && r.clients == map[0 := Won(row.revision + 1), 1 := Won(row.revision + 1)]
      && r.row ==
          Row(row.fields + Target(model, row.fields, fair).value + Target(model, row.fields, guess).value,
              row.revision + 1)
  {
    var x, y := Target(model, row.fields, guess).value, Target(model, row.fields, fair).value;
    var steps := GuessedRun(guess, fair);
    var r0 := Race(row, map[], []);
    assert Interleave(model, row, []) == r0 && [] + steps == steps;
    InterleaveFrom(model, row, [], steps);
    SixSteps(model, r0, steps);
    BothLoaded(model, row, guess, fair);
    LateSwapWins(model, row, guess, fair, x, y);
  }

  lemma LateSwapWins(model: Validator, row: Row, guess: Request, fair: Request, x: Doc, y: Doc)
    requires guess.expected == row.revision + 1 && fair.expected == row.revision
    ensures var r4 := Race(row, map[0 := Holding(guess, row, x), 1 := Holding(fair, row, y)], []);
      var r := Act(model, Act(model, r4, Swap(1)), Swap(0));
      && r.clients == map[0 := Won(row.revision + 1), 1 := Won(row.revision + 1)]
      && r.row == Row(row.fields + y + x, row.revision + 1)
  {
    var r4 := Race(row, map[0 := Holding(guess, row, x), 1 := Holding(fair, row, y)], []);
    var r5 := Act(model, r4, Swap(1));
    assert r5.row == Row(row.fields + y, row.revision + 1);
    assert r5.clients == map[0 := Holding(guess, row, x), 1 := Won(row.revision + 1)];
  }

  lemma LoadsTarget(model: Validator, r: Race, c: nat, req: Request)
    requires c !in r.clients && Target(model, r.row.fields, req).Some?
    ensures Act(model, Act(model, r, Arrive(c, req)), Load(c)) ==
            r.(clients := r.clients[c := Holding(req, r.row, Target(model, r.row.fields, req).value)])
  {
    assert r.clients[c := Waiting(req)][c := Holding(req, r.row, Target(model, r.row.fields, req).value)] ==
           r.clients[c := Holding(req, r.row, Target(model, r.row.fields, req).value)];
  }

  const NOTE := Rule(Primitive(StringType), Unconstrained, false, Null)
  const NOTES: Model := map["note" := NOTE]
  const NOTES_VALIDATOR: Validator := d => Validate(NOTES, d)

  /**
   So an update can be lost although its writer was told it won: an empty PATCH under a guessed revision puts back
   the old note.
   */
  lemma GuessLosesUpdate()
    ensures var row := Row(map["note" := Null], 1);
      var r := Interleave(NOTES_VALIDATOR, row,
                          GuessedRun(Request(map[], true, 2), Request(map["note" := Str("new")], false, 1)));
      r.clients == map[0 := Won(2), 1 := Won(2)] && r.row == Row(row.fields, 2)
  {
    var row := Row(map["note" := Null], 1);
    var guess, fair := Request(map[], true, 2), Request(map["note" := Str("new")], false, 1);
    assert row.fields + guess.payload == row.fields;
    assert Validate(NOTES, row.fields).value == row.fields && Validate(NOTES, fair.payload).value == fair.payload;
    GuessWinsAgain(NOTES_VALIDATOR, row, guess, fair);
    assert row.fields + fair.payload + row.fields == row.fields;
  }
}
