// What the outbox guarantees when every row is settled before its lease runs out.
module OutboxProofs {
  import opened Powers
  import opened Totals
  import opened Wrappers
  import opened Outbox
  import OutboxSchedule

  /******* Leases that do not overlap *******/

  // The next batch is claimed while every row in flight still has its lease.
  ghost predicate LeasesAhead(s: State) {
    forall w, k :: w in s.workers && 0 <= k < |s.workers[w]| ==>
      var id := s.workers[w][k].id;
      id < |s.events| && s.events[id].nextAttemptAt.Some? && s.now < s.events[id].nextAttemptAt.value
  }

  ghost predicate Timely(s: State, steps: seq<Step>) {
    |steps| != 0 ==>
      && Timely(s, steps[..|steps| - 1])
      && (steps[|steps| - 1].DoClaim? ==> LeasesAhead(Run(s, steps[..|steps| - 1])))
  }

  // A row in flight is held once, and its claim is current.
  ghost predicate Current(s: State, c: Claim) {
    c.id < |s.events| && Live(s.events[c.id]) && s.events[c.id].retryCount == c.retryCount
  }

  ghost predicate Exclusive(s: State) {
    && (forall w, k :: w in s.workers && 0 <= k < |s.workers[w]| ==> Current(s, s.workers[w][k]))
    && (forall w, j, k :: w in s.workers && 0 <= j < k < |s.workers[w]| ==> s.workers[w][j].id != s.workers[w][k].id)
    && (forall v, w, j, k :: v in s.workers && w in s.workers && v != w
                             && 0 <= j < |s.workers[v]| && 0 <= k < |s.workers[w]| ==>
          s.workers[v][j].id != s.workers[w][k].id)
  }

  lemma ClaimedAreCurrent(s: State, s': State, ids: seq<nat>, lease: int, worker: nat)
    requires forall k :: 0 <= k < |ids| ==> ids[k] < |s.events| && Live(s.events[ids[k]])
    requires worker !in s.workers && s'.events == Leased(s.events, ids, lease)
    requires s'.workers == s.workers[worker := ClaimsOf(s.events, ids)]
    requires forall j, k :: 0 <= j < k < |ids| ==> ids[j] < ids[k]
    requires Exclusive(s)
    requires forall v, j :: v in s.workers && 0 <= j < |s.workers[v]| ==> s.workers[v][j].id !in ids
    ensures Exclusive(s')
  {
    forall v, j | v in s.workers && 0 <= j < |s.workers[v]| ensures Current(s', s.workers[v][j]) {
      assert Current(s, s.workers[v][j]);
    }
    forall k | 0 <= k < |ids| ensures Current(s', s'.workers[worker][k]) { }
  }

  lemma ClaimKeepsExclusive(s: State, step: Step)
    requires Exclusive(s) && step.DoClaim? && LeasesAhead(s)
    ensures Exclusive(Next(s, step))
  {
    if step.worker !in s.workers {
      var ids := Selected(s.events, step.limit, step.locked, s.now);
      ClaimOf(s, step, ids);
      forall v, j | v in s.workers && 0 <= j < |s.workers[v]| ensures s.workers[v][j].id !in ids {
        assert !Due(s.events[s.workers[v][j].id], s.now);
      }
      ClaimedAreCurrent(s, Next(s, step), ids, step.appNow + LEASE_MS, step.worker);
    }
  }

  lemma HandleKeepsExclusive(s: State, step: Step)
    requires Exclusive(s) && Handles(s, step)
    ensures Exclusive(Next(s, step))
  {
    var s' := Next(s, step);
    var id := s.workers[step.worker][0].id;
    forall w, k | w in s'.workers && 0 <= k < |s'.workers[w]|
      ensures Current(s', s'.workers[w][k]) && s'.workers[w][k].id != id
    {
      if w == step.worker {
        assert s'.workers[w][k] == s.workers[w][k + 1];
        assert Current(s, s.workers[w][k + 1]);
      } else {
        assert Current(s, s.workers[w][k]);
      }
    }
    forall w, j, k | w in s'.workers && 0 <= j < k < |s'.workers[w]|
      ensures s'.workers[w][j].id != s'.workers[w][k].id
    {
      if w == step.worker {
        assert s'.workers[w][j] == s.workers[w][j + 1] && s'.workers[w][k] == s.workers[w][k + 1];
      }
    }
    forall v, w, j, k | v in s'.workers && w in s'.workers && v != w
                        && 0 <= j < |s'.workers[v]| && 0 <= k < |s'.workers[w]|
      ensures s'.workers[v][j].id != s'.workers[w][k].id
    {
      assert s'.workers[v][j] == s.workers[v][if v == step.worker then j + 1 else j];
      assert s'.workers[w][k] == s.workers[w][if w == step.worker then k + 1 else k];
    }
  }

  lemma StepKeepsExclusive(s: State, step: Step)
    requires Exclusive(s) && (step.DoClaim? ==> LeasesAhead(s))
    ensures Exclusive(Next(s, step))
  {
    match step
    case DoClaim(_, _, _, _) => ClaimKeepsExclusive(s, step);
    case DoHandle(_, _, _) => if Handles(s, step) { HandleKeepsExclusive(s, step); }
    case _ =>
      var s' := Next(s, step);
      forall w, k | w in s'.workers && 0 <= k < |s'.workers[w]| ensures Current(s', s'.workers[w][k]) {
        assert Current(s, s.workers[w][k]);
      }
  }

  lemma {:induction false} TimelyIsExclusive(steps: seq<Step>)
    requires Timely(EMPTY, steps)
    ensures Exclusive(Run(EMPTY, steps))
  {
    if |steps| != 0 {
      TimelyIsExclusive(steps[..|steps| - 1]);
      StepKeepsExclusive(Run(EMPTY, steps[..|steps| - 1]), steps[|steps| - 1]);
    }
  }

  // A row in flight is live, so nothing is left to settle on a dead letter.
  lemma ExclusiveKeepsDead(s: State, step: Step, id: nat)
    requires Exclusive(s) && id < |s.events| && !Live(s.events[id])
    ensures id < |Next(s, step).events| && !Live(Next(s, step).events[id])
  {
    if Handles(s, step) { assert Current(s, s.workers[step.worker][0]); }
    StepKeepsDeadIff(s, step, id);
  }

  // With leases that do not overlap, an event once dead-lettered or processed is
  // never live again.
  lemma {:induction false} DeadLettersAreFinal(steps: seq<Step>, m: nat, id: nat)
    requires Timely(EMPTY, steps) && m <= |steps|
    requires id < |Run(EMPTY, steps[..m]).events| && !Live(Run(EMPTY, steps[..m]).events[id])
    ensures id < |Run(EMPTY, steps).events| && !Live(Run(EMPTY, steps).events[id])
  {
    if m == |steps| {
      assert steps[..m] == steps;
    } else {
      var front := steps[..|steps| - 1];
      assert front[..m] == steps[..m];
      DeadLettersAreFinal(front, m, id);
      TimelyIsExclusive(front);
      ExclusiveKeepsDead(Run(EMPTY, front), steps[|steps| - 1], id);
    }
  }

  /******* Failures and backoff of one event *******/

  function FailuresOf(id: nat): Handling -> int {
    (h: Handling) => if h.id == id && h.failed then 1 else 0
  }

  function BackoffOf(id: nat): Handling -> int {
    (h: Handling) => if h.id == id then h.delay else 0
  }

  // Backoff scheduled by the first n failures of an event that stays alive.
  function Schedule(n: nat): (seconds: nat)
  {
    if n == 0 then 0 else Schedule(n - 1) + DelaySeconds(n)
  }

  lemma {:induction false} ScheduleMonotone(m: nat, n: nat)
    requires m <= n
    ensures Schedule(m) <= Schedule(n)
  {
    if m < n { ScheduleMonotone(m, n - 1); }
  }

  lemma ScheduleOfNine()
    ensures Schedule(MAX_RETRIES - 1) == 766
  {
    assert Pow2(3) == 8 && Pow2(6) == 64;
    assert DelaySeconds(1) == 2 && DelaySeconds(2) == 4 && DelaySeconds(3) == 8 && DelaySeconds(4) == 16;
    assert DelaySeconds(5) == 32 && DelaySeconds(6) == 64 && DelaySeconds(7) == 128;
    assert DelaySeconds(8) == 256 && DelaySeconds(9) == 256;
    assert Schedule(3) == 14;
    assert Schedule(6) == 126;
  }

  ghost predicate Accounted(s: State, id: nat)
    requires id < |s.events|
  {
    var e := s.events[id];
    && e.retryCount <= MAX_RETRIES
    && Total(s.handled, FailuresOf(id)) == e.retryCount
    && Total(s.handled, BackoffOf(id)) <= Schedule(MAX_RETRIES - 1)
    && (Live(e) ==> e.retryCount < MAX_RETRIES && Total(s.handled, BackoffOf(id)) == Schedule(e.retryCount))
  }

  ghost predicate Books(s: State) {
    && (forall id: nat :: id < |s.events| ==> Accounted(s, id))
    && (forall i :: 0 <= i < |s.handled| ==> s.handled[i].id < |s.events|)
  }

  lemma BackoffWithinSchedule(n: nat)
    requires n < MAX_RETRIES
    ensures Schedule(n) <= Schedule(MAX_RETRIES - 1)
    ensures n + 1 < MAX_RETRIES ==> Schedule(n) + DelaySeconds(n + 1) <= Schedule(MAX_RETRIES - 1)
  {
    ScheduleMonotone(n, MAX_RETRIES - 1);
    if n + 1 < MAX_RETRIES { ScheduleMonotone(n + 1, MAX_RETRIES - 1); }
  }

  lemma OtherRowAccounted(s: State, step: Step, id: nat)
    requires id < |s.events| && Accounted(s, id) && Handles(s, step) && s.workers[step.worker][0].id != id
    ensures Accounted(Next(s, step), id)
  {
    var h := Logged(s.workers[step.worker][0], step.outcome);
    TotalAppend(s.handled, h, FailuresOf(id));
    TotalAppend(s.handled, h, BackoffOf(id));
  }

  lemma HandleAccounted(s: State, step: Step, id: nat)
    requires Exclusive(s) && Books(s) && Handles(s, step) && id < |s.events|
    ensures Accounted(Next(s, step), id)
  {
    var c := s.workers[step.worker][0];
    assert Current(s, c) && Accounted(s, id);
    if id == c.id {
      var h := Logged(c, step.outcome);
      TotalAppend(s.handled, h, FailuresOf(id));
      TotalAppend(s.handled, h, BackoffOf(id));
      BackoffWithinSchedule(c.retryCount);
    } else {
      OtherRowAccounted(s, step, id);
    }
  }

  lemma {:induction false} NothingLogged(handled: seq<Handling>, id: nat)
    requires forall i :: 0 <= i < |handled| ==> handled[i].id != id
    ensures Total(handled, FailuresOf(id)) == 0 && Total(handled, BackoffOf(id)) == 0
  {
    if |handled| != 0 { NothingLogged(handled[..|handled| - 1], id); }
  }

  lemma StepKeepsBooks(s: State, step: Step)
    requires Exclusive(s) && Books(s)
    ensures Books(Next(s, step))
  {
    var s' := Next(s, step);
    forall id: nat | id < |s'.events| ensures Accounted(s', id) {
      if Handles(s, step) {
        HandleAccounted(s, step, id);
      } else if id == |s.events| {
        NothingLogged(s.handled, id);
      } else {
        assert Accounted(s, id);
      }
    }
  }

  // The milliseconds by which a step puts the next attempt of an event off, as its
  // row has it.
  function PutOff(s: State, step: Step, id: nat): int {
    if Settles(s, step, id) && id < |s.events| && Next(s, step).events[id].nextAttemptAt.Some?
    then Next(s, step).events[id].nextAttemptAt.value - step.appNow
    else 0
  }

  function PutOffAlong(steps: seq<Step>, id: nat): int {
    if |steps| == 0 then 0
    else PutOffAlong(steps[..|steps| - 1], id) + PutOff(Run(EMPTY, steps[..|steps| - 1]), steps[|steps| - 1], id)
  }

  lemma StepLogsItsDelay(s: State, step: Step, id: nat)
    ensures Total(Next(s, step).handled, BackoffOf(id)) * 1000
            == Total(s.handled, BackoffOf(id)) * 1000 + PutOff(s, step, id)
  {
    var s' := Next(s, step);
    if Handles(s, step) {
      OutboxSchedule.SettlingWrites(s, step);
      assert s'.handled == s.handled + [s'.handled[|s.handled|]];
      TotalAppend(s.handled, s'.handled[|s.handled|], BackoffOf(id));
    }
  }

  // The log tells the waits the rows were given.
  lemma {:induction false} WaitsAreLogged(steps: seq<Step>, id: nat)
    ensures PutOffAlong(steps, id) == 1000 * Total(Run(EMPTY, steps).handled, BackoffOf(id))
  {
    if |steps| != 0 {
      WaitsAreLogged(steps[..|steps| - 1], id);
      StepLogsItsDelay(Run(EMPTY, steps[..|steps| - 1]), steps[|steps| - 1], id);
    }
  }

  // With leases that do not overlap, an event fails at most ten times, exactly as
  // often as its row says, and its failures put it off by at most 766 seconds in all.
  lemma {:induction false} RetriesAreBounded(steps: seq<Step>)
    requires Timely(EMPTY, steps)
    ensures var s := Run(EMPTY, steps);
            && Books(s)
            && forall id: nat :: id < |s.events| ==>
                 && Total(s.handled, FailuresOf(id)) == s.events[id].retryCount <= 10
                 && PutOffAlong(steps, id) == 1000 * Total(s.handled, BackoffOf(id)) <= 766 * 1000
  {
    if |steps| != 0 {
      RetriesAreBounded(steps[..|steps| - 1]);
      TimelyIsExclusive(steps[..|steps| - 1]);
      StepKeepsBooks(Run(EMPTY, steps[..|steps| - 1]), steps[|steps| - 1]);
    }
    ScheduleOfNine();
    var s := Run(EMPTY, steps);
    forall id: nat | id < |s.events|
      ensures Total(s.handled, FailuresOf(id)) == s.events[id].retryCount <= 10
              && PutOffAlong(steps, id) == 1000 * Total(s.handled, BackoffOf(id)) <= 766 * 1000
    {
      assert Accounted(s, id);
      WaitsAreLogged(steps, id);
    }
  }

  // A failure settles the row from a claim that is still current.
  ghost predicate SettlesCurrent(s: State, step: Step, id: nat) {
    Settles(s, step, id) && step.outcome.Failed? ==>
      s.workers[step.worker][0].retryCount == s.events[id].retryCount
  }

  ghost predicate Counted(s: State, id: nat) {
    id < |s.events| ==> Total(s.handled, FailuresOf(id)) == s.events[id].retryCount
  }

  ghost predicate LogKnown(s: State) { forall i :: 0 <= i < |s.handled| ==> s.handled[i].id < |s.events| }

  lemma StepCountsIff(s: State, step: Step, id: nat)
    requires LogKnown(s) && Counted(s, id)
    ensures LogKnown(Next(s, step))
    ensures Counted(Next(s, step), id) <==> SettlesCurrent(s, step, id)
  {
    if Handles(s, step) {
      var c := s.workers[step.worker][0];
      TotalAppend(s.handled, Logged(c, step.outcome), FailuresOf(id));
    } else if id == |s.events| {
      NothingLogged(s.handled, id);
    }
  }

  ghost predicate AlwaysCounted(steps: seq<Step>, id: nat) {
    Counted(Run(EMPTY, steps), id) && (|steps| > 0 ==> AlwaysCounted(steps[..|steps| - 1], id))
  }

  ghost predicate AlwaysCurrent(steps: seq<Step>, id: nat) {
    |steps| > 0 ==>
      && AlwaysCurrent(steps[..|steps| - 1], id)
      && SettlesCurrent(Run(EMPTY, steps[..|steps| - 1]), steps[|steps| - 1], id)
  }

  lemma {:induction false} LogAlwaysKnown(steps: seq<Step>)
    ensures LogKnown(Run(EMPTY, steps))
  {
    if |steps| != 0 { LogAlwaysKnown(steps[..|steps| - 1]); }
  }

  // In every run, with any overlap of leases: a row's count equals its failures at
  // every point if and only if every failure settled a claim that was current.
  lemma {:induction false} CountKeptIff(steps: seq<Step>, id: nat)
    ensures AlwaysCounted(steps, id) <==> AlwaysCurrent(steps, id)
  {
    if |steps| != 0 {
      var front := steps[..|steps| - 1];
      CountKeptIff(front, id);
      LogAlwaysKnown(front);
      if AlwaysCounted(front, id) { StepCountsIff(Run(EMPTY, front), steps[|steps| - 1], id); }
    }
  }

  /******* Work left *******/

  function Left(e: Event): int { if Live(e) then MAX_RETRIES - e.retryCount else 0 }

  function Work(s: State): int { Total(s.events, Left) }

  // Every row handled brings the work left strictly down.
  lemma HandlingShrinksWork(s: State, step: Step)
    requires Exclusive(s) && BelowTen(s) && Handles(s, step)
    ensures Work(Next(s, step)) < Work(s)
  {
    var c := s.workers[step.worker][0];
    assert Current(s, c);
    TotalUpdate(s.events, c.id, HandledEvent(s.events[c.id], c.retryCount, step.outcome, step.appNow), Left);
  }

  lemma OtherStepsKeepWork(s: State, step: Step)
    requires !Handles(s, step)
    ensures Work(Next(s, step)) == Work(s) + if step.DoEnqueue? then MAX_RETRIES else 0
  {
    if step.DoEnqueue? {
      TotalAppend(s.events, FRESH_EVENT, Left);
    } else {
      TotalSame(s.events, Next(s, step).events, Left, Left);
    }
  }

  // So the dispatches of a whole run are at most ten for each event enqueued,
  // less the work still left.
  lemma {:induction false} DispatchesAreBounded(steps: seq<Step>)
    requires Timely(EMPTY, steps)
    ensures var s := Run(EMPTY, steps);
            0 <= Work(s) && |s.handled| + Work(s) <= MAX_RETRIES * |s.events|
  {
    if |steps| != 0 {
      var s := Run(EMPTY, steps[..|steps| - 1]);
      var step := steps[|steps| - 1];
      DispatchesAreBounded(steps[..|steps| - 1]);
      TimelyIsExclusive(steps[..|steps| - 1]);
      LiveRetriesBelowTen(steps[..|steps| - 1]);
      if Handles(s, step) { HandlingShrinksWork(s, step); } else { OtherStepsKeepWork(s, step); }
    }
    LiveRetriesBelowTen(steps);
    TotalNonNegative(Run(EMPTY, steps).events, Left);
  }
}
