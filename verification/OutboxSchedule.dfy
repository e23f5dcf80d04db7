// When an event is tried again: what a failure schedules, and that no claim comes
// before it.
module OutboxSchedule {
  import opened Powers
  import opened Wrappers
  import opened Outbox

  /******* What settling a row writes *******/

  // Every failure but these is worth another try: a refused credential or signature,
  // an answer below 500 that is neither a timeout nor a throttle, and three errors
  // of the program itself.
  predicate WorthRetrying(error: DispatchError) {
    && !error.ProviderAuth? && !error.WebhookSignature?
    && (error.ProviderResponse? ==> error.statusCode in {0, 408, 429} || error.statusCode >= 500)
    && (error.Other? ==> error.name !in {"ValidationError", "SyntaxError", "TypeError"})
  }

  // The name an error is stored under.
  ghost predicate Named(error: DispatchError, code: string) {
    && (error.ProviderTimeout? ==> code == "ProviderTimeoutError")
    && (error.ProviderNetwork? ==> code == "ProviderNetworkError")
    && (error.ProviderAuth? ==> code == "ProviderAuthError")
    && (error.WebhookSignature? ==> code == "WebhookSignatureError")
    && (error.ProviderResponse? ==> code == error.code)
    && (error.Other? ==> code == error.name)
    && (error.Nameless? ==> code == "OUTBOX_DISPATCH_ERROR")
  }

  function Min(a: nat, b: nat): nat { if a < b then a else b }

  // min(300, 2^min(n, 8)) seconds before the n-th failure is tried again.
  function Backoff(n: nat): nat { Min(300, Pow2(Min(n, 8))) }

  ghost predicate SettledRow(e: Event, e': Event, claimed: nat, outcome: Outcome, appNow: int) {
    match outcome
    case Delivered => e' == Event(true, false, e.retryCount, None, None)
    case Failed(error, stored) =>
      var again := WorthRetrying(error) && claimed + 1 < 10;
      && e'.processed == (e.processed || stored)
      && e'.retryCount == claimed + 1
      && e'.lastErrorCode.Some? && Named(error, e'.lastErrorCode.value)
      && e'.deadLettered == !again
      && e'.nextAttemptAt == if again then Some(appNow + 1000 * Backoff(claimed + 1)) else None
  }

  lemma SettlesRow(e: Event, claimed: nat, outcome: Outcome, appNow: int)
    ensures SettledRow(e, HandledEvent(e, claimed, outcome, appNow), claimed, outcome, appNow)
  {
  }

  // What a settling step does, in the machine's own terms.
  lemma SettledState(s: State, step: Step)
    requires Handles(s, step)
    ensures var c := s.workers[step.worker][0];
            Next(s, step)
            == s.(events := s.events[c.id := HandledEvent(s.events[c.id], c.retryCount, step.outcome, step.appNow)],
                  workers := s.workers[step.worker := s.workers[step.worker][1..]],
                  handled := s.handled + [Logged(c, step.outcome)])
  {
  }

  // The log has the delay that the row was given, in seconds.
  ghost predicate LogAgrees(e': Event, h: Handling, c: Claim, outcome: Outcome, appNow: int) {
    && h.id == c.id && h.failed == outcome.Failed?
    && (e'.nextAttemptAt.Some? ==> e'.nextAttemptAt == Some(appNow + 1000 * h.delay))
    && (e'.nextAttemptAt.None? ==> h.delay == 0)
    && (Live(e') ==> e'.nextAttemptAt == Some(appNow + 1000 * Backoff(c.retryCount + 1)))
  }

  lemma LogTells(e: Event, c: Claim, outcome: Outcome, appNow: int)
    ensures LogAgrees(HandledEvent(e, c.retryCount, outcome, appNow), Logged(c, outcome), c, outcome, appNow)
  {
  }

  // A settling step writes the claimed row, takes the claim off the worker's list
  // and logs it, with the delay it scheduled in seconds.
  lemma SettlingWrites(s: State, step: Step)
    requires Handles(s, step)
    ensures var s' := Next(s, step); var c := s.workers[step.worker][0];
            && |s'.events| == |s.events|
            && SettledRow(s.events[c.id], s'.events[c.id], c.retryCount, step.outcome, step.appNow)
            && (forall i :: 0 <= i < |s.events| && i != c.id ==> s'.events[i] == s.events[i])
            && s'.workers == s.workers[step.worker := s.workers[step.worker][1..]] && s'.now == s.now
            && |s'.handled| == |s.handled| + 1 && s'.handled[..|s.handled|] == s.handled
            && LogAgrees(s'.events[c.id], s'.handled[|s.handled|], c, step.outcome, step.appNow)
  {
    var c := s.workers[step.worker][0];
    SettledState(s, step);
    SettlesRow(s.events[c.id], c.retryCount, step.outcome, step.appNow);
    LogTells(s.events[c.id], c, step.outcome, step.appNow);
  }

  // The step settles claim c, leads to t, and leaves the event alive.
  ghost predicate LeavesAlive(s: State, step: Step, c: Claim, t: State) {
    Handles(s, step) && c == s.workers[step.worker][0] && t == Next(s, step) && Live(t.events[c.id])
  }

  lemma FailureSchedules(s: State, step: Step, c: Claim, t: State)
    requires LeavesAlive(s, step, c, t)
    ensures c.id < |t.events|
    ensures t.events[c.id].nextAttemptAt == Some(step.appNow + 1000 * Backoff(c.retryCount + 1))
  {
    SettlingWrites(s, step);
  }

  /******* No claim before its time *******/

  // No step of a run settles this event.
  ghost predicate NotSettled(s: State, steps: seq<Step>, id: nat) {
    forall i :: 0 <= i < |steps| ==> !Settles(Run(s, steps[..i]), steps[i], id)
  }

  // Its row is as it was, no claim would select it, and nobody has it in hand who
  // did not have it before.
  ghost predicate LeftAlone(t: State, u: State, id: nat)
    requires id < |t.events|
  {
    && id < |u.events| && u.events[id] == t.events[id]
    && (forall limit: nat, locked :: id !in Selected(u.events, limit, locked, u.now))
    && (forall w :: w in u.workers && Outbox.Holds(u.workers[w], id) ==>
          w in t.workers && Outbox.Holds(t.workers[w], id))
  }

  lemma NotSelectedBefore(t: State, steps: seq<Step>, id: nat, due: int)
    requires id < |t.events| && t.events[id].nextAttemptAt == Some(due)
    requires NotSettled(t, steps, id) && Run(t, steps).now < due
    ensures LeftAlone(t, Run(t, steps), id)
  {
    LeaseExcludes(t, steps, id, due);
    assert !Due(Run(t, steps).events[id], Run(t, steps).now);
  }

  // After a failure that leaves the event live, and until somebody settles it again,
  // no claim selects it while the database clock is short of the scheduled time:
  // d seconds past the worker's clock, d = min(300, 2^min(n, 8)) for the n-th failure.
  lemma NotClaimedBeforeItsTime(s: State, step: Step, c: Claim, t: State, steps: seq<Step>)
    requires LeavesAlive(s, step, c, t) && NotSettled(t, steps, c.id)
    requires Run(t, steps).now < step.appNow + 1000 * Backoff(c.retryCount + 1)
    ensures LeftAlone(t, Run(t, steps), c.id)
  {
    FailureSchedules(s, step, c, t);
    NotSelectedBefore(t, steps, c.id, step.appNow + 1000 * Backoff(c.retryCount + 1));
  }

  /******* What a claim takes *******/

  // Live, not locked by another, and due.
  predicate Claimable(e: Event, id: nat, locked: set<nat>, now: int) {
    !e.processed && !e.deadLettered && id !in locked && (e.nextAttemptAt.Some? ==> e.nextAttemptAt.value <= now)
  }

  // Claimable rows older than row n.
  function Ahead(events: seq<Event>, n: nat, locked: set<nat>, now: int): nat
    requires n <= |events|
  {
    if n == 0 then 0
    else Ahead(events, n - 1, locked, now) + if Claimable(events[n - 1], n - 1, locked, now) then 1 else 0
  }

  lemma {:induction false} AheadOfPrefix(events: seq<Event>, m: nat, n: nat, locked: set<nat>, now: int)
    requires n <= m <= |events|
    ensures Ahead(events[..m], n, locked, now) == Ahead(events, n, locked, now)
  {
    if n != 0 { AheadOfPrefix(events, m, n - 1, locked, now); }
  }

  lemma {:induction false} DueInOrder(events: seq<Event>, locked: set<nat>, now: int)
    ensures |DueIds(events, locked, now)| == Ahead(events, |events|, locked, now)
    ensures forall k :: 0 <= k < |DueIds(events, locked, now)| ==>
              Ahead(events, DueIds(events, locked, now)[k], locked, now) == k
  {
    if |events| != 0 {
      var n := |events| - 1;
      var front, due := DueIds(events[..n], locked, now), DueIds(events, locked, now);
      DueInOrder(events[..n], locked, now);
      AheadOfPrefix(events, n, n, locked, now);
      forall k | 0 <= k < |due| ensures Ahead(events, due[k], locked, now) == k {
        if k < |front| { AheadOfPrefix(events, n, front[k], locked, now); }
      }
    }
  }

  // A claim takes exactly the claimable rows with fewer than `limit` older ones.
  lemma ClaimTakesOldest(events: seq<Event>, limit: nat, locked: set<nat>, now: int, id: nat)
    ensures id in Selected(events, limit, locked, now)
       <==> id < |events| && Claimable(events[id], id, locked, now) && Ahead(events, id, locked, now) < limit
  {
    var due := DueIds(events, locked, now);
    DueInOrder(events, locked, now);
    if id < |events| && Claimable(events[id], id, locked, now) && Ahead(events, id, locked, now) < limit {
      assert Due(events[id], now) && id in due;
      var k :| 0 <= k < |due| && due[k] == id;
      assert Selected(events, limit, locked, now)[k] == id;
    }
    if id in Selected(events, limit, locked, now) {
      var k :| 0 <= k < |Selected(events, limit, locked, now)| && Selected(events, limit, locked, now)[k] == id;
      assert due[k] == id;
    }
  }

  lemma TakenIds(events: seq<Event>, limit: nat, locked: set<nat>, now: int, ids: seq<nat>)
    requires ids == Selected(events, limit, locked, now)
    ensures forall id: nat :: id < |events| ==>
              (id in ids <==> Claimable(events[id], id, locked, now) && Ahead(events, id, locked, now) < limit)
    ensures forall id: nat :: Outbox.Holds(ClaimsOf(events, ids), id) <==> id in ids
  {
    forall id: nat | id < |events|
      ensures id in ids <==> Claimable(events[id], id, locked, now) && Ahead(events, id, locked, now) < limit
    {
      ClaimTakesOldest(events, limit, locked, now, id);
    }
    forall id: nat | id in ids ensures Outbox.Holds(ClaimsOf(events, ids), id) {
      var k :| 0 <= k < |ids| && ids[k] == id;
      assert ClaimsOf(events, ids)[k].id == id;
    }
  }

  // Row id of the outbox is one of those a claim takes.
  predicate Taken(s: State, step: Step, id: nat)
    requires step.DoClaim? && id < |s.events|
  {
    Claimable(s.events[id], id, step.locked, s.now) && Ahead(s.events, id, step.locked, s.now) < step.limit
  }

  // It leases them for thirty seconds on its own clock, remembers the retry counts
  // it read, and touches no other row.
  lemma ClaimWrites(s: State, step: Step)
    requires step.DoClaim? && step.worker !in s.workers
    ensures var s' := Next(s, step);
            && |s'.events| == |s.events| && s'.now == s.now && s'.handled == s.handled
            && (forall id: nat :: id < |s.events| ==>
                  s'.events[id] == if Taken(s, step, id)
                                   then s.events[id].(nextAttemptAt := Some(step.appNow + 30000)) else s.events[id])
            && step.worker in s'.workers && s'.workers == s.workers[step.worker := s'.workers[step.worker]]
            && (forall k :: 0 <= k < |s'.workers[step.worker]| ==>
                  var c := s'.workers[step.worker][k];
                  c.id < |s.events| && c.retryCount == s.events[c.id].retryCount)
            && (forall id: nat :: id < |s.events| ==>
                  (Outbox.Holds(s'.workers[step.worker], id) <==> Taken(s, step, id)))
  {
    var ids := Selected(s.events, step.limit, step.locked, s.now);
    ClaimOf(s, step, ids);
    TakenIds(s.events, step.limit, step.locked, s.now, ids);
  }
}
