// The outbox: rows are leased by a claim, dispatched one by one, and marked with
// the retry count the claim read, however long ago that was.
module Outbox {
  import opened Powers
  import opened Wrappers

  datatype Event = Event(
    processed: bool,
    deadLettered: bool,
    retryCount: nat,
    nextAttemptAt: Option<int>,
    lastErrorCode: Option<string>)

  datatype Claim = Claim(id: nat, retryCount: nat)

  datatype DispatchError =
    | ProviderTimeout
    | ProviderNetwork
    | ProviderAuth
    | WebhookSignature
    | ProviderResponse(statusCode: int, code: string)
    | Other(name: string)
    | Nameless

  // stored: the processed mark reached the row before the error came back.
  datatype Outcome = Delivered | Failed(error: DispatchError, stored: bool)

  // delay: seconds until the next attempt; zero when none is scheduled.
  datatype Handling = Handling(id: nat, failed: bool, delay: nat)

  datatype State = State(
    events: seq<Event>,
    now: int,
    workers: map<nat, seq<Claim>>,
    handled: seq<Handling>)

  const LEASE_MS := 30000
  const MAX_RETRIES := 10

  /******* Rows *******/

  predicate Live(e: Event) { !e.processed && !e.deadLettered }

  predicate Due(e: Event, now: int) { Live(e) && (e.nextAttemptAt.None? || e.nextAttemptAt.value <= now) }

  // Due rows no other claim has locked, oldest first.
  function DueIds(events: seq<Event>, locked: set<nat>, now: int): (ids: seq<nat>)
    ensures forall k :: 0 <= k < |ids| ==> ids[k] < |events| && ids[k] !in locked && Due(events[ids[k]], now)
    ensures forall j, k :: 0 <= j < k < |ids| ==> ids[j] < ids[k]
    ensures forall i: nat :: i < |events| && i !in locked && Due(events[i], now) ==> i in ids
  {
    if |events| == 0 then []
    else
      var n := |events| - 1;
      var front := DueIds(events[..n], locked, now);
      if n !in locked && Due(events[n], now) then front + [n] else front
  }

  function Selected(events: seq<Event>, limit: nat, locked: set<nat>, now: int): (ids: seq<nat>)
    ensures forall k :: 0 <= k < |ids| ==> ids[k] < |events| && ids[k] !in locked && Due(events[ids[k]], now)
    ensures forall j, k :: 0 <= j < k < |ids| ==> ids[j] < ids[k]
  {
    var due := DueIds(events, locked, now);
    if |due| <= limit then due else due[..limit]
  }

  function Leased(events: seq<Event>, ids: seq<nat>, lease: int): (after: seq<Event>)
    ensures |after| == |events|
    ensures forall i :: 0 <= i < |events| ==>
              after[i] == if i in ids then events[i].(nextAttemptAt := Some(lease)) else events[i]
  {
    seq(|events|, i requires 0 <= i < |events| =>
          if i in ids then events[i].(nextAttemptAt := Some(lease)) else events[i])
  }

  function ClaimsOf(events: seq<Event>, ids: seq<nat>): (claims: seq<Claim>)
    requires forall k :: 0 <= k < |ids| ==> ids[k] < |events|
    ensures |claims| == |ids|
    ensures forall k :: 0 <= k < |ids| ==> claims[k] == Claim(ids[k], events[ids[k]].retryCount)
  {
    seq(|ids|, k requires 0 <= k < |ids| => Claim(ids[k], events[ids[k]].retryCount))
  }

  function MarkProcessed(e: Event): Event {
    e.(processed := true, nextAttemptAt := None, lastErrorCode := None, deadLettered := false)
  }

  function DelaySeconds(retryCount: nat): nat {
    var p := Pow2(if retryCount <= 8 then retryCount else 8);
    if p <= 300 then p else 300
  }

  predicate GivesUp(retryCount: nat, retryable: bool) { !retryable || retryCount >= MAX_RETRIES }

  function MarkFailure(e: Event, retryCount: nat, errorCode: string, retryable: bool, now: int): Event {
    var dead := GivesUp(retryCount, retryable);
    e.(retryCount := retryCount, lastErrorCode := Some(errorCode),
       nextAttemptAt := if dead then None else Some(now + DelaySeconds(retryCount) * 1000),
       deadLettered := dead)
  }

  /******* Errors *******/

  predicate IsRetryable(error: DispatchError) {
    match error
    case ProviderAuth => false
    case WebhookSignature => false
    case ProviderResponse(status, _) => status == 0 || status >= 500 || status == 408 || status == 429
    case Other(name) => name != "ValidationError" && name != "SyntaxError" && name != "TypeError"
    case _ => true
  }

  function ErrorCode(error: DispatchError): string {
    match error
    case ProviderResponse(_, code) => code
    case ProviderAuth => "ProviderAuthError"
    case ProviderTimeout => "ProviderTimeoutError"
    case ProviderNetwork => "ProviderNetworkError"
    case WebhookSignature => "WebhookSignatureError"
    case Other(name) => name
    case Nameless => "OUTBOX_DISPATCH_ERROR"
  }

  /******* One row of a batch *******/

  function HandledEvent(e: Event, claimed: nat, outcome: Outcome, now: int): Event {
    match outcome
    case Delivered => MarkProcessed(e)
    case Failed(error, stored) =>
      MarkFailure(if stored then MarkProcessed(e) else e, claimed + 1, ErrorCode(error), IsRetryable(error), now)
  }

  function Logged(c: Claim, outcome: Outcome): Handling {
    match outcome
    case Delivered => Handling(c.id, false, 0)
    case Failed(error, _) =>
      Handling(c.id, true, if GivesUp(c.retryCount + 1, IsRetryable(error)) then 0 else DelaySeconds(c.retryCount + 1))
  }

  /******* Steps *******/

  datatype Step =
    | DoEnqueue
    | DoTick(ms: nat)
    | DoClaim(worker: nat, limit: nat, locked: set<nat>, appNow: int)
    | DoHandle(worker: nat, outcome: Outcome, appNow: int)
    | DoCrash(worker: nat)

  const FRESH_EVENT := Event(false, false, 0, None, None)

  predicate Handles(s: State, step: Step) {
    step.DoHandle? && step.worker in s.workers && |s.workers[step.worker]| > 0
    && s.workers[step.worker][0].id < |s.events|
  }

  function Next(s: State, step: Step): State {
    match step
    case DoEnqueue => s.(events := s.events + [FRESH_EVENT])
    case DoTick(ms) => s.(now := s.now + ms)
    case DoClaim(worker, limit, locked, appNow) =>
      if worker in s.workers then s
      else
        var ids := Selected(s.events, limit, locked, s.now);
        s.(events := Leased(s.events, ids, appNow + LEASE_MS), workers := s.workers[worker := ClaimsOf(s.events, ids)])
    case DoHandle(worker, outcome, appNow) =>
      if !Handles(s, step) then s
      else
        var c := s.workers[worker][0];
        s.(events := s.events[c.id := HandledEvent(s.events[c.id], c.retryCount, outcome, appNow)],
           workers := s.workers[worker := s.workers[worker][1..]],
           handled := s.handled + [Logged(c, outcome)])
    case DoCrash(worker) => s.(workers := s.workers - {worker})
  }

  function Run(s: State, steps: seq<Step>): State {
    if |steps| == 0 then s else Next(Run(s, steps[..|steps| - 1]), steps[|steps| - 1])
  }

  const EMPTY := State([], 0, map[], [])

  /******* Under any interleaving *******/

  ghost predicate BelowTen(s: State) {
    && (forall i :: 0 <= i < |s.events| && Live(s.events[i]) ==> s.events[i].retryCount < MAX_RETRIES)
    && (forall w, k :: w in s.workers && 0 <= k < |s.workers[w]| ==>
          s.workers[w][k].id < |s.events| && s.workers[w][k].retryCount < MAX_RETRIES)
  }

  lemma StepKeepsBelowTen(s: State, step: Step)
    requires BelowTen(s)
    ensures BelowTen(Next(s, step))
  {
    var s' := Next(s, step);
    forall w, k | w in s'.workers && 0 <= k < |s'.workers[w]|
      ensures s'.workers[w][k].id < |s'.events| && s'.workers[w][k].retryCount < MAX_RETRIES
    {
      if Handles(s, step) && w == step.worker {
        assert s'.workers[w][k] == s.workers[w][k + 1];
      } else if w in s.workers && s'.workers[w] == s.workers[w] {
        assert s'.workers[w][k] == s.workers[w][k];
      }
    }
  }

  // A live event has failed at most nine times by its own count, whatever
  // workers overlap, stall or crash.
  lemma {:induction false} LiveRetriesBelowTen(steps: seq<Step>)
    ensures BelowTen(Run(EMPTY, steps))
  {
    if |steps| != 0 {
      LiveRetriesBelowTen(steps[..|steps| - 1]);
      StepKeepsBelowTen(Run(EMPTY, steps[..|steps| - 1]), steps[|steps| - 1]);
    }
  }

  // Processed is absorbing, and no later claim selects the event.
  lemma {:induction false} ProcessedForever(s: State, steps: seq<Step>, id: nat)
    requires id < |s.events| && s.events[id].processed
    ensures id < |Run(s, steps).events| && Run(s, steps).events[id].processed
    ensures forall limit: nat, locked :: id !in Selected(Run(s, steps).events, limit, locked, Run(s, steps).now)
  {
    if |steps| != 0 {
      ProcessedForever(s, steps[..|steps| - 1], id);
    }
  }

  ghost predicate Holds(claims: seq<Claim>, id: nat) {
    exists k :: 0 <= k < |claims| && claims[k].id == id
  }

  // Steps that write the row of id without claiming it.
  predicate Settles(s: State, step: Step, id: nat) {
    Handles(s, step) && s.workers[step.worker][0].id == id
  }

  // What a claim does, with the rows it selects given.
  lemma ClaimOf(s: State, step: Step, ids: seq<nat>)
    requires step.DoClaim? && step.worker !in s.workers
    requires ids == Selected(s.events, step.limit, step.locked, s.now)
    ensures Next(s, step)
            == s.(events := Leased(s.events, ids, step.appNow + LEASE_MS),
                  workers := s.workers[step.worker := ClaimsOf(s.events, ids)])
  {
  }

  lemma ClaimExcludesStep(s: State, step: Step, id: nat, lease: int)
    requires id < |s.events| && s.events[id].nextAttemptAt == Some(lease) && s.now < lease
    requires step.DoClaim? && step.worker !in s.workers
    ensures id < |Next(s, step).events| && Next(s, step).events[id] == s.events[id]
    ensures forall w :: w in Next(s, step).workers && Holds(Next(s, step).workers[w], id) ==>
              w in s.workers && Holds(s.workers[w], id)
  {
    var ids := Selected(s.events, step.limit, step.locked, s.now);
    ClaimOf(s, step, ids);
    assert id !in ids by { assert !Due(s.events[id], s.now); }
    assert !Holds(ClaimsOf(s.events, ids), id);
  }

  lemma HandleExcludesStep(s: State, step: Step, id: nat)
    requires id < |s.events| && Handles(s, step) && s.workers[step.worker][0].id != id
    ensures Next(s, step).events[id] == s.events[id]
    ensures forall w :: w in Next(s, step).workers && Holds(Next(s, step).workers[w], id) ==>
              w in s.workers && Holds(s.workers[w], id)
  {
    var s' := Next(s, step);
    forall w | w in s'.workers && Holds(s'.workers[w], id) ensures w in s.workers && Holds(s.workers[w], id) {
      var k :| 0 <= k < |s'.workers[w]| && s'.workers[w][k].id == id;
      if w == step.worker { assert s.workers[w][k + 1].id == id; } else { assert s.workers[w][k].id == id; }
    }
  }

  lemma LeaseExcludesStep(s: State, step: Step, id: nat, lease: int)
    requires id < |s.events| && s.events[id].nextAttemptAt == Some(lease) && s.now < lease
    requires !Settles(s, step, id)
    ensures id < |Next(s, step).events| && Next(s, step).events[id] == s.events[id]
    ensures forall w :: w in Next(s, step).workers && Holds(Next(s, step).workers[w], id) ==>
              w in s.workers && Holds(s.workers[w], id)
  {
    if step.DoClaim? && step.worker !in s.workers {
      ClaimExcludesStep(s, step, id, lease);
    } else if Handles(s, step) {
      HandleExcludesStep(s, step, id);
    }
  }

  // While its lease lies ahead of the database clock and nobody settles it, a
  // leased row is picked up by no further claim.
  lemma {:induction false} LeaseExcludes(s: State, steps: seq<Step>, id: nat, lease: int)
    requires id < |s.events| && s.events[id].nextAttemptAt == Some(lease)
    requires Run(s, steps).now < lease
    requires forall i :: 0 <= i < |steps| ==> !Settles(Run(s, steps[..i]), steps[i], id)
    ensures id < |Run(s, steps).events| && Run(s, steps).events[id] == s.events[id]
    ensures forall w :: w in Run(s, steps).workers && Holds(Run(s, steps).workers[w], id) ==>
              w in s.workers && Holds(s.workers[w], id)
  {
    if |steps| != 0 {
      var n := |steps| - 1;
      forall i | 0 <= i < n ensures !Settles(Run(s, steps[..n][..i]), steps[..n][i], id) {
        assert steps[..n][..i] == steps[..i];
      }
      var m := Run(s, steps[..n]);
      assert m.now <= Run(s, steps).now;
      LeaseExcludes(s, steps[..n], id, lease);
      LeaseExcludesStep(m, steps[n], id, lease);
    }
  }

  // A settling step that brings an event back to life: a retryable failure, from a
  // claim below the ninth retry, on a row that is not processed.
  predicate Revives(s: State, step: Step, id: nat) {
    Settles(s, step, id) && id < |s.events| && !s.events[id].processed
    && step.outcome.Failed? && !step.outcome.stored && IsRetryable(step.outcome.error)
    && s.workers[step.worker][0].retryCount + 1 < MAX_RETRIES
  }

  lemma StepKeepsDeadIff(s: State, step: Step, id: nat)
    requires id < |s.events| && !Live(s.events[id])
    ensures id < |Next(s, step).events|
    ensures !Live(Next(s, step).events[id]) <==> !Revives(s, step, id)
  {
  }

  ghost predicate AlwaysDead(s: State, steps: seq<Step>, id: nat) {
    && id < |Run(s, steps).events| && !Live(Run(s, steps).events[id])
    && (|steps| > 0 ==> AlwaysDead(s, steps[..|steps| - 1], id))
  }

  ghost predicate NeverRevived(s: State, steps: seq<Step>, id: nat) {
    |steps| > 0 ==>
      && NeverRevived(s, steps[..|steps| - 1], id)
      && !Revives(Run(s, steps[..|steps| - 1]), steps[|steps| - 1], id)
  }

  // An event that is dead-lettered or processed is not live again at any point of
  // a run if and only if no step of it revives the event.
  lemma {:induction false} DeadForeverIff(s: State, steps: seq<Step>, id: nat)
    requires id < |s.events| && !Live(s.events[id])
    ensures AlwaysDead(s, steps, id) <==> NeverRevived(s, steps, id)
  {
    if |steps| != 0 {
      var front := steps[..|steps| - 1];
      DeadForeverIff(s, front, id);
      if AlwaysDead(s, front, id) { StepKeepsDeadIff(Run(s, front), steps[|steps| - 1], id); }
    }
  }

  // Two claims of one event, the second when the first one's lease is over.
  const OVERLAP := [DoEnqueue, DoClaim(1, 100, {}, 0), DoTick(LEASE_MS), DoClaim(2, 100, {}, LEASE_MS)]

  lemma OnlyDue(e: Event, now: int)
    requires Due(e, now)
    ensures Selected([e], 100, {}, now) == [0]
  {
    var none: seq<Event> := [e][..0];
    assert DueIds(none, {}, now) == [];
    assert DueIds([e], {}, now) == [0];
  }

  lemma OnlyLeased(e: Event, lease: int)
    ensures Leased([e], [0], lease) == [e.(nextAttemptAt := Some(lease))]
    ensures ClaimsOf([e], [0]) == [Claim(0, e.retryCount)]
  {
  }

  lemma ClaimOne(s: State, worker: nat, e: Event, appNow: int)
    requires s.events == [e] && worker !in s.workers && Selected(s.events, 100, {}, s.now) == [0]
    ensures var t := Next(s, DoClaim(worker, 100, {}, appNow));
            && t.events == [e.(nextAttemptAt := Some(appNow + LEASE_MS))]
            && t.workers == s.workers[worker := [Claim(0, e.retryCount)]]
            && t.now == s.now && t.handled == s.handled
  {
    OnlyLeased(e, appNow + LEASE_MS);
    ClaimOf(s, DoClaim(worker, 100, {}, appNow), [0]);
  }

  lemma ClaimOnlyRow(s: State, worker: nat, e: Event, appNow: int)
    requires s.events == [e] && Due(e, s.now) && worker !in s.workers
    ensures var t := Next(s, DoClaim(worker, 100, {}, appNow));
            && t.events == [e.(nextAttemptAt := Some(appNow + LEASE_MS))]
            && t.workers == s.workers[worker := [Claim(0, e.retryCount)]]
            && t.now == s.now && t.handled == s.handled
  {
    OnlyDue(e, s.now);
    ClaimOne(s, worker, e, appNow);
  }

  lemma FirstClaim()
    ensures var s := Run(EMPTY, OVERLAP[..2]);
            && s.events == [FRESH_EVENT.(nextAttemptAt := Some(LEASE_MS))] && s.handled == [] && s.now == 0
            && s.workers == map[1 := [Claim(0, 0)]]
  {
    var s := State([FRESH_EVENT], 0, map[], []);
    assert OVERLAP[..2][..1] == [DoEnqueue] && [DoEnqueue][..0] == [];
    assert Run(EMPTY, [DoEnqueue]) == s;
    ClaimOnlyRow(s, 1, FRESH_EVENT, 0);
  }

  lemma Ticked(s: State, ms: nat)
    ensures Next(s, DoTick(ms)) == s.(now := s.now + ms)
  {
  }

  lemma RunOverlap()
    ensures var claimed := Run(EMPTY, OVERLAP[..2]);
            Run(EMPTY, OVERLAP) == Next(Next(claimed, DoTick(LEASE_MS)), DoClaim(2, 100, {}, LEASE_MS))
  {
    assert OVERLAP[..3][..2] == OVERLAP[..2];
    assert Run(EMPTY, OVERLAP[..3]) == Next(Run(EMPTY, OVERLAP[..2]), DoTick(LEASE_MS));
  }

  lemma TwoWorkersOneRow()
    ensures var s := Run(EMPTY, OVERLAP);
            && s.events == [FRESH_EVENT.(nextAttemptAt := Some(2 * LEASE_MS))] && s.handled == []
            && s.workers == map[1 := [Claim(0, 0)], 2 := [Claim(0, 0)]]
  {
    FirstClaim();
    RunOverlap();
    var s := Next(Run(EMPTY, OVERLAP[..2]), DoTick(LEASE_MS));
    Ticked(Run(EMPTY, OVERLAP[..2]), LEASE_MS);
    ClaimOnlyRow(s, 2, FRESH_EVENT.(nextAttemptAt := Some(LEASE_MS)), LEASE_MS);
  }

  // A worker that outlives its lease does that: the second worker dead-letters
  // the event, the first then writes its own stale count over it.
  lemma StaleWorkerRevivesDeadLetter()
    ensures var dead := Next(Run(EMPTY, OVERLAP), DoHandle(2, Failed(ProviderAuth, false), LEASE_MS));
            var revived := Next(dead, DoHandle(1, Failed(ProviderTimeout, false), LEASE_MS));
            && |dead.events| == 1 && dead.events[0].deadLettered
            && Live(revived.events[0]) && revived.events[0].retryCount == 1 && |revived.handled| == 2
  {
    TwoWorkersOneRow();
  }
}
