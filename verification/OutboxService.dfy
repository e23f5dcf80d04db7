// The claim repository and the processor's batch loop on the outbox rows.
module OutboxService {
  import opened Powers
  import opened Wrappers
  import opened Outbox
  import opened OutboxSchedule

  // What dispatching an event brings, per event; and the application clock at
  // each write of a batch.
  function SettleAll(events: seq<Event>, claims: seq<Claim>, answer: nat -> Outcome, clock: nat -> int)
    : (after: seq<Event>)
    requires forall k :: 0 <= k < |claims| ==> claims[k].id < |events|
    ensures |after| == |events|
  {
    if |claims| == 0 then events
    else
      var n := |claims| - 1;
      var front := SettleAll(events, claims[..n], answer, clock);
      var id := claims[n].id;
      front[id := HandledEvent(front[id], claims[n].retryCount, answer(id), clock(n))]
  }

  class OutboxRows {
    var events: seq<Event>

    constructor ()
      ensures events == []
    {
      events := [];
    }

    method SelectDue(limit: nat, locked: set<nat>, dbNow: int) returns (ids: seq<nat>)
      ensures ids == Selected(events, limit, locked, dbNow)
    {
      ids := [];
      for i := 0 to |events|
        invariant ids == Selected(events[..i], limit, locked, dbNow)
      {
        assert events[..i + 1][..i] == events[..i];
        if |ids| < limit && i !in locked && !events[i].processed && !events[i].deadLettered
           && (events[i].nextAttemptAt.None? || events[i].nextAttemptAt.value <= dbNow) {
          ids := ids + [i];
        }
      }
      assert events[..|events|] == events;
    }

    method ClaimBatch(limit: nat, locked: set<nat>, dbNow: int, appNow: int) returns (claims: seq<Claim>)
      modifies this
      ensures var ids := Selected(old(events), limit, locked, dbNow);
              claims == ClaimsOf(old(events), ids) && events == Leased(old(events), ids, appNow + LEASE_MS)
    {
      var ids := SelectDue(limit, locked, dbNow);
      claims := [];
      var lease := appNow + LEASE_MS;
      for k := 0 to |ids|
        invariant |claims| == k
        invariant forall j :: 0 <= j < k ==> claims[j] == Claim(ids[j], old(events)[ids[j]].retryCount)
        invariant |events| == |old(events)|
        invariant forall i :: 0 <= i < |events| ==>
                    events[i] == if i in ids[..k] then old(events)[i].(nextAttemptAt := Some(lease)) else old(events)[i]
      {
        var id := ids[k];
        assert id !in ids[..k];
        claims := claims + [Claim(id, events[id].retryCount)];
        events := events[id := events[id].(nextAttemptAt := Some(lease))];
      }
      assert ids[..|ids|] == ids;
    }

    method StoreProcessed(id: nat)
      requires id < |events|
      modifies this
      ensures events == old(events)[id := MarkProcessed(old(events)[id])]
    {
      events := events[id := events[id].(processed := true, nextAttemptAt := None, lastErrorCode := None,
                                         deadLettered := false)];
    }

    method StoreFailure(id: nat, retryCount: nat, errorCode: string, retryable: bool, appNow: int)
      requires id < |events|
      modifies this
      ensures events == old(events)[id := MarkFailure(old(events)[id], retryCount, errorCode, retryable, appNow)]
    {
      var deadLetter := !retryable || retryCount >= 10;
      var exponent := if retryCount <= 8 then retryCount else 8;
      var power := Pow2(exponent);
      var delaySeconds := if power <= 300 then power else 300;
      events := events[id := events[id].(retryCount := retryCount, lastErrorCode := Some(errorCode),
                                         nextAttemptAt := if deadLetter then None
                                                          else Some(appNow + delaySeconds * 1000),
                                         deadLettered := deadLetter)];
    }

    method Classify(error: DispatchError) returns (retryable: bool)
      ensures retryable <==> IsRetryable(error)
    {
      if error.ProviderTimeout? || error.ProviderNetwork? {
        return true;
      }
      if error.ProviderAuth? || error.WebhookSignature? {
        return false;
      }
      if error.Other? && (error.name == "ValidationError" || error.name == "SyntaxError" || error.name == "TypeError") {
        return false;
      }
      if error.ProviderResponse? {
        return error.statusCode == 0 || error.statusCode >= 500 || error.statusCode == 408 || error.statusCode == 429;
      }
      return true;
    }

    method SettleRow(c: Claim, outcome: Outcome, appNow: int)
      requires c.id < |events|
      modifies this
      ensures events == old(events)[c.id := HandledEvent(old(events)[c.id], c.retryCount, outcome, appNow)]
    {
      match outcome {
        case Delivered =>
          StoreProcessed(c.id);
        case Failed(error, stored) =>
          if stored {
            StoreProcessed(c.id);
          }
          var retryable := Classify(error);
          StoreFailure(c.id, c.retryCount + 1, ErrorCode(error), retryable, appNow);
      }
    }

    // One row's failure does not stop the next.
    method SettleBatch(claims: seq<Claim>, answer: nat -> Outcome, clock: nat -> int)
      requires forall k :: 0 <= k < |claims| ==> claims[k].id < |events|
      modifies this
      ensures events == SettleAll(old(events), claims, answer, clock)
    {
      for k := 0 to |claims|
        invariant |events| == |old(events)|
        invariant events == SettleAll(old(events), claims[..k], answer, clock)
      {
        assert claims[..k + 1][..k] == claims[..k];
        SettleRow(claims[k], answer(claims[k].id), clock(k));
      }
      assert claims[..|claims|] == claims;
    }

    method ProcessBatch(
      limit: nat, locked: set<nat>, dbNow: int, appNow: int, answer: nat -> Outcome, clock: nat -> int)
      returns (handled: nat)
      modifies this
      ensures var ids := Selected(old(events), limit, locked, dbNow);
              && handled == |ids|
              && events
                 == SettleAll(Leased(old(events), ids, appNow + LEASE_MS), ClaimsOf(old(events), ids), answer, clock)
    {
      var claims := ClaimBatch(limit, locked, dbNow, appNow);
      SettleBatch(claims, answer, clock);
      return |claims|;
    }
  }

  // Settling a batch touches the claimed rows only, each once.
  lemma {:induction false} BatchSettlesEachRow(
    events: seq<Event>, claims: seq<Claim>, answer: nat -> Outcome, clock: nat -> int)
    requires forall k :: 0 <= k < |claims| ==> claims[k].id < |events|
    requires forall j, k :: 0 <= j < k < |claims| ==> claims[j].id != claims[k].id
    ensures var after := SettleAll(events, claims, answer, clock);
            && (forall k :: 0 <= k < |claims| ==>
                  var id := claims[k].id;
                  && after[id] == HandledEvent(events[id], claims[k].retryCount, answer(id), clock(k))
                  && SettledRow(events[id], after[id], claims[k].retryCount, answer(id), clock(k)))
            && (forall i :: 0 <= i < |events| && (forall k :: 0 <= k < |claims| ==> claims[k].id != i) ==>
                  after[i] == events[i])
  {
    if |claims| != 0 {
      var last := claims[|claims| - 1];
      BatchSettlesEachRow(events, claims[..|claims| - 1], answer, clock);
      SettlesRow(events[last.id], last.retryCount, answer(last.id), clock(|claims| - 1));
    }
  }

  // A batch in the step machine: one claim, then one settling step per row.
  function SettleSteps(worker: nat, claims: seq<Claim>, answer: nat -> Outcome, clock: nat -> int): (steps: seq<Step>)
    ensures |steps| == |claims|
    ensures forall k :: 0 <= k < |steps| ==> steps[k] == DoHandle(worker, answer(claims[k].id), clock(k))
  {
    seq(|claims|, k requires 0 <= k < |claims| => DoHandle(worker, answer(claims[k].id), clock(k)))
  }

  lemma {:induction false} SettleIsRun(
    s: State, worker: nat, claims: seq<Claim>, n: nat, answer: nat -> Outcome, clock: nat -> int)
    requires worker in s.workers && s.workers[worker] == claims && n <= |claims|
    requires forall k :: 0 <= k < |claims| ==> claims[k].id < |s.events|
    ensures var after := Run(s, SettleSteps(worker, claims, answer, clock)[..n]);
            && after.events == SettleAll(s.events, claims[..n], answer, clock)
            && worker in after.workers && after.workers[worker] == claims[n..]
            && |after.handled| == |s.handled| + n
  {
    var steps := SettleSteps(worker, claims, answer, clock)[..n];
    if n == 0 {
      assert claims[0..] == claims;
    } else {
      SettleIsRun(s, worker, claims, n - 1, answer, clock);
      assert steps[..n - 1] == SettleSteps(worker, claims, answer, clock)[..n - 1];
      assert claims[..n][..n - 1] == claims[..n - 1];
      assert claims[n - 1..][1..] == claims[n..] && claims[n - 1..][0] == claims[n - 1];
    }
  }
}
