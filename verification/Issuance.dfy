// Conservation of tickets: what a reservation holds is what is sold and what is
// issued, once.
module Issuance {
  import opened Totals
  import opened Store
  import opened Wrappers

  function ConsumedWeight(key: BucketKey): Reservation -> int {
    (r: Reservation) => if r.key == key && r.status == Consumed then r.quantity else 0
  }

  function TicketWeight(key: BucketKey): Ticket -> int {
    (t: Ticket) => if t.key == key then 1 else 0
  }

  // TICKETS_ISSUED audits that name one reservation
  function IssuedWeight(id: nat): Audit -> int {
    (a: Audit) => if a.TicketsIssued? && a.reservationId == id then 1 else 0
  }

  ghost predicate Linked(s: Tables) {
    && (forall i :: 0 <= i < |s.reservations| ==> s.reservations[i].key in s.buckets)
    && (forall i :: 0 <= i < |s.orders| && s.orders[i].reservationId.Some? ==>
          var rid := s.orders[i].reservationId.value;
          && rid < |s.reservations|
          && s.orders[i].eventId == s.reservations[rid].key.eventId
          && s.orders[i].userId == s.reservations[rid].ownerUserId)
  }

  ghost predicate Conserved(s: Tables) {
    forall k :: k in s.buckets ==>
      && s.buckets[k].soldCount == Total(s.reservations, ConsumedWeight(k))
      && s.buckets[k].soldCount == Total(s.tickets, TicketWeight(k))
  }

  // A reservation has been issued once if it is consumed and never otherwise.
  ghost predicate IssuedOnce(s: Tables) {
    forall id: nat ::
      Total(s.audits, IssuedWeight(id))
      == if id < |s.reservations| && s.reservations[id].status == Consumed then 1 else 0
  }

  ghost predicate Inv(s: Tables) { Linked(s) && Conserved(s) && IssuedOnce(s) }

  // What no interleaving breaks: sold is the number of tickets, and a reservation
  // is issued at most once, after which it is never HELD again.
  ghost predicate SoldIsTickets(s: Tables) {
    forall k :: k in s.buckets ==> s.buckets[k].soldCount == Total(s.tickets, TicketWeight(k))
  }

  ghost predicate IssuedAtMostOnce(s: Tables) {
    forall id: nat ::
      var n := Total(s.audits, IssuedWeight(id));
      && 0 <= n <= 1
      && (n == 1 ==> id < |s.reservations| && s.reservations[id].status != Held)
      && (id < |s.reservations| && s.reservations[id].status == Consumed ==> n == 1)
  }

  ghost predicate Core(s: Tables) { Linked(s) && SoldIsTickets(s) && IssuedAtMostOnce(s) }

  /******* Steps that issue nothing *******/

  // Rows may be added, and no row becomes HELD or CONSUMED.
  ghost predicate OnlyLeaves(rows: seq<Reservation>, rows': seq<Reservation>) {
    && |rows| <= |rows'|
    && (forall i :: 0 <= i < |rows| ==>
          && rows'[i] == rows[i].(status := rows'[i].status)
          && (rows'[i].status == Held ==> rows[i].status == Held)
          && (rows'[i].status == Consumed ==> rows[i].status == Consumed))
    && (forall i :: |rows| <= i < |rows'| ==> rows'[i].status != Consumed)
  }

  // Besides, consumed rows stay as they are.
  ghost predicate KeepsConsumed(rows: seq<Reservation>, rows': seq<Reservation>) {
    && OnlyLeaves(rows, rows')
    && (forall i :: 0 <= i < |rows| && rows[i].status == Consumed ==> rows'[i].status == Consumed)
  }

  ghost predicate KeepsIssued(audits: seq<Audit>, audits': seq<Audit>) {
    && |audits| <= |audits'| && audits'[..|audits|] == audits
    && forall i :: |audits| <= i < |audits'| ==> !audits'[i].TicketsIssued?
  }

  lemma {:induction false} ZeroTotal<T>(xs: seq<T>, w: T -> int)
    requires forall i :: 0 <= i < |xs| ==> w(xs[i]) == 0
    ensures Total(xs, w) == 0
  {
    if |xs| != 0 { ZeroTotal(xs[..|xs| - 1], w); }
  }

  lemma ConsumedTotalKept(rows: seq<Reservation>, rows': seq<Reservation>, key: BucketKey)
    requires KeepsConsumed(rows, rows')
    ensures Total(rows', ConsumedWeight(key)) == Total(rows, ConsumedWeight(key))
  {
    var n := |rows|;
    assert rows' == rows'[..n] + rows'[n..];
    TotalConcat(rows'[..n], rows'[n..], ConsumedWeight(key));
    TotalSame(rows'[..n], rows, ConsumedWeight(key), ConsumedWeight(key));
    ZeroTotal(rows'[n..], ConsumedWeight(key));
  }

  lemma IssuedTotalKept(audits: seq<Audit>, audits': seq<Audit>, id: nat)
    requires KeepsIssued(audits, audits')
    ensures Total(audits', IssuedWeight(id)) == Total(audits, IssuedWeight(id))
  {
    assert audits' == audits + audits'[|audits|..];
    TotalConcat(audits, audits'[|audits|..], IssuedWeight(id));
    ZeroTotal(audits'[|audits|..], IssuedWeight(id));
  }

  ghost predicate SameSold(s: Tables, s': Tables) {
    && s'.buckets.Keys == s.buckets.Keys
    && forall k :: k in s.buckets ==> s'.buckets[k].soldCount == s.buckets[k].soldCount
  }

  lemma QuietStepKeepsCounts(s: Tables, s': Tables)
    requires Conserved(s) && IssuedOnce(s)
    requires KeepsConsumed(s.reservations, s'.reservations) && KeepsIssued(s.audits, s'.audits)
    requires SameSold(s, s') && s'.tickets == s.tickets
    ensures Conserved(s') && IssuedOnce(s')
  {
    forall k | k in s'.buckets
      ensures s'.buckets[k].soldCount == Total(s'.reservations, ConsumedWeight(k))
      ensures s'.buckets[k].soldCount == Total(s'.tickets, TicketWeight(k))
    {
      ConsumedTotalKept(s.reservations, s'.reservations, k);
    }
    forall id: nat
      ensures Total(s'.audits, IssuedWeight(id))
              == if id < |s'.reservations| && s'.reservations[id].status == Consumed then 1 else 0
    {
      IssuedTotalKept(s.audits, s'.audits, id);
    }
  }

  ghost predicate Silent(s: Tables, s': Tables) {
    && OnlyLeaves(s.reservations, s'.reservations)
    && KeepsIssued(s.audits, s'.audits)
    && SameSold(s, s')
    && s'.tickets == s.tickets
  }

  ghost predicate Quiet(s: Tables, s': Tables) { Silent(s, s') && KeepsConsumed(s.reservations, s'.reservations) }

  // A release commit that does not find its row CONSUMED.
  predicate ClearCommit(s: Tables, step: Step) {
    step.StepCommitRelease? && CommitRelease(s, step.pid).1 == Ok(true) ==>
      s.reservations[s.releases[step.pid].id].status != Consumed
  }

  lemma ReserveQuiet(s: Tables, appNow: int, actor: nat, key: BucketKey, quantity: int, ttl: int)
    ensures Quiet(s, Reserve(s, appNow, actor, key, quantity, ttl).0)
  {
  }

  lemma ReleaseSilent(s: Tables, pid: nat)
    ensures Silent(s, CommitRelease(s, pid).0)
    ensures ClearCommit(s, StepCommitRelease(pid)) ==> Quiet(s, CommitRelease(s, pid).0)
  {
  }

  lemma SweepQuiet(s: Tables, claim: seq<nat>)
    requires IsClaim(s, claim)
    ensures Quiet(s, Sweep(s, claim).0)
  {
    forall i | 0 <= i < |s.reservations| && i in claim ensures s.reservations[i].status == Held {
      var j :| 0 <= j < |claim| && claim[j] == i;
      assert Stale(s.reservations[claim[j]], s.now);
    }
  }

  lemma OrderSideQuiet(s: Tables, step: Step)
    requires step.StepCreateOrder? || step.StepAddPayment? || step.StepVerifyPayment? || step.StepAdvance?
             || step.StepBeginRelease? || step.StepDropRelease?
    ensures Quiet(s, Next(s, step)) && Next(s, step).reservations == s.reservations
  {
  }

  lemma QuietStep(s: Tables, step: Step)
    requires !step.StepIssue?
    ensures Silent(s, Next(s, step))
    ensures ClearCommit(s, step) ==> Quiet(s, Next(s, step))
  {
    match step
    case StepReserve(lag, appNow, actor, key, quantity, ttl) =>
      ReserveQuiet(Behind(s, lag), appNow, actor, key, quantity, ttl);
    case StepCommitRelease(pid) => ReleaseSilent(s, pid);
    case StepReconcile(lag, key) =>
    case StepSweep(lag, claim) => if IsClaim(Behind(s, lag), claim) { SweepQuiet(Behind(s, lag), claim); }
    case StepIssue(_, _, _) =>
    case _ => OrderSideQuiet(s, step);
  }

  lemma QuietStepOrders(s: Tables, step: Step, i: nat)
    requires Linked(s) && !step.StepIssue? && i < |Next(s, step).orders|
    ensures var o := Next(s, step).orders[i];
            && (i < |s.orders| ==> o == s.orders[i].(status := o.status))
            && (i >= |s.orders| && o.reservationId.Some? ==>
                  var rid := o.reservationId.value;
                  && rid < |s.reservations|
                  && o.eventId == s.reservations[rid].key.eventId
                  && o.userId == s.reservations[rid].ownerUserId)
  {
  }

  lemma QuietStepLinked(s: Tables, step: Step)
    requires Linked(s) && !step.StepIssue?
    ensures Linked(Next(s, step))
  {
    QuietStep(s, step);
    var s' := Next(s, step);
    forall i | 0 <= i < |s'.reservations| ensures s'.reservations[i].key in s'.buckets {
      if i < |s.reservations| { assert s.reservations[i].key in s.buckets; }
    }
    forall i | 0 <= i < |s'.orders| && s'.orders[i].reservationId.Some?
      ensures var rid := s'.orders[i].reservationId.value;
              && rid < |s'.reservations|
              && s'.orders[i].eventId == s'.reservations[rid].key.eventId
              && s'.orders[i].userId == s'.reservations[rid].ownerUserId
    {
      QuietStepOrders(s, step, i);
    }
  }

  /******* The step that issues *******/

  lemma NewTicketsTotal(o: Order, orderId: nat, r: Reservation, refs: seq<TicketRef>, key: BucketKey)
    requires o.eventId == r.key.eventId
    ensures Total(NewTickets(o, orderId, r, refs), TicketWeight(key)) == if key == r.key then |refs| else 0
  {
    if |refs| != 0 {
      var n := |refs| - 1;
      NewTicketsTotal(o, orderId, r, refs[..n], key);
      assert NewTickets(o, orderId, r, refs)[..n] == NewTickets(o, orderId, r, refs[..n]);
    }
  }

  lemma IssueConserves(s: Tables, orderId: nat, refs: seq<TicketRef>, key: BucketKey)
    requires Linked(s) && Conserved(s) && Issue(s, orderId, refs).1.Ok? && key in s.buckets
    ensures var s' := Issue(s, orderId, refs).0;
            && key in s'.buckets
            && s'.buckets[key].soldCount == Total(s'.reservations, ConsumedWeight(key))
            && s'.buckets[key].soldCount == Total(s'.tickets, TicketWeight(key))
  {
    var (s', out) := Issue(s, orderId, refs);
    var rid := out.value;
    var o, r := s.orders[orderId], s.reservations[rid];
    TotalUpdate(s.reservations, rid, r.(status := Consumed), ConsumedWeight(key));
    TotalConcat(s.tickets, NewTickets(o, orderId, r, refs), TicketWeight(key));
    NewTicketsTotal(o, orderId, r, refs, key);
  }

  lemma IssueOnce(s: Tables, orderId: nat, refs: seq<TicketRef>)
    requires IssuedOnce(s)
    ensures IssuedOnce(Issue(s, orderId, refs).0)
  {
    var (s', out) := Issue(s, orderId, refs);
    if out.Ok? {
      var a := s'.audits[|s.audits|];
      forall id: nat
        ensures Total(s'.audits, IssuedWeight(id))
                == if id < |s'.reservations| && s'.reservations[id].status == Consumed then 1 else 0
      {
        TotalAppend(s.audits, a, IssuedWeight(id));
      }
    }
  }

  lemma IssueKeepsLinked(s: Tables, orderId: nat, refs: seq<TicketRef>)
    requires Linked(s)
    ensures Linked(Issue(s, orderId, refs).0)
  {
  }

  lemma IssueKeepsInv(s: Tables, orderId: nat, refs: seq<TicketRef>)
    requires Inv(s)
    ensures Inv(Issue(s, orderId, refs).0)
  {
    var (s', out) := Issue(s, orderId, refs);
    IssueKeepsLinked(s, orderId, refs);
    if out.Ok? {
      forall k | k in s'.buckets
        ensures s'.buckets[k].soldCount == Total(s'.reservations, ConsumedWeight(k))
        ensures s'.buckets[k].soldCount == Total(s'.tickets, TicketWeight(k))
      {
        IssueConserves(s, orderId, refs, k);
      }
      IssueOnce(s, orderId, refs);
    }
  }

  lemma SilentKeepsCore(s: Tables, s': Tables)
    requires SoldIsTickets(s) && IssuedAtMostOnce(s) && Silent(s, s')
    ensures SoldIsTickets(s') && IssuedAtMostOnce(s')
  {
    forall id: nat
      ensures Total(s'.audits, IssuedWeight(id)) == Total(s.audits, IssuedWeight(id))
    {
      IssuedTotalKept(s.audits, s'.audits, id);
    }
  }

  lemma IssueKeepsSold(s: Tables, orderId: nat, refs: seq<TicketRef>)
    requires Linked(s) && SoldIsTickets(s)
    ensures SoldIsTickets(Issue(s, orderId, refs).0)
  {
    var (s', out) := Issue(s, orderId, refs);
    if out.Ok? {
      var o, r := s.orders[orderId], s.reservations[out.value];
      forall k | k in s'.buckets ensures s'.buckets[k].soldCount == Total(s'.tickets, TicketWeight(k)) {
        TotalConcat(s.tickets, NewTickets(o, orderId, r, refs), TicketWeight(k));
        NewTicketsTotal(o, orderId, r, refs, k);
      }
    }
  }

  lemma IssueCounted(s: Tables, orderId: nat, refs: seq<TicketRef>, id: nat)
    requires Issue(s, orderId, refs).1.Ok?
    ensures var (s', out) := Issue(s, orderId, refs);
            Total(s'.audits, IssuedWeight(id)) == Total(s.audits, IssuedWeight(id)) + if id == out.value then 1 else 0
  {
    var s' := Issue(s, orderId, refs).0;
    TotalAppend(s.audits, s'.audits[|s.audits|], IssuedWeight(id));
  }

  lemma IssueKeepsOnce(s: Tables, orderId: nat, refs: seq<TicketRef>)
    requires IssuedAtMostOnce(s)
    ensures IssuedAtMostOnce(Issue(s, orderId, refs).0)
  {
    var (s', out) := Issue(s, orderId, refs);
    if out.Ok? {
      var rows' := SetStatus(s.reservations, out.value, Consumed);
      assert s'.reservations == rows' && s.reservations[out.value].status == Held;
      forall id: nat
        ensures Total(s'.audits, IssuedWeight(id))
                == Total(s.audits, IssuedWeight(id)) + if id == out.value then 1 else 0
      {
        IssueCounted(s, orderId, refs, id);
      }
    }
  }

  lemma IssueKeepsCore(s: Tables, orderId: nat, refs: seq<TicketRef>)
    requires Core(s)
    ensures Core(Issue(s, orderId, refs).0)
  {
    IssueKeepsLinked(s, orderId, refs);
    IssueKeepsSold(s, orderId, refs);
    IssueKeepsOnce(s, orderId, refs);
  }

  lemma StepKeepsCore(s: Tables, step: Step)
    requires Core(s)
    ensures Core(Next(s, step))
  {
    if step.StepIssue? {
      IssueKeepsCore(Behind(s, step.lag), step.orderId, step.refs);
    } else {
      QuietStep(s, step);
      SilentKeepsCore(s, Next(s, step));
      QuietStepLinked(s, step);
    }
  }

  // In every run, whatever releases interleave: per bucket sold is the number of
  // tickets, and each reservation is issued at most once.
  lemma {:induction false} NeverIssuedTwice(s: Tables, steps: seq<Step>)
    requires Initial(s)
    ensures Core(Run(s, steps))
  {
    if |steps| == 0 {
      forall id: nat ensures Total(s.audits, IssuedWeight(id)) == 0 { }
    } else {
      NeverIssuedTwice(s, steps[..|steps| - 1]);
      StepKeepsCore(Run(s, steps[..|steps| - 1]), steps[|steps| - 1]);
    }
  }

  lemma ConsumedOverwritten(s: Tables, pid: nat)
    requires IssuedOnce(s) && !ClearCommit(s, StepCommitRelease(pid))
    ensures !IssuedOnce(CommitRelease(s, pid).0)
  {
    var s', id := CommitRelease(s, pid).0, s.releases[pid].id;
    assert Total(s'.audits, IssuedWeight(id)) == 1 && s'.reservations[id].status == Expired;
  }

  // Conservation does not look at the clock.
  lemma SameRowsInv(s: Tables, now: int)
    ensures Inv(AtClock(s, now)) <==> Inv(s)
  {
  }

  lemma IssueStepKeepsInv(s: Tables, lag: nat, orderId: nat, refs: seq<TicketRef>)
    requires Inv(s)
    ensures Inv(Next(s, StepIssue(lag, orderId, refs)))
  {
    SameRowsInv(s, s.now - lag);
    IssueKeepsInv(Behind(s, lag), orderId, refs);
    SameRowsInv(Issue(Behind(s, lag), orderId, refs).0, s.now);
  }

  lemma ClearStepKeepsInv(s: Tables, step: Step)
    requires Inv(s) && !step.StepIssue? && ClearCommit(s, step)
    ensures Inv(Next(s, step))
  {
    QuietStep(s, step);
    QuietStepKeepsCounts(s, Next(s, step));
    QuietStepLinked(s, step);
  }

  // Conservation survives a step if and only if it is no release commit on a row
  // that an issuance has consumed since the release read it.
  lemma StepKeepsInvIff(s: Tables, step: Step)
    requires Inv(s)
    ensures Inv(Next(s, step)) <==> ClearCommit(s, step)
  {
    if step.StepIssue? {
      IssueStepKeepsInv(s, step.lag, step.orderId, step.refs);
    } else if ClearCommit(s, step) {
      ClearStepKeepsInv(s, step);
    } else {
      ConsumedOverwritten(s, step.pid);
    }
  }

  // Conserved at every point of the run.
  ghost predicate AlwaysConserved(s: Tables, steps: seq<Step>) {
    Inv(Run(s, steps)) && (|steps| > 0 ==> AlwaysConserved(s, steps[..|steps| - 1]))
  }

  ghost predicate CommitsClear(s: Tables, steps: seq<Step>) {
    |steps| > 0 ==>
      && CommitsClear(s, steps[..|steps| - 1])
      && ClearCommit(Run(s, steps[..|steps| - 1]), steps[|steps| - 1])
  }

  // For every run from an empty store: in every bucket, at every point, sold =
  // quantity of CONSUMED reservations = tickets, and a reservation is issued once
  // if consumed and never otherwise, if and only if no release ever commits on a
  // consumed row.
  lemma {:induction false} TicketsConservedIff(s: Tables, steps: seq<Step>)
    requires Initial(s)
    ensures AlwaysConserved(s, steps) <==> CommitsClear(s, steps)
  {
    if |steps| == 0 {
      forall id: nat ensures Total(s.audits, IssuedWeight(id)) == 0 { }
    } else {
      var front := steps[..|steps| - 1];
      TicketsConservedIff(s, front);
      if AlwaysConserved(s, front) { StepKeepsInvIff(Run(s, front), steps[|steps| - 1]); }
    }
  }

  /******* Consumed rows *******/

  // A release commit that writes this row.
  predicate Overwrites(s: Tables, step: Step, id: nat) {
    step.StepCommitRelease? && CommitRelease(s, step.pid).1 == Ok(true) && s.releases[step.pid].id == id
  }

  lemma ConsumedRowKeptIff(s: Tables, step: Step, id: nat)
    requires id < |s.reservations| && s.reservations[id].status == Consumed
    ensures id < |Next(s, step).reservations|
    ensures Next(s, step).reservations[id] == s.reservations[id] <==> !Overwrites(s, step, id)
  {
    if !step.StepIssue? {
      QuietStep(s, step);
    }
  }

  ghost predicate RowKept(s: Tables, steps: seq<Step>, id: nat)
    requires id < |s.reservations|
  {
    && id < |Run(s, steps).reservations| && Run(s, steps).reservations[id] == s.reservations[id]
    && (|steps| > 0 ==> RowKept(s, steps[..|steps| - 1], id))
  }

  ghost predicate NeverOverwritten(s: Tables, steps: seq<Step>, id: nat) {
    |steps| > 0 ==>
      && NeverOverwritten(s, steps[..|steps| - 1], id)
      && !Overwrites(Run(s, steps[..|steps| - 1]), steps[|steps| - 1], id)
  }

  // A consumed row stays as it is through a whole run if and only if no release
  // commits on it.
  lemma {:induction false} ConsumedForeverIff(s: Tables, steps: seq<Step>, id: nat)
    requires id < |s.reservations| && s.reservations[id].status == Consumed
    ensures RowKept(s, steps, id) <==> NeverOverwritten(s, steps, id)
  {
    if |steps| != 0 {
      var front := steps[..|steps| - 1];
      ConsumedForeverIff(s, front, id);
      if RowKept(s, front, id) { ConsumedRowKeptIff(Run(s, front), steps[|steps| - 1], id); }
    }
  }

  /******* The five attempts of the reference allocator *******/

  const MAX_ATTEMPTS := 5

  // What the database does to one attempt besides the transaction's own logic.
  datatype Fault = NoFault | KnownRequestError | OtherFault

  predicate Retried(f: Fault, outcome: Result<nat>) {
    f.KnownRequestError? || (f.NoFault? && outcome == Err(UniqueViolation))
  }

  function Batch(count: nat, gen: (nat, nat) -> TicketRef, attempt: nat): (refs: seq<TicketRef>)
    ensures |refs| == count
  {
    seq(count, i requires 0 <= i < count => gen(attempt, i))
  }

  // The store as attempt k finds it, when s is the store before attempt `from` and
  // others(j) is what other requests commit just before attempt j.
  function Found(s: Tables, others: nat -> seq<Step>, from: nat, k: nat): Tables
    decreases k - from
  {
    var t := Run(s, others(from));
    if k <= from then t else Found(t, others, from + 1, k)
  }

  // What one attempt does to the store it finds.
  type Writer = (Tables, nat) -> (Tables, Result<nat>)

  // The attempts from the given one on.
  function Attempts(s: Tables, writer: Writer, faults: nat -> Fault, others: nat -> seq<Step>, attempt: nat)
    : (Tables, Result<nat>)
    requires attempt <= MAX_ATTEMPTS
    decreases MAX_ATTEMPTS - attempt
  {
    if attempt == MAX_ATTEMPTS then (s, Err(AllocationFailed))
    else
      var t := Run(s, others(attempt));
      var out := writer(t, attempt);
      if Retried(faults(attempt), out.1) then Attempts(t, writer, faults, others, attempt + 1)
      else if faults(attempt).OtherFault? then (t, Err(DatabaseError))
      else out
  }

  function IssueWriter(orderId: nat, count: nat, gen: (nat, nat) -> TicketRef): Writer {
    (t: Tables, attempt: nat) => Issue(t, orderId, Batch(count, gen, attempt))
  }

  // The quantity is read first, in a transaction of its own.
  function ExecuteIssue(
    s: Tables, orderId: nat, gen: (nat, nat) -> TicketRef, faults: nat -> Fault, others: nat -> seq<Step>)
    : (Tables, Result<nat>)
  {
    match LoadValidated(s, orderId)
    case Err(e) => (s, Err(e))
    case Ok(rid) => Attempts(s, IssueWriter(orderId, s.reservations[rid].quantity, gen), faults, others, 0)
  }

  // The attempts from `from` on, up to k, were all retried.
  ghost predicate RetriedBefore(
    s: Tables, writer: Writer, faults: nat -> Fault, others: nat -> seq<Step>, from: nat, k: nat)
    decreases k - from
  {
    from < k ==>
      var t := Run(s, others(from));
      Retried(faults(from), writer(t, from).1) && RetriedBefore(t, writer, faults, others, from + 1, k)
  }

  lemma {:induction false} AttemptsStopAtFirst(
    s: Tables, writer: Writer, faults: nat -> Fault, others: nat -> seq<Step>, from: nat)
    returns (k: nat)
    requires from < MAX_ATTEMPTS
    ensures from <= k <= MAX_ATTEMPTS && RetriedBefore(s, writer, faults, others, from, k)
    ensures k == MAX_ATTEMPTS ==>
              Attempts(s, writer, faults, others, from)
              == (Found(s, others, from, MAX_ATTEMPTS - 1), Err(AllocationFailed))
    ensures k < MAX_ATTEMPTS ==>
              var t := Found(s, others, from, k);
              var out := writer(t, k);
              && !Retried(faults(k), out.1)
              && Attempts(s, writer, faults, others, from)
                 == if faults(k).OtherFault? then (t, Err(DatabaseError)) else out
    decreases MAX_ATTEMPTS - from
  {
    var t := Run(s, others(from));
    if !Retried(faults(from), writer(t, from).1) {
      k := from;
    } else if from + 1 == MAX_ATTEMPTS {
      k := MAX_ATTEMPTS;
    } else {
      k := AttemptsStopAtFirst(t, writer, faults, others, from + 1);
    }
  }

  lemma IssueErrKeepsStore(s: Tables, orderId: nat, refs: seq<TicketRef>)
    ensures Issue(s, orderId, refs).1.Err? ==> Issue(s, orderId, refs).0 == s
  {
  }

  // Whatever other requests commit before and between the attempts, the call
  // issues one complete batch, as many tickets as it read and the reservation
  // holds, with references of one attempt, or adds nothing to what the others did.
  lemma WholeBatchOrNothing(
    s: Tables, orderId: nat, gen: (nat, nat) -> TicketRef, faults: nat -> Fault, others: nat -> seq<Step>)
    returns (k: nat)
    ensures k < MAX_ATTEMPTS
    ensures LoadValidated(s, orderId).Err? ==>
              ExecuteIssue(s, orderId, gen, faults, others) == (s, LoadValidated(s, orderId))
    ensures LoadValidated(s, orderId).Ok? ==>
            var (s', out) := ExecuteIssue(s, orderId, gen, faults, others);
            var t := Found(s, others, 0, k);
            var count := s.reservations[LoadValidated(s, orderId).value].quantity;
            if out.Ok?
            then && (s', out) == Issue(t, orderId, Batch(count, gen, k))
                 && out.value < |t.reservations| && t.reservations[out.value].quantity == count
                 && |s'.tickets| == |t.tickets| + count
            else s' == t
  {
    if LoadValidated(s, orderId).Err? {
      return 0;
    }
    var count := s.reservations[LoadValidated(s, orderId).value].quantity;
    var stop := AttemptsStopAtFirst(s, IssueWriter(orderId, count, gen), faults, others, 0);
    k := if stop == MAX_ATTEMPTS then MAX_ATTEMPTS - 1 else stop;
    IssueErrKeepsStore(Found(s, others, 0, k), orderId, Batch(count, gen, k));
  }

  // It gives up exactly when all five attempts were retried.
  lemma GivesUpAfterFive(
    s: Tables, orderId: nat, gen: (nat, nat) -> TicketRef, faults: nat -> Fault, others: nat -> seq<Step>)
    ensures ExecuteIssue(s, orderId, gen, faults, others).1 == Err(AllocationFailed)
            <==> LoadValidated(s, orderId).Ok?
                 && var count := s.reservations[LoadValidated(s, orderId).value].quantity;
                    RetriedBefore(s, IssueWriter(orderId, count, gen), faults, others, 0, MAX_ATTEMPTS)
  {
    if LoadValidated(s, orderId).Err? {
      return;
    }
    var count := s.reservations[LoadValidated(s, orderId).value].quantity;
    var k := AttemptsStopAtFirst(s, IssueWriter(orderId, count, gen), faults, others, 0);
    if k < MAX_ATTEMPTS {
      assert Issue(Found(s, others, 0, k), orderId, Batch(count, gen, k)).1 != Err(AllocationFailed);
    }
  }
}
