// The cached reservedCount against the live sum it stands for.
module Inventory {
  import opened Totals
  import opened Store
  import opened Wrappers

  /******* The live sum *******/

  lemma LiveSumAntitone(rows: seq<Reservation>, key: BucketKey, t: int, u: int)
    requires t <= u
    ensures 0 <= LiveSum(rows, key, u) <= LiveSum(rows, key, t)
  {
    TotalMono(rows, rows, LiveWeight(key, u), LiveWeight(key, t));
    TotalNonNegative(rows, LiveWeight(key, u));
  }

  lemma LiveSumAppend(rows: seq<Reservation>, r: Reservation, key: BucketKey, t: int)
    ensures LiveSum(rows + [r], key, t) == LiveSum(rows, key, t) + LiveWeight(key, t)(r)
  {
    TotalAppend(rows, r, LiveWeight(key, t));
  }

  lemma LiveSumSetStatus(rows: seq<Reservation>, id: nat, status: ReservationStatus, key: BucketKey, t: int)
    requires id < |rows| && status != Held
    ensures LiveSum(SetStatus(rows, id, status), key, t) == LiveSum(rows, key, t) - LiveWeight(key, t)(rows[id])
  {
    TotalUpdate(rows, id, rows[id].(status := status), LiveWeight(key, t));
  }

  // Expiring rows that are already stale changes no live sum, now or later.
  lemma LiveSumExpire(rows: seq<Reservation>, ids: seq<nat>, key: BucketKey, t: int)
    requires forall i :: 0 <= i < |ids| ==> ids[i] < |rows| && Stale(rows[ids[i]], t)
    ensures LiveSum(Expire(rows, ids), key, t) == LiveSum(rows, key, t)
  {
    forall i | 0 <= i < |rows|
      ensures LiveWeight(key, t)(Expire(rows, ids)[i]) == LiveWeight(key, t)(rows[i])
    {
      if i in ids {
        var j :| 0 <= j < |ids| && ids[j] == i;
        assert Stale(rows[ids[j]], t);
      }
    }
    TotalSame(Expire(rows, ids), rows, LiveWeight(key, t), LiveWeight(key, t));
  }

  /******* The cached shortcut *******/

  // With a cache that does not undercount, whatever the code accepts the live
  // sum accepts too, and requests within the threshold get the same answer.
  lemma CachedShortcutRefinesLiveSum(b: Bucket, live: int, quantity: int)
    requires b.reservedCount >= live
    ensures Accepts(b, live, quantity) ==> quantity <= b.capacityTotal - live - b.soldCount
    ensures quantity <= TightThreshold(b.capacityTotal) ==>
              (Accepts(b, live, quantity) <==> quantity <= b.capacityTotal - live - b.soldCount)
  {
    if quantity <= TightThreshold(b.capacityTotal) && !IsTight(b) {
      assert quantity <= b.capacityTotal - b.reservedCount - b.soldCount;
    }
  }

  // The exact requests on which the two decisions differ.
  lemma ShortcutDisagreesExactly(b: Bucket, live: int, quantity: int)
    requires b.reservedCount >= live
    ensures Accepts(b, live, quantity) != (quantity <= b.capacityTotal - live - b.soldCount)
       <==> b.capacityTotal - b.reservedCount - b.soldCount > TightThreshold(b.capacityTotal)
            && b.capacityTotal - b.reservedCount - b.soldCount < quantity <= b.capacityTotal - live - b.soldCount
  {
    assert !IsTight(b) ==> AuthoritativeReserved(b, live) == b.reservedCount;
  }

  /******* The cache over-approximates *******/

  ghost predicate CacheCovers(s: Tables) {
    forall k :: k in s.buckets ==> s.buckets[k].reservedCount >= LiveSum(s.reservations, k, s.now)
  }

  lemma CacheCoversFuture(s: Tables, key: BucketKey, t: int)
    requires CacheCovers(s) && key in s.buckets && s.now <= t
    ensures s.buckets[key].reservedCount >= LiveSum(s.reservations, key, t)
  {
    LiveSumAntitone(s.reservations, key, s.now, t);
  }

  // Nor does a sum on an earlier clock undercount.
  lemma BehindCounts(s: Tables, lag: nat, key: BucketKey)
    ensures LiveSum(s.reservations, key, s.now) <= LiveSum(s.reservations, key, Behind(s, lag).now)
  {
    LiveSumAntitone(s.reservations, key, s.now - lag, s.now);
  }

  lemma ReserveKeepsCover(
    s: Tables, lag: nat, appNow: int, actor: nat, key: BucketKey, quantity: int, ttl: int)
    requires CacheCovers(s)
    ensures CacheCovers(Next(s, StepReserve(lag, appNow, actor, key, quantity, ttl)))
  {
    var s' := Next(s, StepReserve(lag, appNow, actor, key, quantity, ttl));
    if |s'.reservations| > |s.reservations| {
      var row := s'.reservations[|s.reservations|];
      assert s'.reservations == s.reservations + [row];
      BehindCounts(s, lag, key);
      forall k | k in s'.buckets
        ensures s'.buckets[k].reservedCount >= LiveSum(s'.reservations, k, s'.now)
      {
        LiveSumAppend(s.reservations, row, k, s.now);
      }
    }
  }

  // A pending release began in the past and knows the bucket of its row.
  ghost predicate ReleasesOk(s: Tables) {
    forall pid :: pid in s.releases ==>
      var p := s.releases[pid];
      p.began <= s.now && p.id < |s.reservations| && s.reservations[p.id].key == p.key
  }

  lemma ReleaseKeepsCover(s: Tables, pid: nat)
    requires CacheCovers(s) && ReleasesOk(s)
    ensures CacheCovers(CommitRelease(s, pid).0)
  {
    var (s', r) := CommitRelease(s, pid);
    if r == Ok(true) {
      var p := s.releases[pid];
      LiveSumAntitone(s.reservations, p.key, p.began, s.now);
      forall k | k in s'.buckets
        ensures s'.buckets[k].reservedCount >= LiveSum(s'.reservations, k, s'.now)
      {
        LiveSumSetStatus(s.reservations, p.id, Expired, k, s.now);
      }
    }
  }

  // Release counts before it expires the row, on the clock its transaction began
  // with. The count is exact at commit iff every row it counted is still live and
  // is not the row it expires.
  lemma ReleaseExactIff(s: Tables, pid: nat)
    requires ReleasesOk(s) && CommitRelease(s, pid).1 == Ok(true)
    ensures var s' := CommitRelease(s, pid).0; var p := s.releases[pid];
            p.key in s'.buckets
            && (s'.buckets[p.key].reservedCount == LiveSum(s'.reservations, p.key, s'.now)
                <==> forall i :: 0 <= i < |s.reservations| && LiveWeight(p.key, p.began)(s.reservations[i]) > 0 ==>
                       i != p.id && s.reservations[i].expiresAt > s.now)
  {
    var p := s.releases[pid];
    var rows' := SetStatus(s.reservations, p.id, Expired);
    TotalEqualIff(rows', s.reservations, LiveWeight(p.key, s.now), LiveWeight(p.key, p.began));
  }

  lemma ReconcileExact(s: Tables, key: BucketKey)
    requires key in s.buckets
    ensures var s' := Reconcile(s, key).0;
            && s'.buckets[key].reservedCount == LiveSum(s'.reservations, key, s'.now)
            && (CacheCovers(s) ==> CacheCovers(s'))
            && (Reconcile(s, key).1 == Ok(false) <==> s' == s)
  {
    var s' := Reconcile(s, key).0;
    if Reconcile(s, key).1 == Ok(false) {
      assert s'.buckets == s.buckets;
    } else {
      assert s'.buckets[key] != s.buckets[key];
    }
  }

  // However often one batch hits a bucket, its cache is exact afterwards, and
  // no other bucket is touched.
  lemma SweepExact(s: Tables, claim: seq<nat>, key: BucketKey)
    requires IsClaim(s, claim) && Sweep(s, claim).1.Ok? && key in s.buckets
    ensures var s' := Sweep(s, claim).0;
            && key in s'.buckets
            && LiveSum(s'.reservations, key, s.now) == LiveSum(s.reservations, key, s.now)
            && s'.buckets[key].soldCount == s.buckets[key].soldCount
            && (if Touches(s.reservations, claim, key)
                then s'.buckets[key].reservedCount == LiveSum(s'.reservations, key, s'.now)
                else s'.buckets[key] == s.buckets[key])
  {
    LiveSumExpire(s.reservations, claim, key, s.now);
  }

  // Rows stale on an earlier clock are stale.
  lemma ClaimStaysStale(s: Tables, lag: nat, claim: seq<nat>)
    requires IsClaim(Behind(s, lag), claim)
    ensures IsClaim(s, claim)
  {
  }

  lemma SweepKeepsCover(s: Tables, lag: nat, claim: seq<nat>)
    requires CacheCovers(s) && IsClaim(Behind(s, lag), claim)
    ensures CacheCovers(Next(s, StepSweep(lag, claim)))
  {
    var b := Behind(s, lag);
    var (t, r) := Sweep(b, claim);
    if r.Ok? {
      ClaimStaysStale(s, lag, claim);
      forall k | k in t.buckets ensures t.buckets[k].reservedCount >= LiveSum(t.reservations, k, s.now) {
        SweepExact(b, claim, k);
        LiveSumExpire(s.reservations, claim, k, s.now);
        LiveSumAntitone(t.reservations, k, b.now, s.now);
      }
    }
  }

  lemma IssueExact(s: Tables, orderId: nat, refs: seq<TicketRef>)
    requires Issue(s, orderId, refs).1.Ok?
    ensures var (s', r) := Issue(s, orderId, refs);
            var key := s.reservations[r.value].key;
            && key in s'.buckets && key in s.buckets
            && s'.buckets[key].reservedCount == LiveSum(s'.reservations, key, s'.now)
            && s'.buckets[key].soldCount == s.buckets[key].soldCount + s.reservations[r.value].quantity
            && forall k :: k in s.buckets && k != key ==> k in s'.buckets && s'.buckets[k] == s.buckets[k]
  {
  }

  lemma IssueKeepsCover(s: Tables, lag: nat, orderId: nat, refs: seq<TicketRef>)
    requires CacheCovers(s)
    ensures CacheCovers(Next(s, StepIssue(lag, orderId, refs)))
  {
    var b := Behind(s, lag);
    var (t, r) := Issue(b, orderId, refs);
    if r.Ok? {
      IssueExact(b, orderId, refs);
      forall k | k in t.buckets ensures t.buckets[k].reservedCount >= LiveSum(t.reservations, k, s.now) {
        LiveSumSetStatus(s.reservations, r.value, Consumed, k, s.now);
        LiveSumAntitone(t.reservations, k, b.now, s.now);
      }
    }
  }

  lemma ReconcileKeepsCover(s: Tables, lag: nat, key: BucketKey)
    requires CacheCovers(s)
    ensures CacheCovers(Next(s, StepReconcile(lag, key)))
  {
    BehindCounts(s, lag, key);
  }

  // Every row counted on an earlier clock is still live.
  predicate StillLive(rows: seq<Reservation>, key: BucketKey, began: int, now: int) {
    forall i :: 0 <= i < |rows| && LiveWeight(key, began)(rows[i]) > 0 ==> rows[i].expiresAt > now
  }

  lemma CountExactIff(rows: seq<Reservation>, key: BucketKey, began: int, now: int)
    requires began <= now
    ensures LiveSum(rows, key, began) == LiveSum(rows, key, now) <==> StillLive(rows, key, began, now)
  {
    TotalEqualIff(rows, rows, LiveWeight(key, now), LiveWeight(key, began));
  }

  // The bucket a step counted, if it counted one.
  predicate Counts(s: Tables, step: Step, key: BucketKey) {
    match step
    case StepReconcile(_, k) => k == key && key in s.buckets
    case StepSweep(lag, claim) =>
      key in s.buckets && IsClaim(Behind(s, lag), claim) && Sweep(Behind(s, lag), claim).1.Ok?
      && Touches(s.reservations, claim, key)
    case StepIssue(lag, orderId, refs) =>
      var r := Issue(Behind(s, lag), orderId, refs).1;
      r.Ok? && r.value < |s.reservations| && s.reservations[r.value].key == key
    case _ => false
  }

  // After a reconciliation, a whole sweep or an issuance the cache of every bucket
  // it counted is exact if and only if no row counted has lapsed since it began.
  lemma CountedExactIff(s: Tables, step: Step, key: BucketKey)
    requires Counts(s, step, key)
    ensures var s' := Next(s, step);
            key in s'.buckets
            && (s'.buckets[key].reservedCount == LiveSum(s'.reservations, key, s'.now)
                <==> StillLive(s'.reservations, key, s.now - step.lag, s'.now))
  {
    var b, s' := Behind(s, step.lag), Next(s, step);
    match step {
      case StepReconcile(_, _) => ReconcileExact(b, key);
      case StepSweep(_, claim) => SweepExact(b, claim, key);
      case StepIssue(_, orderId, refs) => IssueExact(b, orderId, refs);
    }
    CountExactIff(s'.reservations, key, b.now, s.now);
  }

  // Rows keep their bucket.
  ghost predicate KeepsKeys(rows: seq<Reservation>, rows': seq<Reservation>) {
    |rows| <= |rows'| && forall i :: 0 <= i < |rows| ==> rows'[i].key == rows[i].key
  }

  lemma ReserveKeepsKeys(s: Tables, appNow: int, actor: nat, key: BucketKey, quantity: int, ttl: int)
    ensures KeepsKeys(s.reservations, Reserve(s, appNow, actor, key, quantity, ttl).0.reservations)
  {
  }

  lemma SweepKeepsKeys(s: Tables, claim: seq<nat>)
    ensures KeepsKeys(s.reservations, Sweep(s, claim).0.reservations)
  {
  }

  lemma IssueKeepsKeys(s: Tables, orderId: nat, refs: seq<TicketRef>)
    ensures KeepsKeys(s.reservations, Issue(s, orderId, refs).0.reservations)
  {
  }

  lemma StepKeepsKeys(s: Tables, step: Step)
    ensures KeepsKeys(s.reservations, Next(s, step).reservations)
  {
    match step
    case StepReserve(lag, appNow, actor, key, quantity, ttl) =>
      ReserveKeepsKeys(Behind(s, lag), appNow, actor, key, quantity, ttl);
    case StepSweep(lag, claim) => SweepKeepsKeys(Behind(s, lag), claim);
    case StepIssue(lag, orderId, refs) => IssueKeepsKeys(Behind(s, lag), orderId, refs);
    case StepCommitRelease(pid) =>
    case _ => assert Next(s, step).reservations == s.reservations;
  }

  // No release begins but by the step that begins one.
  lemma StepBeginsOneRelease(s: Tables, step: Step)
    ensures var s' := Next(s, step);
            && s.now <= s'.now
            && (forall pid :: pid in s'.releases ==>
                  (pid in s.releases && s'.releases[pid] == s.releases[pid])
                  || (step.StepBeginRelease? && pid == step.pid))
  {
  }

  lemma StepKeepsReleases(s: Tables, step: Step)
    requires ReleasesOk(s)
    ensures ReleasesOk(Next(s, step))
  {
    StepKeepsKeys(s, step);
    StepBeginsOneRelease(s, step);
  }

  lemma StepKeepsCover(s: Tables, step: Step)
    requires CacheCovers(s) && ReleasesOk(s)
    ensures CacheCovers(Next(s, step)) && ReleasesOk(Next(s, step))
  {
    StepKeepsReleases(s, step);
    match step
    case StepReserve(lag, appNow, actor, key, quantity, ttl) =>
      ReserveKeepsCover(s, lag, appNow, actor, key, quantity, ttl);
    case StepCommitRelease(pid) => ReleaseKeepsCover(s, pid);
    case StepReconcile(lag, key) => ReconcileKeepsCover(s, lag, key);
    case StepSweep(lag, claim) => if IsClaim(Behind(s, lag), claim) { SweepKeepsCover(s, lag, claim); }
    case StepIssue(lag, orderId, refs) => IssueKeepsCover(s, lag, orderId, refs);
    case StepAdvance(elapsed) =>
      forall k | k in s.buckets
        ensures s.buckets[k].reservedCount >= LiveSum(s.reservations, k, s.now + elapsed)
      {
        CacheCoversFuture(s, k, s.now + elapsed);
      }
    case _ =>
  }

  // In every reachable state, at that state's time and every later time, the
  // cache is at least the live sum.
  lemma {:induction false} CacheAlwaysCovers(s: Tables, steps: seq<Step>)
    requires Initial(s)
    ensures CacheCovers(Run(s, steps)) && ReleasesOk(Run(s, steps))
    ensures forall k, t :: k in Run(s, steps).buckets && Run(s, steps).now <= t ==>
              Run(s, steps).buckets[k].reservedCount >= LiveSum(Run(s, steps).reservations, k, t)
  {
    if |steps| != 0 {
      CacheAlwaysCovers(s, steps[..|steps| - 1]);
      StepKeepsCover(Run(s, steps[..|steps| - 1]), steps[|steps| - 1]);
    }
    var e := Run(s, steps);
    forall k, t | k in e.buckets && e.now <= t
      ensures e.buckets[k].reservedCount >= LiveSum(e.reservations, k, t)
    {
      CacheCoversFuture(e, k, t);
    }
  }

  lemma RunAppend(s: Tables, steps: seq<Step>, step: Step)
    ensures Run(s, steps + [step]) == Next(Run(s, steps), step)
  {
    assert (steps + [step])[..|steps|] == steps;
  }

  /******* No oversell *******/

  ghost predicate WithinCapacity(s: Tables) {
    forall k :: k in s.buckets ==>
      s.buckets[k].soldCount + LiveSum(s.reservations, k, s.now) <= s.buckets[k].capacityTotal
  }

  // A step that issues is covered when its reservation is unexpired or the
  // bucket has room for it beside everything sold and live. Both are readable
  // before the call.
  predicate CoveredIssue(s: Tables, step: Step) {
    step.StepIssue? && Issue(s, step.orderId, step.refs).1.Ok? ==>
      var r := s.reservations[LoadValidated(s, step.orderId).value];
      r.expiresAt > s.now
      || r.quantity <= s.buckets[r.key].capacityTotal - s.buckets[r.key].soldCount
                       - LiveSum(s.reservations, r.key, s.now)
  }

  // Counting on an earlier clock only makes the decision stricter.
  lemma AcceptedFits(b: Bucket, counted: int, live: int, quantity: int)
    requires b.reservedCount >= live && counted >= live && Accepts(b, counted, quantity)
    ensures quantity <= b.capacityTotal - live - b.soldCount
  {
  }

  lemma ReserveWithinCapacity(
    s: Tables, lag: nat, appNow: int, actor: nat, key: BucketKey, quantity: int, ttl: int)
    requires CacheCovers(s) && WithinCapacity(s)
    ensures WithinCapacity(Next(s, StepReserve(lag, appNow, actor, key, quantity, ttl)))
  {
    var s' := Next(s, StepReserve(lag, appNow, actor, key, quantity, ttl));
    if |s'.reservations| > |s.reservations| {
      var row := s'.reservations[|s.reservations|];
      assert s'.reservations == s.reservations + [row];
      BehindCounts(s, lag, key);
      AcceptedFits(s.buckets[key], LiveSum(s.reservations, key, s.now - lag), LiveSum(s.reservations, key, s.now),
                   quantity);
      forall k | k in s'.buckets
        ensures s'.buckets[k].soldCount + LiveSum(s'.reservations, k, s'.now) <= s'.buckets[k].capacityTotal
      {
        LiveSumAppend(s.reservations, row, k, s.now);
      }
    }
  }

  lemma ReleaseWithinCapacity(s: Tables, pid: nat)
    requires WithinCapacity(s)
    ensures WithinCapacity(CommitRelease(s, pid).0)
  {
    var (s', r) := CommitRelease(s, pid);
    if r == Ok(true) {
      forall k | k in s'.buckets
        ensures s'.buckets[k].soldCount + LiveSum(s'.reservations, k, s'.now) <= s'.buckets[k].capacityTotal
      {
        LiveSumSetStatus(s.reservations, s.releases[pid].id, Expired, k, s.now);
      }
    }
  }

  lemma SweepWithinCapacity(s: Tables, lag: nat, claim: seq<nat>)
    requires WithinCapacity(s) && IsClaim(Behind(s, lag), claim)
    ensures WithinCapacity(Next(s, StepSweep(lag, claim)))
  {
    var (t, r) := Sweep(Behind(s, lag), claim);
    if r.Ok? {
      ClaimStaysStale(s, lag, claim);
      forall k | k in t.buckets
        ensures t.buckets[k].soldCount + LiveSum(t.reservations, k, s.now) <= t.buckets[k].capacityTotal
      {
        SweepExact(Behind(s, lag), claim, k);
        LiveSumExpire(s.reservations, claim, k, s.now);
      }
    }
  }

  // What an issuance on an earlier clock does to the sums of the present.
  lemma IssueSums(s: Tables, lag: nat, orderId: nat, refs: seq<TicketRef>, k: BucketKey)
    requires Issue(Behind(s, lag), orderId, refs).1.Ok? && k in s.buckets
    ensures var r := Issue(s, orderId, refs).1; var s' := Next(s, StepIssue(lag, orderId, refs));
            && r == Issue(Behind(s, lag), orderId, refs).1 && r.value < |s.reservations|
            && s'.buckets.Keys == s.buckets.Keys && s'.now == s.now
            && s'.buckets[k].capacityTotal == s.buckets[k].capacityTotal
            && s'.buckets[k].soldCount
               == s.buckets[k].soldCount
                  + (if s.reservations[r.value].key == k then s.reservations[r.value].quantity else 0)
            && LiveSum(s'.reservations, k, s.now)
               == LiveSum(s.reservations, k, s.now) - LiveWeight(k, s.now)(s.reservations[r.value])
  {
    LiveSumSetStatus(s.reservations, Issue(Behind(s, lag), orderId, refs).1.value, Consumed, k, s.now);
  }

  lemma IssueRefused(s: Tables, lag: nat, orderId: nat, refs: seq<TicketRef>)
    requires Issue(Behind(s, lag), orderId, refs).1.Err?
    ensures Issue(s, orderId, refs).1.Err? && Next(s, StepIssue(lag, orderId, refs)) == s
  {
  }

  lemma IssueWithinCapacityIff(s: Tables, lag: nat, orderId: nat, refs: seq<TicketRef>)
    requires WithinCapacity(s)
    ensures WithinCapacity(Next(s, StepIssue(lag, orderId, refs))) <==> CoveredIssue(s, StepIssue(lag, orderId, refs))
  {
    var r := Issue(Behind(s, lag), orderId, refs).1;
    if r.Ok? {
      var s', key := Next(s, StepIssue(lag, orderId, refs)), s.reservations[r.value].key;
      IssueSums(s, lag, orderId, refs, key);
      forall k | k in s.buckets && k != key
        ensures s'.buckets[k].soldCount + LiveSum(s'.reservations, k, s'.now) <= s'.buckets[k].capacityTotal
      {
        IssueSums(s, lag, orderId, refs, k);
      }
      assert WithinCapacity(s')
             <==> s'.buckets[key].soldCount + LiveSum(s'.reservations, key, s.now) <= s'.buckets[key].capacityTotal;
    } else {
      IssueRefused(s, lag, orderId, refs);
    }
  }

  lemma StepWithinCapacityIff(s: Tables, step: Step)
    requires CacheCovers(s) && ReleasesOk(s) && WithinCapacity(s)
    ensures WithinCapacity(Next(s, step)) <==> CoveredIssue(s, step)
  {
    match step
    case StepReserve(lag, appNow, actor, key, quantity, ttl) =>
      ReserveWithinCapacity(s, lag, appNow, actor, key, quantity, ttl);
    case StepCommitRelease(pid) => ReleaseWithinCapacity(s, pid);
    case StepSweep(lag, claim) => if IsClaim(Behind(s, lag), claim) { SweepWithinCapacity(s, lag, claim); }
    case StepIssue(lag, orderId, refs) => IssueWithinCapacityIff(s, lag, orderId, refs);
    case StepAdvance(elapsed) =>
      forall k | k in s.buckets
        ensures s.buckets[k].soldCount + LiveSum(s.reservations, k, s.now + elapsed) <= s.buckets[k].capacityTotal
      {
        LiveSumAntitone(s.reservations, k, s.now, s.now + elapsed);
      }
    case _ =>
  }

  // Every issuance along the run was covered when it ran.
  ghost predicate AllIssuesCovered(s: Tables, steps: seq<Step>) {
    forall i :: 0 <= i < |steps| ==> CoveredIssue(Run(s, steps[..i]), steps[i])
  }

  ghost predicate NeverOversold(s: Tables, steps: seq<Step>) {
    forall i :: 0 <= i <= |steps| ==> WithinCapacity(Run(s, steps[..i]))
  }

  lemma NeverOversoldSplit(s: Tables, front: seq<Step>, last: Step)
    ensures NeverOversold(s, front + [last])
            <==> NeverOversold(s, front) && WithinCapacity(Run(s, front + [last]))
  {
    var steps, n := front + [last], |front|;
    forall i | 0 <= i <= n ensures steps[..i] == front[..i] { }
    assert steps[..n + 1] == steps;
    if NeverOversold(s, steps) {
      forall i | 0 <= i <= n ensures WithinCapacity(Run(s, front[..i])) {
        assert WithinCapacity(Run(s, steps[..i]));
      }
      assert WithinCapacity(Run(s, steps[..n + 1]));
    }
  }

  lemma AllIssuesCoveredSplit(s: Tables, front: seq<Step>, last: Step)
    ensures AllIssuesCovered(s, front + [last]) <==> AllIssuesCovered(s, front) && CoveredIssue(Run(s, front), last)
  {
    var steps, n := front + [last], |front|;
    forall i | 0 <= i <= n ensures steps[..i] == front[..i] { }
    assert front[..n] == front && steps[n] == last;
    if AllIssuesCovered(s, steps) {
      forall i | 0 <= i < n ensures CoveredIssue(Run(s, front[..i]), front[i]) {
        assert CoveredIssue(Run(s, steps[..i]), steps[i]);
      }
      assert CoveredIssue(Run(s, steps[..n]), steps[n]);
    }
  }

  lemma NeverOversoldNow(s: Tables, steps: seq<Step>)
    requires NeverOversold(s, steps)
    ensures WithinCapacity(Run(s, steps))
  {
    assert steps[..|steps|] == steps;
  }

  // For every run from an empty store: sold plus live stays within capacity at
  // every point of the run exactly when every issuance was covered.
  lemma {:induction false} NoOversellIff(s: Tables, steps: seq<Step>)
    requires Initial(s)
    ensures NeverOversold(s, steps) <==> AllIssuesCovered(s, steps)
  {
    if |steps| == 0 {
      assert steps[..0] == [];
      forall k | k in s.buckets ensures LiveSum(s.reservations, k, s.now) == 0 { }
    } else {
      var front, last := steps[..|steps| - 1], steps[|steps| - 1];
      assert steps == front + [last];
      NoOversellIff(s, front);
      NeverOversoldSplit(s, front, last);
      AllIssuesCoveredSplit(s, front, last);
      RunAppend(s, front, last);
      if NeverOversold(s, front) {
        NeverOversoldNow(s, front);
        CacheAlwaysCovers(s, front);
        StepWithinCapacityIff(Run(s, front), last);
      }
    }
  }

  // In particular when every issuance happens before its reservation expires.
  lemma TimelyIssuesNeverOversell(s: Tables, steps: seq<Step>)
    requires Initial(s)
    requires forall i :: 0 <= i < |steps| && steps[i].StepIssue? ==>
               var before := Run(s, steps[..i]);
               var loaded := LoadValidated(before, steps[i].orderId);
               loaded.Ok? ==> before.now < before.reservations[loaded.value].expiresAt
    ensures NeverOversold(s, steps)
  {
    forall i | 0 <= i < |steps| ensures CoveredIssue(Run(s, steps[..i]), steps[i]) {
    }
    NoOversellIff(s, steps);
  }

  /******* An oversold run *******/

  const GATE := BucketKey(0, 0)

  function OneSeat(): Tables {
    Tables(0, map[GATE := Bucket(1, 0, 0)], [], [], map[], [], [], [], [], map[])
  }

  // Reserve, order and pay the only seat.
  function BuyOnce(actor: nat, ref: string): seq<Step> {
    [StepReserve(0, if actor == 0 then 0 else 2000, actor, GATE, 1, 1),
     StepCreateOrder(if actor == 0 then 0 else 2000, actor, Request("k", actor, 5, "GHS"), true),
     StepAddPayment(Payment(actor, Paystack, ref, Initiated, 5)),
     StepVerifyPayment(Paystack, ref, true, "GHS", Verification(ProviderSuccess, 5, "GHS"))]
  }

  function Bought(s: Tables, actor: nat, ref: string): Tables {
    var b := BuyOnce(actor, ref);
    Next(Next(Next(Next(s, b[0]), b[1]), b[2]), b[3])
  }

  function OversoldSteps(): seq<Step> {
    BuyOnce(0, "a") + [StepAdvance(2000)] + BuyOnce(1, "b")
    + [StepIssue(0, 0, [TicketRef("s0", "p0")]), StepIssue(0, 1, [TicketRef("s1", "p1")])]
  }

  lemma RunBuyOnce(s: Tables, steps: seq<Step>, actor: nat, ref: string)
    ensures Run(s, steps + BuyOnce(actor, ref)) == Bought(Run(s, steps), actor, ref)
  {
    var b := BuyOnce(actor, ref);
    RunAppend(s, steps, b[0]);
    RunAppend(s, steps + [b[0]], b[1]);
    RunAppend(s, steps + [b[0]] + [b[1]], b[2]);
    RunAppend(s, steps + [b[0]] + [b[1]] + [b[2]], b[3]);
    assert steps + b == steps + [b[0]] + [b[1]] + [b[2]] + [b[3]];
  }

  function SeatRow(actor: nat, expiresAt: int): Reservation { Reservation(actor, GATE, 1, Held, expiresAt) }

  function PaidOrder(actor: nat): Order { Order(actor, 0, Some(actor), 5, "GHS", Paid) }

  lemma FirstBuyer()
    ensures var t := Bought(OneSeat(), 0, "a");
            && t.now == 0 && t.buckets == map[GATE := Bucket(1, 1, 0)] && t.releases == map[]
            && t.reservations == [SeatRow(0, 1000)] && t.orders == [PaidOrder(0)] && t.tickets == []
            && t.payments == [Payment(0, Paystack, "a", Success, 5)]
            && t.idempotency == map[IdempotencyKey(0, "k") :=
                                    IdempotencyRecord(Request("k", 0, 5, "GHS"), Some(OrderResponse(0, Reserved)))]
  {
    var b := BuyOnce(0, "a");
    var s1 := Next(OneSeat(), b[0]);
    assert s1.reservations == [SeatRow(0, 1000)];
    var s2 := Next(s1, b[1]);
    var s3 := Next(s2, b[2]);
    assert s3.payments == [Payment(0, Paystack, "a", Initiated, 5)];
    assert FindPayment(s3.payments, Paystack, "a") == Some(0);
  }

  // The hold of the first buyer has lapsed, so the live sum no longer counts it.
  ghost predicate Sold(t: Tables) {
    && t.now == 2000 && t.buckets == map[GATE := Bucket(1, 1, 0)] && t.tickets == []
    && |t.reservations| > 0 && t.reservations[0] == SeatRow(0, 1000)
    && IdempotencyKey(1, "k") !in t.idempotency
  }

  lemma LapsedSum()
    ensures LiveSum([SeatRow(0, 1000)], GATE, 2000) == 0
  {
    assert [SeatRow(0, 1000)] == [] + [SeatRow(0, 1000)];
    LiveSumAppend([], SeatRow(0, 1000), GATE, 2000);
  }

  lemma SecondReserves(t: Tables)
    requires Sold(t) && t.reservations == [SeatRow(0, 1000)]
    ensures var s := Next(t, BuyOnce(1, "b")[0]);
            && Sold(s) && s.reservations == [SeatRow(0, 1000), SeatRow(1, 3000)]
            && s.orders == t.orders && s.payments == t.payments
  {
    LapsedSum();
  }

  lemma SecondOrders(t: Tables)
    requires Sold(t) && t.reservations == [SeatRow(0, 1000), SeatRow(1, 3000)] && t.orders == [PaidOrder(0)]
    ensures var s := Next(t, BuyOnce(1, "b")[1]);
            && s.now == t.now && s.buckets == t.buckets && s.tickets == t.tickets && s.payments == t.payments
            && s.reservations == t.reservations
            && s.orders == [PaidOrder(0), PaidOrder(1).(status := Reserved)]
  {
  }

  lemma SecondPays(t: Tables)
    requires t.orders == [PaidOrder(0), PaidOrder(1).(status := Reserved)]
    requires t.payments == [Payment(0, Paystack, "a", Success, 5)]
    ensures var s := Next(Next(t, BuyOnce(1, "b")[2]), BuyOnce(1, "b")[3]);
            && s.now == t.now && s.buckets == t.buckets && s.tickets == t.tickets
            && s.reservations == t.reservations && s.orders == [PaidOrder(0), PaidOrder(1)]
  {
    assert FindPayment(t.payments[..0], Paystack, "b") == None;
    assert FindPayment(t.payments, Paystack, "b") == None;
    var s3 := Next(t, BuyOnce(1, "b")[2]);
    assert s3.payments == [Payment(0, Paystack, "a", Success, 5), Payment(1, Paystack, "b", Initiated, 5)];
    assert FindPayment(s3.payments, Paystack, "b") == Some(1);
  }

  lemma SecondBuyer(t: Tables)
    requires Sold(t) && t.reservations == [SeatRow(0, 1000)] && t.orders == [PaidOrder(0)]
    requires t.payments == [Payment(0, Paystack, "a", Success, 5)]
    ensures var u := Bought(t, 1, "b");
            && u.now == 2000 && u.buckets == map[GATE := Bucket(1, 1, 0)] && u.tickets == []
            && u.reservations == [SeatRow(0, 1000), SeatRow(1, 3000)] && u.orders == [PaidOrder(0), PaidOrder(1)]
  {
    var b := BuyOnce(1, "b");
    SecondReserves(t);
    SecondOrders(Next(t, b[0]));
    SecondPays(Next(Next(t, b[0]), b[1]));
  }

  lemma BothIssue(u: Tables)
    requires u.buckets == map[GATE := Bucket(1, 1, 0)] && u.tickets == []
    requires u.reservations == [SeatRow(0, 1000), SeatRow(1, 3000)] && u.orders == [PaidOrder(0), PaidOrder(1)]
    ensures var v := Next(Next(u, StepIssue(0, 0, [TicketRef("s0", "p0")])), StepIssue(0, 1, [TicketRef("s1", "p1")]));
            GATE in v.buckets && v.buckets[GATE].capacityTotal == 1 && v.buckets[GATE].soldCount == 2
            && |v.tickets| == 2
  {
    var u1 := Next(u, StepIssue(0, 0, [TicketRef("s0", "p0")]));
    assert u1.buckets[GATE].soldCount == 1 && |u1.tickets| == 1;
    assert u1.tickets[0].ref == TicketRef("s0", "p0");
    assert "s0"[1] != "s1"[1] && "p0"[1] != "p1"[1];
    assert u1.orders[1] == PaidOrder(1) && u1.reservations[1] == SeatRow(1, 3000);
    assert FreshRefs(u1.tickets, [TicketRef("s1", "p1")]);
  }

  function SoldTwiceSteps(): seq<Step> { BuyOnce(0, "a") + [StepAdvance(2000)] + BuyOnce(1, "b") }

  lemma HoldLapsed()
    ensures var t := Run(OneSeat(), BuyOnce(0, "a") + [StepAdvance(2000)]);
            && Sold(t) && t.reservations == [SeatRow(0, 1000)] && t.orders == [PaidOrder(0)] && t.releases == map[]
            && t.payments == [Payment(0, Paystack, "a", Success, 5)]
  {
    var p := BuyOnce(0, "a");
    assert [] + p == p;
    RunBuyOnce(OneSeat(), [], 0, "a");
    FirstBuyer();
    RunAppend(OneSeat(), p, StepAdvance(2000));
  }

  lemma SoldTwice()
    ensures var u := Run(OneSeat(), SoldTwiceSteps());
            && u.buckets == map[GATE := Bucket(1, 1, 0)] && u.tickets == []
            && u.reservations == [SeatRow(0, 1000), SeatRow(1, 3000)] && u.orders == [PaidOrder(0), PaidOrder(1)]
  {
    var q := BuyOnce(0, "a") + [StepAdvance(2000)];
    HoldLapsed();
    SecondBuyer(Run(OneSeat(), q));
    RunBuyOnce(OneSeat(), q, 1, "b");
  }

  lemma SoldOut(s: Tables)
    requires GATE in s.buckets && s.buckets[GATE].soldCount > s.buckets[GATE].capacityTotal
    ensures !WithinCapacity(s)
  {
    LiveSumAntitone(s.reservations, GATE, s.now, s.now);
  }

  // Issuance checks only that the reservation is still HELD, so a paid order
  // whose hold lapsed and was sold again still issues: two tickets for one seat.
  lemma LateIssueOversells()
    ensures Initial(OneSeat())
    ensures var e := Run(OneSeat(), OversoldSteps());
            GATE in e.buckets && e.buckets[GATE].soldCount == 2 && e.buckets[GATE].capacityTotal == 1
            && |e.tickets| == 2
    ensures !NeverOversold(OneSeat(), OversoldSteps())
  {
    var s, r := OneSeat(), SoldTwiceSteps();
    var i0, i1 := StepIssue(0, 0, [TicketRef("s0", "p0")]), StepIssue(0, 1, [TicketRef("s1", "p1")]);
    SoldTwice();
    RunAppend(s, r, i0);
    RunAppend(s, r + [i0], i1);
    assert OversoldSteps() == r + [i0] + [i1];
    BothIssue(Run(s, r));
    SoldOut(Run(s, OversoldSteps()));
    assert OversoldSteps()[..|OversoldSteps()|] == OversoldSteps();
    assert !WithinCapacity(Run(s, OversoldSteps()[..|OversoldSteps()|]));
  }
}
