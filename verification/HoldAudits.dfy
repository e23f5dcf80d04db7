// What the audit trail of the holds adds up to, what an availability read
// touches, and idempotent replay.
module HoldAudits {
  import opened Totals
  import opened Wrappers
  import opened Holds
  import opened HoldProofs

  function CreatedLogs(id: nat): HoldAudit -> int {
    (a: HoldAudit) => if a.LogCreated? && a.holdId == id then 1 else 0
  }

  function ExpiredLogs(id: nat): HoldAudit -> int {
    (a: HoldAudit) => if a.LogExpired? && a.holdId == id then 1 else 0
  }

  // created minus expired audits of one table
  function TableBalance(t: nat): HoldAudit -> int {
    (a: HoldAudit) =>
      if a.LogCreated? && a.tableId == t then 1 else if a.LogExpired? && a.tableId == t then -1 else 0
  }

  function HeldWeight(t: nat): Hold -> int {
    (h: Hold) => if h.tableId == t && h.status == HoldHeld then 1 else 0
  }

  ghost predicate LoggedOnce(w: World, id: nat) {
    && Total(w.audits, CreatedLogs(id)) == (if id < |w.holds| then 1 else 0)
    && Total(w.audits, ExpiredLogs(id)) == (if id < |w.holds| && w.holds[id].status == HoldExpired then 1 else 0)
  }

  ghost predicate Balanced(w: World, t: nat) {
    Total(w.audits, TableBalance(t)) == Total(w.holds, HeldWeight(t))
  }

  ghost predicate Trail(w: World) {
    && (forall id: nat :: LoggedOnce(w, id))
    && (forall t: nat :: Balanced(w, t))
  }

  /******* Steps *******/

  lemma OtherAuditKeepsTrail(w: World, w': World, a: HoldAudit)
    requires Trail(w) && w'.holds == w.holds && w'.audits == w.audits + [a]
    requires !a.LogCreated? && !a.LogExpired?
    ensures Trail(w')
  {
    forall id: nat ensures LoggedOnce(w', id) {
      assert LoggedOnce(w, id);
      TotalAppend(w.audits, a, CreatedLogs(id));
      TotalAppend(w.audits, a, ExpiredLogs(id));
    }
    forall t: nat ensures Balanced(w', t) {
      assert Balanced(w, t);
      TotalAppend(w.audits, a, TableBalance(t));
    }
  }

  lemma CreateKeepsTrail(w: World, w': World, t: nat, h: Hold)
    requires Trail(w) && Creates(w, w', t, h)
    ensures Trail(w')
  {
    var a := LogCreated(t, |w.holds|);
    forall id: nat ensures LoggedOnce(w', id) {
      assert LoggedOnce(w, id);
      TotalAppend(w.audits, a, CreatedLogs(id));
      TotalAppend(w.audits, a, ExpiredLogs(id));
    }
    forall u: nat ensures Balanced(w', u) {
      assert Balanced(w, u);
      TotalAppend(w.audits, a, TableBalance(u));
      TotalAppend(w.holds, h, HeldWeight(u));
    }
  }

  lemma {:induction false} ExpiryLogTotals(t: nat, ids: seq<nat>, id: nat, u: nat)
    requires forall i, j :: 0 <= i < j < |ids| ==> ids[i] != ids[j]
    ensures Total(ExpiryLog(t, ids), CreatedLogs(id)) == 0
    ensures Total(ExpiryLog(t, ids), ExpiredLogs(id)) == if id in ids then 1 else 0
    ensures Total(ExpiryLog(t, ids), TableBalance(u)) == if u == t then -|ids| else 0
  {
    if |ids| != 0 {
      var n := |ids| - 1;
      ExpiryLogTotals(t, ids[..n], id, u);
      assert ids == ids[..n] + [ids[n]];
      assert ExpiryLog(t, ids)[..n] == ExpiryLog(t, ids[..n]);
    }
  }

  function Swept(h: Hold, t: nat, now: int): Hold {
    if IsStale(h, t, now) then h.(status := HoldExpired, expiredAt := Some(now)) else h
  }

  lemma MarkStaleIsSwept(holds: seq<Hold>, t: nat, now: int, i: nat)
    requires i < |holds|
    ensures MarkExpired(holds, StaleIds(holds, t, now), now)[i] == Swept(holds[i], t, now)
  {
    var ids := StaleIds(holds, t, now);
    if i in ids {
      var j :| 0 <= j < |ids| && ids[j] == i;
      assert IsStale(holds[ids[j]], t, now);
    }
  }

  function SweptRows(holds: seq<Hold>, t: nat, now: int): (rows: seq<Hold>)
    ensures |rows| == |holds|
    ensures forall i :: 0 <= i < |holds| ==> rows[i] == Swept(holds[i], t, now)
  {
    seq(|holds|, i requires 0 <= i < |holds| => Swept(holds[i], t, now))
  }

  lemma MarkStaleSweeps(holds: seq<Hold>, t: nat, now: int)
    ensures MarkExpired(holds, StaleIds(holds, t, now), now) == SweptRows(holds, t, now)
  {
    var marked := MarkExpired(holds, StaleIds(holds, t, now), now);
    forall i | 0 <= i < |holds| ensures marked[i] == Swept(holds[i], t, now) {
      MarkStaleIsSwept(holds, t, now, i);
    }
  }

  lemma SweptRowsLast(holds: seq<Hold>, t: nat, now: int)
    requires |holds| != 0
    ensures var n := |holds| - 1;
            SweptRows(holds, t, now) == SweptRows(holds[..n], t, now) + [Swept(holds[n], t, now)]
  {
  }

  lemma {:induction false} SweptHeld(holds: seq<Hold>, t: nat, now: int, u: nat)
    ensures Total(SweptRows(holds, t, now), HeldWeight(u))
            == Total(holds, HeldWeight(u)) - if u == t then |StaleIds(holds, t, now)| else 0
  {
    if |holds| != 0 {
      var n := |holds| - 1;
      SweptHeld(holds[..n], t, now, u);
      SweptRowsLast(holds, t, now);
      TotalAppend(SweptRows(holds[..n], t, now), Swept(holds[n], t, now), HeldWeight(u));
    }
  }

  lemma MarkStaleHeld(holds: seq<Hold>, t: nat, now: int, u: nat)
    ensures Total(MarkExpired(holds, StaleIds(holds, t, now), now), HeldWeight(u))
            == Total(holds, HeldWeight(u)) - if u == t then |StaleIds(holds, t, now)| else 0
  {
    MarkStaleSweeps(holds, t, now);
    SweptHeld(holds, t, now, u);
  }

  lemma ExpireKeepsTrail(w: World, t: nat, now: int)
    requires Trail(w)
    ensures Trail(ExpireTable(w, t, now))
  {
    if t < |w.tables| {
      var w' := ExpireTable(w, t, now);
      var ids := StaleIds(w.holds, t, now);
      forall id: nat ensures LoggedOnce(w', id) {
        assert LoggedOnce(w, id);
        ExpiryLogTotals(t, ids, id, t);
        TotalConcat(w.audits, ExpiryLog(t, ids), CreatedLogs(id));
        TotalConcat(w.audits, ExpiryLog(t, ids), ExpiredLogs(id));
        if id < |w.holds| { MarkStaleIsSwept(w.holds, t, now, id); }
      }
      forall u: nat ensures Balanced(w', u) {
        assert Balanced(w, u);
        ExpiryLogTotals(t, ids, 0, u);
        TotalConcat(w.audits, ExpiryLog(t, ids), TableBalance(u));
        MarkStaleHeld(w.holds, t, now, u);
      }
    }
  }

  lemma {:induction false} ExpireTablesKeepsTrail(w: World, ids: seq<nat>, now: int)
    requires Trail(w)
    ensures Trail(ExpireTables(w, ids, now))
  {
    if |ids| != 0 {
      ExpireTablesKeepsTrail(w, ids[..|ids| - 1], now);
      ExpireKeepsTrail(ExpireTables(w, ids[..|ids| - 1], now), ids[|ids| - 1], now);
    }
  }

  lemma SameLogKeepsTrail(w: World, w': World)
    requires Trail(w) && w'.holds == w.holds && w'.audits == w.audits
    ensures Trail(w')
  {
    forall id: nat ensures LoggedOnce(w', id) { assert LoggedOnce(w, id); }
    forall t: nat ensures Balanced(w', t) { assert Balanced(w, t); }
  }

  lemma CreateHoldKeepsTrail(
    w: World, now: int, actor: nat, eventId: nat, t: nat, key: string, setting: Option<int>, eligible: bool)
    requires Trail(w)
    ensures Trail(CreateHold(w, now, actor, eventId, t, key, setting, eligible).0)
  {
    var (w', out) := CreateHold(w, now, actor, eventId, t, key, setting, eligible);
    if out.Err? {
      if w' != w { OtherAuditKeepsTrail(w, w', LogRejected(t)); }
    } else {
      CreateHoldCases(w, now, actor, eventId, t, key, setting, eligible);
      ExpireKeepsTrail(w, t, now);
      if out.value >= |w.holds| {
        CreateKeepsTrail(ExpireTable(w, t, now), w', t, w'.holds[|w.holds|]);
      }
    }
  }

  lemma StepKeepsTrail(w: World, step: HoldStep)
    requires Trail(w)
    ensures Trail(Next(w, step))
  {
    match step
    case DoCreateHold(at, actor, eventId, t, key, setting, eligible) =>
      CreateHoldKeepsTrail(w, at, actor, eventId, t, key, setting, eligible);
    case DoGetOwned(at, id, actor) =>
      if id < |w.holds| {
        ExpireKeepsTrail(w, w.holds[id].tableId, at);
        if w.holds[id].tableId < |w.tables| {
          SameLogKeepsTrail(w, ReconcileTable(w, w.holds[id].tableId, at));
        }
      }
    case DoUpdateStatus(at, t, status) =>
      ExpireKeepsTrail(w, t, at);
      if UpdateTableStatus(w, at, t, status).1.Ok? {
        OtherAuditKeepsTrail(ExpireTable(w, t, at), Next(w, step), LogTableUpdated(t, status));
      }
    case DoCreateTable(at, eventId, wanted, venueActive) =>
      if CreateTable(w, eventId, wanted, venueActive).1.Ok? {
        OtherAuditKeepsTrail(w, Next(w, step), LogTableCreated(|w.tables|));
      }
    case DoGetAvailability(at, eventId, visible) => ExpireTablesKeepsTrail(w, TablesOf(w.tables, eventId), at);
  }

  // Over serial runs each hold is logged created once, logged expired once if
  // it expired, and per table created minus expired is the number of HELD rows.
  lemma {:induction false} AuditTrailAddsUp(steps: seq<HoldStep>)
    ensures Trail(Run(EMPTY, steps))
  {
    if |steps| == 0 {
      forall id: nat ensures LoggedOnce(EMPTY, id) { }
      forall t: nat ensures Balanced(EMPTY, t) { }
    } else {
      AuditTrailAddsUp(steps[..|steps| - 1]);
      StepKeepsTrail(Run(EMPTY, steps[..|steps| - 1]), steps[|steps| - 1]);
    }
  }

  /******* The scope of an availability read *******/

  ghost predicate HasActive(holds: seq<Hold>, t: nat, now: int) {
    exists i :: 0 <= i < |holds| && IsActive(holds[i], t, now)
  }

  ghost predicate LatestExpiry(holds: seq<Hold>, t: nat, now: int, e: int) {
    && (exists i :: 0 <= i < |holds| && IsActive(holds[i], t, now) && holds[i].holdExpiresAt == e)
    && (forall i :: 0 <= i < |holds| && IsActive(holds[i], t, now) ==> holds[i].holdExpiresAt <= e)
  }

  // With an active hold the table is HELD until the last of them ends; without one
  // a HELD table becomes AVAILABLE and any other stays what it was.
  ghost predicate RightTable(before: EventTable, after: EventTable, holds: seq<Hold>, t: nat, now: int) {
    && after.eventId == before.eventId && after.venueActive == before.venueActive
    && if HasActive(holds, t, now)
       then after.status == TableHeld && after.holdExpiresAt.Some?
            && LatestExpiry(holds, t, now, after.holdExpiresAt.value)
       else after.holdExpiresAt.None?
            && after.status == if before.status == TableHeld then TableAvailable else before.status
  }

  // What expiring some tables does to every row and every table.
  ghost predicate ExactlyExpired(w: World, w': World, ids: seq<nat>, now: int) {
    && |w'.holds| == |w.holds| && |w'.tables| == |w.tables|
    && (forall i :: 0 <= i < |w.holds| ==>
          w'.holds[i] == if w.holds[i].tableId in ids then Swept(w.holds[i], w.holds[i].tableId, now) else w.holds[i])
    && (forall t :: 0 <= t < |w.tables| ==>
          && (t !in ids ==> w'.tables[t] == w.tables[t])
          && (t in ids ==> RightTable(w.tables[t], w'.tables[t], w.holds, t, now)))
  }

  // Rows that are active, and until when, are the same in both.
  ghost predicate ActiveAlike(holds: seq<Hold>, holds': seq<Hold>, t: nat, now: int) {
    |holds'| == |holds|
    && forall i :: 0 <= i < |holds| ==>
         && (IsActive(holds'[i], t, now) <==> IsActive(holds[i], t, now))
         && holds'[i].holdExpiresAt == holds[i].holdExpiresAt
  }

  lemma ActiveStays(holds: seq<Hold>, holds': seq<Hold>, t: nat, now: int)
    requires ActiveAlike(holds, holds', t, now) && HasActive(holds, t, now)
    ensures HasActive(holds', t, now)
  {
    var i :| 0 <= i < |holds| && IsActive(holds[i], t, now);
    assert IsActive(holds'[i], t, now);
  }

  lemma LatestStays(holds: seq<Hold>, holds': seq<Hold>, t: nat, now: int, e: int)
    requires ActiveAlike(holds, holds', t, now) && LatestExpiry(holds, t, now, e)
    ensures LatestExpiry(holds', t, now, e)
  {
    var i :| 0 <= i < |holds| && IsActive(holds[i], t, now) && holds[i].holdExpiresAt == e;
    assert IsActive(holds'[i], t, now) && holds'[i].holdExpiresAt == e;
  }

  lemma RightTableAlike(before: EventTable, after: EventTable, holds: seq<Hold>, holds': seq<Hold>, t: nat, now: int)
    requires ActiveAlike(holds, holds', t, now)
    ensures RightTable(before, after, holds, t, now) <==> RightTable(before, after, holds', t, now)
    ensures HasActive(holds, t, now) <==> HasActive(holds', t, now)
  {
    if HasActive(holds, t, now) { ActiveStays(holds, holds', t, now); }
    if HasActive(holds', t, now) { ActiveStays(holds', holds, t, now); }
    if after.holdExpiresAt.Some? {
      var e := after.holdExpiresAt.value;
      if LatestExpiry(holds, t, now, e) { LatestStays(holds, holds', t, now, e); }
      if LatestExpiry(holds', t, now, e) { LatestStays(holds', holds, t, now, e); }
    }
  }

  lemma ReconciledIsRight(w: World, t: nat, now: int)
    requires t < |w.tables|
    ensures RightTable(w.tables[t], ReconcileTable(w, t, now).tables[t], w.holds, t, now)
  {
    var latest := LatestActive(w.holds, t, now);
    if latest.Some? { assert LatestExpiry(w.holds, t, now, latest.value); }
  }

  lemma ExpireOneExact(w: World, t: nat, now: int)
    requires t < |w.tables|
    ensures ExactlyExpired(w, ExpireTable(w, t, now), [t], now)
  {
    var w' := ExpireTable(w, t, now);
    forall i | 0 <= i < |w.holds| ensures w'.holds[i] == Swept(w.holds[i], t, now) {
      MarkStaleIsSwept(w.holds, t, now, i);
    }
    assert ActiveAlike(w.holds, w'.holds, t, now);
    ReconciledIsRight(w.(holds := w'.holds), t, now);
    RightTableAlike(w.tables[t], w'.tables[t], w.holds, w'.holds, t, now);
  }

  lemma ExactlyExpiredMore(w: World, w1: World, w2: World, ids: seq<nat>, t: nat, now: int)
    requires t < |w.tables| && t !in ids
    requires ExactlyExpired(w, w1, ids, now) && ExactlyExpired(w1, w2, [t], now)
    ensures ExactlyExpired(w, w2, ids + [t], now)
  {
    assert ActiveAlike(w.holds, w1.holds, t, now);
    RightTableAlike(w1.tables[t], w2.tables[t], w.holds, w1.holds, t, now);
  }

  predicate TablesAmong(ids: seq<nat>, count: nat) {
    (forall i :: 0 <= i < |ids| ==> ids[i] < count) && (forall i, j :: 0 <= i < j < |ids| ==> ids[i] != ids[j])
  }

  lemma {:induction false} ExpireTablesExact(w: World, ids: seq<nat>, now: int)
    requires TablesAmong(ids, |w.tables|)
    ensures ExactlyExpired(w, ExpireTables(w, ids, now), ids, now)
  {
    if |ids| != 0 {
      var front, last := ids[..|ids| - 1], ids[|ids| - 1];
      assert TablesAmong(front, |w.tables|) && last !in front && ids == front + [last];
      var w1 := ExpireTables(w, front, now);
      ExpireTablesExact(w, front, now);
      ExpireOneExact(w1, last, now);
      ExactlyExpiredMore(w, w1, ExpireTable(w1, last, now), front, last, now);
    }
  }

  predicate OfEvent(w: World, t: nat, eventId: nat) { t < |w.tables| && w.tables[t].eventId == eventId }

  // An availability read leaves each of the event's tables HELD exactly when it
  // has an active hold, until the last of them ends, and otherwise as it was or
  // AVAILABLE again; it touches no other event's table.
  lemma AvailabilityTables(w: World, now: int, eventId: nat)
    ensures GetAvailability(w, now, eventId, false) == (w, Err(InvalidState))
    ensures GetAvailability(w, now, eventId, true).1 == Ok(eventId)
    ensures var w' := GetAvailability(w, now, eventId, true).0;
            && |w'.tables| == |w.tables|
            && forall t :: 0 <= t < |w.tables| ==>
                 if OfEvent(w, t, eventId)
                 then RightTable(w.tables[t], w'.tables[t], w'.holds, t, now)
                 else w'.tables[t] == w.tables[t]
  {
    var ids := TablesOf(w.tables, eventId);
    var w' := ExpireTables(w, ids, now);
    ExpireTablesExact(w, ids, now);
    forall t | 0 <= t < |w.tables|
      ensures if OfEvent(w, t, eventId)
              then RightTable(w.tables[t], w'.tables[t], w'.holds, t, now)
              else w'.tables[t] == w.tables[t]
    {
      assert ActiveAlike(w.holds, w'.holds, t, now);
      RightTableAlike(w.tables[t], w'.tables[t], w.holds, w'.holds, t, now);
    }
  }

  // It expires each stale hold of the event with exactly one expiry audit, and
  // leaves every other hold and its audits alone.
  lemma AvailabilityHold(w: World, now: int, eventId: nat, i: nat)
    requires Trail(w) && i < |w.holds|
    ensures var w' := GetAvailability(w, now, eventId, true).0;
            && Trail(w') && |w'.holds| == |w.holds|
            && if OfEvent(w, w.holds[i].tableId, eventId) && IsStale(w.holds[i], w.holds[i].tableId, now)
               then w'.holds[i].status == HoldExpired && w'.holds[i].expiredAt == Some(now)
                    && Total(w.audits, ExpiredLogs(i)) == 0 && Total(w'.audits, ExpiredLogs(i)) == 1
               else w'.holds[i] == w.holds[i]
                    && Total(w'.audits, ExpiredLogs(i)) == Total(w.audits, ExpiredLogs(i))
  {
    var ids := TablesOf(w.tables, eventId);
    var w' := ExpireTables(w, ids, now);
    ExpireTablesExact(w, ids, now);
    ExpireTablesKeepsTrail(w, ids, now);
    assert LoggedOnce(w, i) && LoggedOnce(w', i);
  }

  /******* Idempotent replay *******/

  // (actor, idempotencyKey) is unique among the holds.
  ghost predicate KeysUnique(holds: seq<Hold>) {
    forall i, j :: 0 <= i < j < |holds| ==>
      holds[i].actorUserId != holds[j].actorUserId || holds[i].idempotencyKey != holds[j].idempotencyKey
  }

  // Identity of a hold: everything but its status and expiry stamp.
  ghost predicate Extends(holds: seq<Hold>, holds': seq<Hold>) {
    && |holds| <= |holds'|
    && forall i :: 0 <= i < |holds| ==>
         holds'[i] == holds[i].(status := holds'[i].status, expiredAt := holds'[i].expiredAt)
  }

  lemma CreatesExtends(w: World, w1: World, w': World, t: nat, h: Hold)
    requires OnlyReleases(w.holds, w1.holds) && Creates(w1, w', t, h)
    ensures Extends(w.holds, w'.holds)
    ensures KeysUnique(w.holds) && FindByKey(w.holds, h.actorUserId, h.idempotencyKey).None? ==> KeysUnique(w'.holds)
  {
  }

  lemma ReleasesExtends(holds: seq<Hold>, holds': seq<Hold>)
    requires OnlyReleases(holds, holds')
    ensures Extends(holds, holds') && (KeysUnique(holds) ==> KeysUnique(holds'))
  {
  }

  lemma CreateHoldExtends(
    w: World, now: int, actor: nat, eventId: nat, t: nat, key: string, setting: Option<int>, eligible: bool)
    ensures Extends(w.holds, CreateHold(w, now, actor, eventId, t, key, setting, eligible).0.holds)
    ensures KeysUnique(w.holds) ==>
              KeysUnique(CreateHold(w, now, actor, eventId, t, key, setting, eligible).0.holds)
  {
    ExpireOnlyReleases(w, t, now);
    var (w', out) := CreateHold(w, now, actor, eventId, t, key, setting, eligible);
    if FindByKey(w.holds, actor, key).None? && out.Ok? {
      CreateHoldFresh(w, now, actor, eventId, t, key, setting, eligible);
      CreatesExtends(w, ExpireTable(w, t, now), w', t, w'.holds[|w.holds|]);
    } else {
      CreateHoldCases(w, now, actor, eventId, t, key, setting, eligible);
      ReleasesExtends(w.holds, w'.holds);
    }
  }

  lemma StepExtends(w: World, step: HoldStep)
    ensures Extends(w.holds, Next(w, step).holds)
    ensures KeysUnique(w.holds) ==> KeysUnique(Next(w, step).holds)
  {
    if step.DoCreateHold? {
      CreateHoldExtends(w, step.at, step.actor, step.eventId, step.t, step.key, step.setting, step.eligible);
    } else {
      StepReleases(w, step);
    }
  }

  lemma {:induction false} RunExtends(w: World, steps: seq<HoldStep>)
    ensures Extends(w.holds, Run(w, steps).holds)
    ensures KeysUnique(w.holds) ==> KeysUnique(Run(w, steps).holds)
  {
    if |steps| != 0 {
      RunExtends(w, steps[..|steps| - 1]);
      StepExtends(Run(w, steps[..|steps| - 1]), steps[|steps| - 1]);
    }
  }

  lemma CreateHoldNames(
    w: World, now: int, actor: nat, eventId: nat, t: nat, key: string, setting: Option<int>, eligible: bool)
    requires CreateHold(w, now, actor, eventId, t, key, setting, eligible).1.Ok?
    ensures var (w', out) := CreateHold(w, now, actor, eventId, t, key, setting, eligible);
            && out.value < |w'.holds| && key != ""
            && w'.holds[out.value].actorUserId == actor && w'.holds[out.value].idempotencyKey == key
            && w'.holds[out.value].eventId == eventId && w'.holds[out.value].tableId == t
  {
    ExpireOnlyReleases(w, t, now);
    CreateHoldCases(w, now, actor, eventId, t, key, setting, eligible);
    if FindByKey(w.holds, actor, key).None? {
      CreateHoldFresh(w, now, actor, eventId, t, key, setting, eligible);
    }
  }

  lemma ReplayFinds(
    w: World, now: int, actor: nat, eventId: nat, t: nat, key: string, setting: Option<int>, eligible: bool, id: nat)
    requires KeysUnique(w.holds) && id < |w.holds| && key != ""
    requires w.holds[id].actorUserId == actor && w.holds[id].idempotencyKey == key
    requires w.holds[id].eventId == eventId && w.holds[id].tableId == t
    ensures var (w', out) := CreateHold(w, now, actor, eventId, t, key, setting, eligible);
            && |w'.holds| == |w.holds| && (out.Ok? ==> out == Ok(id))
            && (out.Ok? <==> t < |w.tables| && w.tables[t].eventId == eventId && eligible
                             && w.tables[t].status != TableUnavailable)
  {
    var found := FindByKey(w.holds, actor, key);
    assert found.Some? && found.value == id;
    ExpireOnlyReleases(w, t, now);
  }

  // An accepted hold request, repeated after any run, returns the first
  // reservation and adds no row; it is refused only when the table can no longer
  // be held at all.
  lemma HoldReplay(
    w: World, first: int, actor: nat, eventId: nat, t: nat, key: string, setting: Option<int>,
    steps: seq<HoldStep>, second: int, eligible: bool)
    requires KeysUnique(w.holds) && CreateHold(w, first, actor, eventId, t, key, setting, true).1.Ok?
    ensures var (w1, out1) := CreateHold(w, first, actor, eventId, t, key, setting, true);
            var w2 := Run(w1, steps);
            var (w3, out2) := CreateHold(w2, second, actor, eventId, t, key, setting, eligible);
            && |w3.holds| == |w2.holds|
            && (out2.Ok? ==> out2 == out1)
            && (out2.Ok? <==> t < |w2.tables| && w2.tables[t].eventId == eventId && eligible
                              && w2.tables[t].status != TableUnavailable)
  {
    var (w1, out1) := CreateHold(w, first, actor, eventId, t, key, setting, true);
    CreateHoldNames(w, first, actor, eventId, t, key, setting, true);
    CreateHoldExtends(w, first, actor, eventId, t, key, setting, true);
    RunExtends(w1, steps);
    var w2 := Run(w1, steps);
    ReplayFinds(w2, second, actor, eventId, t, key, setting, eligible, out1.value);
  }
}
