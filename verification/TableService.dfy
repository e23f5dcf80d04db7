// The table requests as the services run them: loops over expired rows, a table
// row overwritten last, everything rolled back when a request is refused.
module TableService {
  import opened Totals
  import opened Wrappers
  import opened Holds

  lemma MarkOneMore(holds: seq<Hold>, ids: seq<nat>, i: nat, now: int)
    requires i < |ids| && ids[i] < |holds|
    requires forall j, k :: 0 <= j < k < |ids| ==> ids[j] != ids[k]
    ensures var before := MarkExpired(holds, ids[..i], now);
            MarkExpired(holds, ids[..i + 1], now)
            == before[ids[i] := before[ids[i]].(status := HoldExpired, expiredAt := Some(now))]
  {
    assert ids[..i + 1] == ids[..i] + [ids[i]];
    assert forall id: nat :: id in ids[..i + 1] <==> id in ids[..i] || id == ids[i];
  }

  class EventTables {
    var tables: seq<EventTable>
    var holds: seq<Hold>
    var audits: seq<HoldAudit>

    ghost function View(): World
      reads this
    {
      World(tables, holds, audits)
    }

    constructor ()
      ensures View() == EMPTY
    {
      tables, holds, audits := [], [], [];
    }

    // reconcileEventTableStateWithinTx, from a state read earlier in the transaction
    method ReconcileEventTableState(t: nat, now: int)
      requires t < |tables|
      modifies this`tables
      ensures View() == ReconcileTable(old(View()), t, now)
    {
      var state := tables[t];
      var activeHold := LatestActive(holds, t, now);
      var nextStatus, nextHoldExpiresAt := state.status, state.holdExpiresAt;
      if activeHold.Some? {
        nextStatus, nextHoldExpiresAt := TableHeld, Some(activeHold.value);
      } else if state.status == TableHeld {
        nextStatus, nextHoldExpiresAt := TableAvailable, None;
      } else if state.holdExpiresAt != None {
        nextHoldExpiresAt := None;
      }
      var changed := nextStatus != state.status || nextHoldExpiresAt != state.holdExpiresAt;
      if changed {
        tables := tables[t := state.(status := nextStatus, holdExpiresAt := nextHoldExpiresAt)];
      } else {
        assert tables[t := tables[t]] == tables;
      }
    }

    method MarkHoldsExpired(expired: seq<nat>, now: int)
      requires forall i :: 0 <= i < |expired| ==> expired[i] < |holds|
      requires forall i, j :: 0 <= i < j < |expired| ==> expired[i] != expired[j]
      modifies this`holds
      ensures holds == MarkExpired(old(holds), expired, now)
    {
      ghost var before := holds;
      for i := 0 to |expired|
        invariant holds == MarkExpired(before, expired[..i], now)
      {
        MarkOneMore(before, expired, i, now);
        holds := holds[expired[i] := holds[expired[i]].(status := HoldExpired, expiredAt := Some(now))];
      }
      assert expired[..|expired|] == expired;
    }

    method LogExpiries(t: nat, expired: seq<nat>)
      modifies this`audits
      ensures audits == old(audits) + ExpiryLog(t, expired)
    {
      ghost var before := audits;
      for i := 0 to |expired|
        invariant audits == before + ExpiryLog(t, expired[..i])
      {
        audits := audits + [LogExpired(t, expired[i])];
        assert ExpiryLog(t, expired[..i + 1]) == ExpiryLog(t, expired[..i]) + [LogExpired(t, expired[i])];
      }
      assert expired[..|expired|] == expired;
    }

    method ExpireStaleHolds(t: nat, now: int)
      modifies this
      ensures View() == ExpireTable(old(View()), t, now)
    {
      if t >= |tables| {
        return;
      }
      var expired := StaleIds(holds, t, now);
      MarkHoldsExpired(expired, now);
      ReconcileEventTableState(t, now);
      LogExpiries(t, expired);
    }

    method CountActiveHolds(t: nat, now: int) returns (count: int)
      ensures count == Total(holds, ActiveWeight(t, now))
    {
      count := 0;
      for i := 0 to |holds|
        invariant count == Total(holds[..i], ActiveWeight(t, now))
      {
        TotalAppend(holds[..i], holds[i], ActiveWeight(t, now));
        assert holds[..i + 1] == holds[..i] + [holds[i]];
        if IsActive(holds[i], t, now) {
          count := count + 1;
        }
      }
      assert holds[..|holds|] == holds;
    }

    // A refused request rolls its transaction back and then logs the refusal.
    method Refuse(before: seq<EventTable>, rows: seq<Hold>, log: seq<HoldAudit>, t: nat)
      modifies this
      ensures View() == Rejected(World(before, rows, log), t)
    {
      tables, holds, audits := before, rows, log + [LogRejected(t)];
    }

    // before is what the transaction started from.
    method PlaceNewHold(
      before: World, now: int, actor: nat, eventId: nat, t: nat, key: string, setting: Option<int>)
      returns (result: Result<nat>)
      modifies this
      ensures (View(), result) == PlaceHold(before, old(View()), now, actor, eventId, t, key, setting)
    {
      var activeCount := CountActiveHolds(t, now);
      if t >= |tables| || activeCount > 0 {
        Refuse(before.tables, before.holds, before.audits, t);
        return Err(Unavailable);
      }
      var holdExpiresAt := now + HoldDurationSeconds(setting) * 1000;
      var id := |holds|;
      holds := holds + [Hold(actor, eventId, t, HoldHeld, key, holdExpiresAt, None)];
      tables := tables[t := tables[t].(status := TableHeld, holdExpiresAt := Some(holdExpiresAt))];
      audits := audits + [LogCreated(t, id)];
      return Ok(id);
    }

    method CreateTableHold(
      now: int, actor: nat, eventId: nat, t: nat, key: string, setting: Option<int>, eligible: bool)
      returns (result: Result<nat>)
      modifies this
      ensures (View(), result) == CreateHold(old(View()), now, actor, eventId, t, key, setting, eligible)
    {
      if key == "" {
        return Err(InvalidInput);
      }
      var tables0, holds0, audits0 := tables, holds, audits;
      if t >= |tables| || tables[t].eventId != eventId {
        Refuse(tables0, holds0, audits0, t);
        return Err(NotFound);
      }
      if !eligible || tables[t].status == TableUnavailable {
        Refuse(tables0, holds0, audits0, t);
        return Err(InvalidState);
      }
      var existing := FindByKey(holds, actor, key);
      if existing.Some? {
        if holds[existing.value].eventId != eventId || holds[existing.value].tableId != t {
          Refuse(tables0, holds0, audits0, t);
          return Err(IdempotencyConflict);
        }
        ExpireStaleHolds(t, now);
        return Ok(existing.value);
      }
      ExpireStaleHolds(t, now);
      result := PlaceNewHold(World(tables0, holds0, audits0), now, actor, eventId, t, key, setting);
    }

    method GetOwnedReservation(now: int, id: nat, actor: nat) returns (result: Result<nat>)
      modifies this
      ensures (View(), result) == GetOwned(old(View()), now, id, actor)
    {
      if id >= |holds| || holds[id].actorUserId != actor {
        return Err(NotFound);
      }
      var existing := holds[id];
      if existing.status == HoldHeld && existing.holdExpiresAt <= now {
        ExpireStaleHolds(existing.tableId, now);
      } else {
        if existing.tableId >= |tables| {
          return Err(NotFound);
        }
        ReconcileEventTableState(existing.tableId, now);
      }
      return Ok(id);
    }

    method UpdateEventTableStatus(now: int, t: nat, status: TableStatus) returns (result: Result<nat>)
      modifies this
      ensures (View(), result) == UpdateTableStatus(old(View()), now, t, status)
    {
      if status == TableHeld {
        return Err(InvalidInput);
      }
      if t >= |tables| {
        return Err(NotFound);
      }
      if status == TableAvailable && !tables[t].venueActive {
        return Err(InvalidInput);
      }
      var tables0, holds0, audits0 := tables, holds, audits;
      ExpireStaleHolds(t, now);
      var activeCount := CountActiveHolds(t, now);
      if activeCount > 0 {
        tables, holds, audits := tables0, holds0, audits0;
        return Err(Unavailable);
      }
      tables := tables[t := tables[t].(status := status, holdExpiresAt := None)];
      audits := audits + [LogTableUpdated(t, status)];
      return Ok(t);
    }

    method CreateEventTable(eventId: nat, status: Option<TableStatus>, venueActive: bool) returns (result: Result<nat>)
      modifies this
      ensures (View(), result) == CreateTable(old(View()), eventId, status, venueActive)
    {
      if status == Some(TableHeld) {
        return Err(InvalidInput);
      }
      var initialStatus := if status.Some? then status.value
                           else if venueActive then TableAvailable else TableUnavailable;
      var id := |tables|;
      var storedStatus := if venueActive then initialStatus else TableUnavailable;
      tables := tables + [EventTable(eventId, storedStatus, None, venueActive)];
      audits := audits + [LogTableCreated(id)];
      return Ok(id);
    }

    method ExpireLockedTables(locked: seq<nat>, now: int)
      modifies this
      ensures View() == ExpireTables(old(View()), locked, now)
    {
      ghost var before := View();
      for i := 0 to |locked|
        invariant View() == ExpireTables(before, locked[..i], now)
      {
        ExpireStaleHolds(locked[i], now);
        assert locked[..i + 1][..i] == locked[..i];
      }
      assert locked[..|locked|] == locked;
    }

    // The status each table of the event is shown with.
    method ListAvailability(eventId: nat) returns (shown: map<nat, TableStatus>)
      ensures forall t :: t in shown <==> 0 <= t < |tables| && tables[t].eventId == eventId
      ensures forall t :: t in shown ==>
                shown[t] == if tables[t].venueActive then tables[t].status else TableUnavailable
    {
      shown := map[];
      for t := 0 to |tables|
        invariant forall u :: u in shown <==> 0 <= u < t && tables[u].eventId == eventId
        invariant forall u :: u in shown ==>
                    shown[u] == if tables[u].venueActive then tables[u].status else TableUnavailable
      {
        if tables[t].eventId == eventId {
          shown := shown[t := if tables[t].venueActive then tables[t].status else TableUnavailable];
        }
      }
    }

    method ReadAvailability(now: int, eventId: nat, visible: bool)
      returns (result: Result<nat>, shown: map<nat, TableStatus>)
      modifies this
      ensures (View(), result) == GetAvailability(old(View()), now, eventId, visible)
      ensures result.Ok? ==> forall t :: t in shown <==> 0 <= t < |tables| && tables[t].eventId == eventId
      ensures result.Ok? ==>
                forall t :: t in shown ==>
                  shown[t] == if tables[t].venueActive then tables[t].status else TableUnavailable
    {
      if !visible {
        return Err(InvalidState), map[];
      }
      ExpireLockedTables(TablesOf(tables, eventId), now);
      shown := ListAvailability(eventId);
      return Ok(eventId), shown;
    }
  }
}
