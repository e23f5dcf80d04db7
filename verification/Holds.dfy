// Event tables and the holds on them. Staleness is decided lazily, on the clock
// reading of whichever request comes by.
module Holds {
  import opened Totals
  import opened Wrappers

  datatype TableStatus = TableAvailable | TableHeld | TableUnavailable

  datatype EventTable = EventTable(eventId: nat, status: TableStatus, holdExpiresAt: Option<int>, venueActive: bool)

  datatype HoldStatus = HoldHeld | HoldExpired | HoldCancelled

  // The fingerprint hash is injective in (eventId, eventTableId).
  datatype Hold = Hold(
    actorUserId: nat,
    eventId: nat,
    tableId: nat,
    status: HoldStatus,
    idempotencyKey: string,
    holdExpiresAt: int,
    expiredAt: Option<int>)

  datatype HoldAudit =
    | LogCreated(tableId: nat, holdId: nat)
    | LogExpired(tableId: nat, holdId: nat)
    | LogRejected(tableId: nat)
    | LogTableCreated(tableId: nat)
    | LogTableUpdated(tableId: nat, status: TableStatus)

  datatype World = World(tables: seq<EventTable>, holds: seq<Hold>, audits: seq<HoldAudit>)

  /******* Queries *******/

  predicate IsStale(h: Hold, t: nat, now: int) {
    h.tableId == t && h.status == HoldHeld && h.holdExpiresAt <= now
  }

  predicate IsActive(h: Hold, t: nat, now: int) {
    h.tableId == t && h.status == HoldHeld && h.holdExpiresAt > now
  }

  function ActiveWeight(t: nat, now: int): Hold -> int {
    (h: Hold) => if IsActive(h, t, now) then 1 else 0
  }

  // findExpiredHeldByEventTable
  function StaleIds(holds: seq<Hold>, t: nat, now: int): (ids: seq<nat>)
    ensures forall i :: 0 <= i < |ids| ==> ids[i] < |holds| && IsStale(holds[ids[i]], t, now)
    ensures forall i, j :: 0 <= i < j < |ids| ==> ids[i] != ids[j]
    ensures forall id :: 0 <= id < |holds| && IsStale(holds[id], t, now) ==> id in ids
  {
    if |holds| == 0 then []
    else
      var n := |holds| - 1;
      var front := StaleIds(holds[..n], t, now);
      assert forall id :: 0 <= id < n ==> holds[..n][id] == holds[id];
      if IsStale(holds[n], t, now) then front + [n] else front
  }

  // findLatestActiveHeldReservationForEventTable
  function LatestActive(holds: seq<Hold>, t: nat, now: int): (best: Option<int>)
    ensures best.None? <==> forall id :: 0 <= id < |holds| ==> !IsActive(holds[id], t, now)
    ensures best.Some? ==>
              && (exists id :: 0 <= id < |holds| && IsActive(holds[id], t, now)
                               && holds[id].holdExpiresAt == best.value)
              && (forall id :: 0 <= id < |holds| && IsActive(holds[id], t, now) ==>
                    holds[id].holdExpiresAt <= best.value)
  {
    if |holds| == 0 then None
    else
      var n := |holds| - 1;
      var front := LatestActive(holds[..n], t, now);
      assert forall id :: 0 <= id < n ==> holds[..n][id] == holds[id];
      if IsActive(holds[n], t, now) && (front.None? || front.value < holds[n].holdExpiresAt)
      then Some(holds[n].holdExpiresAt)
      else front
  }

  function FindByKey(holds: seq<Hold>, actor: nat, key: string): (id: Option<nat>)
    ensures id.Some? ==> id.value < |holds| && holds[id.value].actorUserId == actor
                         && holds[id.value].idempotencyKey == key
    ensures id.None? ==>
              forall i :: 0 <= i < |holds| ==> holds[i].actorUserId != actor || holds[i].idempotencyKey != key
  {
    if |holds| == 0 then None
    else
      var n := |holds| - 1;
      if holds[n].actorUserId == actor && holds[n].idempotencyKey == key then Some(n)
      else FindByKey(holds[..n], actor, key)
  }

  /******* Expiry and reconciliation *******/

  function MarkExpired(holds: seq<Hold>, ids: seq<nat>, now: int): (r: seq<Hold>)
    ensures |r| == |holds|
  {
    seq(|holds|, i requires 0 <= i < |holds| =>
      if i in ids then holds[i].(status := HoldExpired, expiredAt := Some(now)) else holds[i])
  }

  function Reconciled(table: EventTable, latest: Option<int>): EventTable {
    if latest.Some? then table.(status := TableHeld, holdExpiresAt := latest)
    else if table.status == TableHeld then table.(status := TableAvailable, holdExpiresAt := None)
    else table.(holdExpiresAt := None)
  }

  function ReconcileTable(w: World, t: nat, now: int): World
    requires t < |w.tables|
  {
    w.(tables := w.tables[t := Reconciled(w.tables[t], LatestActive(w.holds, t, now))])
  }

  function ExpiryLog(t: nat, ids: seq<nat>): seq<HoldAudit> {
    seq(|ids|, i requires 0 <= i < |ids| => LogExpired(t, ids[i]))
  }

  // expireStaleHoldForEventTableWithinTx
  function ExpireTable(w: World, t: nat, now: int): World {
    if t >= |w.tables| then w
    else
      var ids := StaleIds(w.holds, t, now);
      var w1 := ReconcileTable(w.(holds := MarkExpired(w.holds, ids, now)), t, now);
      w1.(audits := w.audits + ExpiryLog(t, ids))
  }

  /******* Requests *******/

  const DEFAULT_HOLD_SECONDS := 600
  const MIN_HOLD_SECONDS := 60
  const MAX_HOLD_SECONDS := 1800

  // None stands for a missing, empty or non-integer setting.
  function HoldDurationSeconds(setting: Option<int>): (seconds: int)
    ensures MIN_HOLD_SECONDS <= seconds <= MAX_HOLD_SECONDS
    ensures setting.Some? && MIN_HOLD_SECONDS <= setting.value <= MAX_HOLD_SECONDS ==> seconds == setting.value
  {
    if setting.None? || setting.value < MIN_HOLD_SECONDS || setting.value > MAX_HOLD_SECONDS
    then DEFAULT_HOLD_SECONDS
    else setting.value
  }

  function Rejected(w: World, t: nat): World { w.(audits := w.audits + [LogRejected(t)]) }

  // The table's stale holds are expired in swept; w is what a rejection keeps.
  function PlaceHold(
    w: World, swept: World, now: int, actor: nat, eventId: nat, t: nat, key: string, setting: Option<int>)
    : (World, Result<nat>)
  {
    if t >= |swept.tables| || Total(swept.holds, ActiveWeight(t, now)) > 0 then (Rejected(w, t), Err(Unavailable))
    else
      var id := |swept.holds|;
      var expiresAt := now + HoldDurationSeconds(setting) * 1000;
      (World(swept.tables[t := swept.tables[t].(status := TableHeld, holdExpiresAt := Some(expiresAt))],
             swept.holds + [Hold(actor, eventId, t, HoldHeld, key, expiresAt, None)],
             swept.audits + [LogCreated(t, id)]),
       Ok(id))
  }

  function CreateHold(
    w: World, now: int, actor: nat, eventId: nat, t: nat, key: string, setting: Option<int>, eligible: bool)
    : (World, Result<nat>)
  {
    if key == "" then (w, Err(InvalidInput))
    else if t >= |w.tables| || w.tables[t].eventId != eventId then (Rejected(w, t), Err(NotFound))
    else if !eligible || w.tables[t].status == TableUnavailable then (Rejected(w, t), Err(InvalidState))
    else
      match FindByKey(w.holds, actor, key)
      case Some(id) =>
        if w.holds[id].eventId != eventId || w.holds[id].tableId != t
        then (Rejected(w, t), Err(IdempotencyConflict))
        else (ExpireTable(w, t, now), Ok(id))
      case None => PlaceHold(w, ExpireTable(w, t, now), now, actor, eventId, t, key, setting)
  }

  function GetOwned(w: World, now: int, id: nat, actor: nat): (World, Result<nat>) {
    if id >= |w.holds| || w.holds[id].actorUserId != actor then (w, Err(NotFound))
    else
      var t := w.holds[id].tableId;
      if w.holds[id].status == HoldHeld && w.holds[id].holdExpiresAt <= now then (ExpireTable(w, t, now), Ok(id))
      else if t >= |w.tables| then (w, Err(NotFound))
      else (ReconcileTable(w, t, now), Ok(id))
  }

  function UpdateTableStatus(w: World, now: int, t: nat, status: TableStatus): (World, Result<nat>) {
    if status == TableHeld then (w, Err(InvalidInput))
    else if t >= |w.tables| then (w, Err(NotFound))
    else if status == TableAvailable && !w.tables[t].venueActive then (w, Err(InvalidInput))
    else
      var w1 := ExpireTable(w, t, now);
      if Total(w1.holds, ActiveWeight(t, now)) > 0 then (w, Err(Unavailable))
      else
        (w1.(tables := w1.tables[t := w1.tables[t].(status := status, holdExpiresAt := None)],
             audits := w1.audits + [LogTableUpdated(t, status)]),
         Ok(t))
  }

  function CreateTable(w: World, eventId: nat, status: Option<TableStatus>, venueActive: bool): (World, Result<nat>) {
    if status == Some(TableHeld) then (w, Err(InvalidInput))
    else
      var initial := if !venueActive then TableUnavailable
                     else if status.Some? then status.value
                     else TableAvailable;
      (w.(tables := w.tables + [EventTable(eventId, initial, None, venueActive)],
          audits := w.audits + [LogTableCreated(|w.tables|)]),
       Ok(|w.tables|))
  }

  // ids of the event's tables, in id order
  function TablesOf(tables: seq<EventTable>, eventId: nat): (ids: seq<nat>)
    ensures forall i :: 0 <= i < |ids| ==> ids[i] < |tables| && tables[ids[i]].eventId == eventId
    ensures forall i, j :: 0 <= i < j < |ids| ==> ids[i] != ids[j]
    ensures forall t :: 0 <= t < |tables| && tables[t].eventId == eventId ==> t in ids
  {
    if |tables| == 0 then []
    else
      var n := |tables| - 1;
      var front := TablesOf(tables[..n], eventId);
      assert forall t :: 0 <= t < n ==> tables[..n][t] == tables[t];
      if tables[n].eventId == eventId then front + [n] else front
  }

  function ExpireTables(w: World, ids: seq<nat>, now: int): World {
    if |ids| == 0 then w else ExpireTable(ExpireTables(w, ids[..|ids| - 1], now), ids[|ids| - 1], now)
  }

  // The visibility checks on the event are one flag.
  function GetAvailability(w: World, now: int, eventId: nat, visible: bool): (World, Result<nat>) {
    if !visible then (w, Err(InvalidState))
    else (ExpireTables(w, TablesOf(w.tables, eventId), now), Ok(eventId))
  }

  /******* Serial runs *******/

  datatype HoldStep =
    | DoCreateHold(at: int, actor: nat, eventId: nat, t: nat, key: string, setting: Option<int>, eligible: bool)
    | DoGetOwned(at: int, id: nat, actor: nat)
    | DoUpdateStatus(at: int, t: nat, status: TableStatus)
    | DoCreateTable(at: int, eventId: nat, wanted: Option<TableStatus>, venueActive: bool)
    | DoGetAvailability(at: int, eventId: nat, visible: bool)

  function Next(w: World, step: HoldStep): World {
    match step
    case DoCreateHold(at, actor, eventId, t, key, setting, eligible) =>
      CreateHold(w, at, actor, eventId, t, key, setting, eligible).0
    case DoGetOwned(at, id, actor) => GetOwned(w, at, id, actor).0
    case DoUpdateStatus(at, t, status) => UpdateTableStatus(w, at, t, status).0
    case DoCreateTable(_, eventId, wanted, venueActive) => CreateTable(w, eventId, wanted, venueActive).0
    case DoGetAvailability(at, eventId, visible) => GetAvailability(w, at, eventId, visible).0
  }

  function Run(w: World, steps: seq<HoldStep>): World {
    if |steps| == 0 then w else Next(Run(w, steps[..|steps| - 1]), steps[|steps| - 1])
  }

  const EMPTY := World([], [], [])
}
