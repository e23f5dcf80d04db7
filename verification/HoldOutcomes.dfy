// What each table request accepts, answers and writes, on the rows.
module HoldOutcomes {
  import opened Totals
  import opened Wrappers
  import opened Holds
  import opened HoldProofs
  import opened HoldAudits

  /******* Occupied tables *******/

  // An unexpired HELD row; one that expires at this very instant is none.
  predicate Occupied(holds: seq<Hold>, t: nat, now: int) {
    exists i :: 0 <= i < |holds|
                && holds[i].tableId == t && holds[i].status == HoldHeld && holds[i].holdExpiresAt > now
  }

  lemma OccupiedIsActive(holds: seq<Hold>, t: nat, now: int)
    ensures Occupied(holds, t, now) <==> HasActive(holds, t, now)
  {
    if Occupied(holds, t, now) {
      var i :| 0 <= i < |holds|
               && holds[i].tableId == t && holds[i].status == HoldHeld && holds[i].holdExpiresAt > now;
      assert IsActive(holds[i], t, now);
    }
  }

  // Counting the active holds after expiring the stale ones tells whether the table
  // was occupied to begin with.
  lemma SweptCountTells(w: World, t: nat, now: int)
    requires t < |w.tables|
    ensures Total(ExpireTable(w, t, now).holds, ActiveWeight(t, now)) > 0 <==> Occupied(w.holds, t, now)
  {
    var w' := ExpireTable(w, t, now);
    NoneActive(w'.holds, t, now);
    OccupiedIsActive(w.holds, t, now);
    ExpireOneExact(w, t, now);
    assert ActiveAlike(w.holds, w'.holds, t, now);
    RightTableAlike(w.tables[t], w'.tables[t], w.holds, w'.holds, t, now);
  }

  /******* Placing a hold *******/

  predicate Unused(holds: seq<Hold>, actor: nat, key: string) {
    forall i :: 0 <= i < |holds| ==> holds[i].actorUserId != actor || holds[i].idempotencyKey != key
  }

  // A first request is accepted exactly when it carries a key, the table is the
  // event's, the event may be held, the table is not out of service, and nobody
  // holds it at the moment.
  lemma FreshHoldIff(
    w: World, now: int, actor: nat, eventId: nat, t: nat, key: string, setting: Option<int>, eligible: bool)
    requires Unused(w.holds, actor, key)
    ensures CreateHold(w, now, actor, eventId, t, key, setting, eligible).1.Ok?
       <==> key != "" && t < |w.tables| && w.tables[t].eventId == eventId && eligible
            && w.tables[t].status != TableUnavailable && !Occupied(w.holds, t, now)
  {
    if t < |w.tables| {
      SweptCountTells(w, t, now);
      ExpireOnlyReleases(w, t, now);
    }
  }

  // A key that was used is answered exactly when it was used for this table.
  lemma UsedKeyIff(
    w: World, now: int, actor: nat, eventId: nat, t: nat, key: string, setting: Option<int>, eligible: bool, id: nat)
    requires KeysUnique(w.holds) && id < |w.holds|
    requires w.holds[id].actorUserId == actor && w.holds[id].idempotencyKey == key
    ensures var (w', out) := CreateHold(w, now, actor, eventId, t, key, setting, eligible);
            && (out.Ok? <==> key != "" && t < |w.tables| && w.tables[t].eventId == eventId && eligible
                             && w.tables[t].status != TableUnavailable
                             && w.holds[id].eventId == eventId && w.holds[id].tableId == t)
            && (out.Ok? ==> out == Ok(id) && ExactlyExpired(w, w', [t], now))
  {
    assert FindByKey(w.holds, actor, key) == Some(id);
    if t < |w.tables| { ExpireOneExact(w, t, now); }
  }

  lemma UsedOrFree(
    w: World, now: int, actor: nat, eventId: nat, t: nat, key: string, setting: Option<int>, eligible: bool)
    requires t < |w.tables| && w.tables[t].eventId == eventId && eligible && w.tables[t].status != TableUnavailable
    requires key != "" && CreateHold(w, now, actor, eventId, t, key, setting, eligible).1.Err?
    ensures CreateHold(w, now, actor, eventId, t, key, setting, eligible)
            == (Rejected(w, t), Err(if Unused(w.holds, actor, key) then Unavailable else IdempotencyConflict))
  {
    assert Unused(w.holds, actor, key) <==> FindByKey(w.holds, actor, key).None?;
  }

  // Every refusal leaves tables and holds alone and, unless the key is missing, is
  // logged; and this is its reason.
  lemma HoldRefusal(
    w: World, now: int, actor: nat, eventId: nat, t: nat, key: string, setting: Option<int>, eligible: bool)
    requires CreateHold(w, now, actor, eventId, t, key, setting, eligible).1.Err?
    ensures var (w', out) := CreateHold(w, now, actor, eventId, t, key, setting, eligible);
            && w'.tables == w.tables && w'.holds == w.holds
            && w'.audits == w.audits + (if key == "" then [] else [LogRejected(t)])
            && out.error ==
               if key == "" then InvalidInput
               else if t >= |w.tables| || w.tables[t].eventId != eventId then NotFound
               else if !eligible || w.tables[t].status == TableUnavailable then InvalidState
               else if Unused(w.holds, actor, key) then Unavailable
               else IdempotencyConflict
  {
    if t < |w.tables| && w.tables[t].eventId == eventId && eligible && w.tables[t].status != TableUnavailable
       && key != ""
    {
      UsedOrFree(w, now, actor, eventId, t, key, setting, eligible);
    }
  }

  // How long a hold lasts: the setting if it lies between one minute and thirty, or
  // ten minutes.
  function HoldSeconds(setting: Option<int>): int {
    if setting.Some? && 60 <= setting.value <= 1800 then setting.value else 600
  }

  ghost predicate PlacedOver(w: World, w': World, t: nat, now: int, h: Hold) {
    && |w'.holds| == |w.holds| + 1 && w'.holds[|w.holds|] == h
    && (forall i :: 0 <= i < |w.holds| ==> w'.holds[i] == Swept(w.holds[i], t, now))
    && t < |w.tables| == |w'.tables|
    && w'.tables[t] == w.tables[t].(status := TableHeld, holdExpiresAt := Some(h.holdExpiresAt))
    && (forall u :: 0 <= u < |w.tables| && u != t ==> w'.tables[u] == w.tables[u])
  }

  lemma CreatedOver(w: World, w1: World, w': World, t: nat, now: int, h: Hold)
    requires t < |w.tables| && ExactlyExpired(w, w1, [t], now) && Creates(w1, w', t, h)
    ensures PlacedOver(w, w', t, now, h)
  {
    assert RightTable(w.tables[t], w1.tables[t], w.holds, t, now);
    forall i | 0 <= i < |w.holds| ensures w1.holds[i] == Swept(w.holds[i], t, now) { }
  }

  lemma HoldLasts(setting: Option<int>)
    ensures HoldDurationSeconds(setting) == HoldSeconds(setting)
  {
  }

  // The new hold takes the table until it ends; stale holds of that table expire,
  // and nothing else changes.
  lemma FreshHoldWrites(
    w: World, now: int, actor: nat, eventId: nat, t: nat, key: string, setting: Option<int>, eligible: bool)
    requires Unused(w.holds, actor, key)
    requires CreateHold(w, now, actor, eventId, t, key, setting, eligible).1.Ok?
    ensures var (w', out) := CreateHold(w, now, actor, eventId, t, key, setting, eligible);
            && out == Ok(|w.holds|)
            && PlacedOver(w, w', t, now,
                          Hold(actor, eventId, t, HoldHeld, key, now + 1000 * HoldSeconds(setting), None))
  {
    var (w', out) := CreateHold(w, now, actor, eventId, t, key, setting, eligible);
    FreshHoldIff(w, now, actor, eventId, t, key, setting, eligible);
    CreateHoldFresh(w, now, actor, eventId, t, key, setting, eligible);
    HoldLasts(setting);
    ExpireOneExact(w, t, now);
    CreatedOver(w, ExpireTable(w, t, now), w', t, now, w'.holds[|w.holds|]);
  }

  // On a sweep of one table: whose hold is expired, on whose clock.
  lemma SweptRow(h: Hold, t: nat, now: int)
    ensures h.tableId == t && h.status == HoldHeld && h.holdExpiresAt <= now ==>
              Swept(h, t, now) == h.(status := HoldExpired, expiredAt := Some(now))
    ensures h.tableId != t || h.status != HoldHeld || h.holdExpiresAt > now ==> Swept(h, t, now) == h
  {
  }

  /******* Reading one's own *******/

  lemma OwnHoldIff(w: World, now: int, id: nat, actor: nat)
    ensures var (w', out) := GetOwned(w, now, id, actor);
            var mine := id < |w.holds| && w.holds[id].actorUserId == actor;
            && (out.Ok? <==> mine && (w.holds[id].tableId < |w.tables|
                                      || (w.holds[id].status == HoldHeld && w.holds[id].holdExpiresAt <= now)))
            && (out.Ok? ==> out == Ok(id)) && (out.Err? ==> out.error == NotFound && w' == w)
  {
  }

  // It brings the table's state up to date, and expires the table's stale holds
  // exactly when the hold asked for is one of them.
  lemma OwnHoldWrites(w: World, now: int, id: nat, actor: nat)
    requires id < |w.holds| && w.holds[id].actorUserId == actor && w.holds[id].tableId < |w.tables|
    ensures var w' := GetOwned(w, now, id, actor).0; var t := w.holds[id].tableId;
            && |w'.tables| == |w.tables| && |w'.holds| == |w.holds|
            && RightTable(w.tables[t], w'.tables[t], w.holds, t, now)
            && (forall u :: 0 <= u < |w.tables| && u != t ==> w'.tables[u] == w.tables[u])
            && if w.holds[id].status == HoldHeld && w.holds[id].holdExpiresAt <= now
               then forall i :: 0 <= i < |w.holds| ==> w'.holds[i] == Swept(w.holds[i], t, now)
               else w'.holds == w.holds && w'.audits == w.audits
  {
    ExpireOneExact(w, w.holds[id].tableId, now);
    ReconciledIsRight(w, w.holds[id].tableId, now);
  }

  /******* Managing tables *******/

  // A manager may not set HELD by hand, may not open a table whose place is out of
  // use, and may not touch one that is held.
  lemma UpdateStatusIff(w: World, now: int, t: nat, status: TableStatus)
    ensures UpdateTableStatus(w, now, t, status).1.Ok?
       <==> status != TableHeld && t < |w.tables| && (status == TableAvailable ==> w.tables[t].venueActive)
            && !Occupied(w.holds, t, now)
  {
    if t < |w.tables| {
      SweptCountTells(w, t, now);
      ExpireOnlyReleases(w, t, now);
    }
  }

  lemma UpdateStatusWrites(w: World, now: int, t: nat, status: TableStatus)
    ensures var (w', out) := UpdateTableStatus(w, now, t, status);
            && (out.Err? ==>
                  && w' == w
                  && out.error == if status == TableHeld then InvalidInput
                                  else if t >= |w.tables| then NotFound
                                  else if status == TableAvailable && !w.tables[t].venueActive then InvalidInput
                                  else Unavailable)
            && (out.Ok? ==>
                  && out == Ok(t) && t < |w.tables|
                  && w'.tables == w.tables[t := w.tables[t].(status := status, holdExpiresAt := None)]
                  && |w'.holds| == |w.holds|
                  && (forall i :: 0 <= i < |w.holds| ==> w'.holds[i] == Swept(w.holds[i], t, now))
                  && |w'.audits| > |w.audits| && w'.audits[..|w.audits|] == w.audits
                  && w'.audits[|w'.audits| - 1] == LogTableUpdated(t, status))
  {
    if UpdateTableStatus(w, now, t, status).1.Ok? { ExpireOneExact(w, t, now); }
  }

  lemma CreateTableWrites(w: World, eventId: nat, wanted: Option<TableStatus>, venueActive: bool)
    ensures var (w', out) := CreateTable(w, eventId, wanted, venueActive);
            && (out.Ok? <==> wanted != Some(TableHeld))
            && (out.Err? ==> out.error == InvalidInput && w' == w)
            && (out.Ok? ==>
                  && out == Ok(|w.tables|) && w'.holds == w.holds
                  && |w'.tables| == |w.tables| + 1 && w'.tables[..|w.tables|] == w.tables
                  && w'.audits == w.audits + [LogTableCreated(|w.tables|)]
                  && var n := w'.tables[|w.tables|];
                     && n.eventId == eventId && n.venueActive == venueActive && n.holdExpiresAt.None?
                     && (n.status == TableAvailable <==> venueActive && wanted != Some(TableUnavailable))
                     && (n.status == TableUnavailable <==> !venueActive || wanted == Some(TableUnavailable)))
  {
  }
}
