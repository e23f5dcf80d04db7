// Mutual exclusion, coherence of the derived table state, and the audit trail.
module HoldProofs {
  import opened Totals
  import opened Wrappers
  import opened Holds

  /******* Effects of expiry *******/

  lemma ExpiredRow(w: World, t: nat, now: int, i: nat)
    requires t < |w.tables| && i < |w.holds|
    ensures var w' := ExpireTable(w, t, now);
            && |w'.holds| == |w.holds|
            && w'.holds[i] == (if IsStale(w.holds[i], t, now)
                               then w.holds[i].(status := HoldExpired, expiredAt := Some(now))
                               else w.holds[i])
  {
    var ids := StaleIds(w.holds, t, now);
    if i in ids {
      var j :| 0 <= j < |ids| && ids[j] == i;
      assert IsStale(w.holds[ids[j]], t, now);
    }
  }

  // Rows only ever leave HELD.
  ghost predicate OnlyReleases(holds: seq<Hold>, holds': seq<Hold>) {
    && |holds'| == |holds|
    && forall i :: 0 <= i < |holds| ==>
         && holds'[i] == holds[i].(status := holds'[i].status, expiredAt := holds'[i].expiredAt)
         && (holds'[i].status == HoldHeld ==> holds[i].status == HoldHeld)
  }

  lemma ExpireOnlyReleases(w: World, t: nat, now: int)
    ensures OnlyReleases(w.holds, ExpireTable(w, t, now).holds)
    ensures |ExpireTable(w, t, now).tables| == |w.tables|
  {
    if t < |w.tables| {
      forall i | 0 <= i < |w.holds|
        ensures var h, h' := w.holds[i], ExpireTable(w, t, now).holds[i];
                h' == h.(status := h'.status, expiredAt := h'.expiredAt)
                && (h'.status == HoldHeld ==> h.status == HoldHeld)
      {
        ExpiredRow(w, t, now, i);
      }
    }
  }

  lemma {:induction false} NoneActive(holds: seq<Hold>, t: nat, now: int)
    ensures Total(holds, ActiveWeight(t, now)) >= 0
    ensures Total(holds, ActiveWeight(t, now)) == 0
       <==> forall i :: 0 <= i < |holds| ==> !IsActive(holds[i], t, now)
  {
    if |holds| != 0 {
      var n := |holds| - 1;
      NoneActive(holds[..n], t, now);
      assert forall i :: 0 <= i < n ==> holds[..n][i] == holds[i];
    }
  }

  // Expiring the stale rows and counting the active ones leaves no third kind.
  lemma ExpireThenCountPartitions(w: World, t: nat, now: int)
    requires t < |w.tables|
    ensures var w' := ExpireTable(w, t, now);
            Total(w'.holds, ActiveWeight(t, now)) == 0
            <==> forall i :: 0 <= i < |w'.holds| ==> !(w'.holds[i].tableId == t && w'.holds[i].status == HoldHeld)
  {
    var w' := ExpireTable(w, t, now);
    NoneActive(w'.holds, t, now);
    forall i | 0 <= i < |w'.holds| && w'.holds[i].tableId == t && w'.holds[i].status == HoldHeld
      ensures IsActive(w'.holds[i], t, now)
    {
      ExpiredRow(w, t, now, i);
    }
  }

  /******* Mutual exclusion *******/

  ghost predicate OneHeld(holds: seq<Hold>) {
    forall i, j :: 0 <= i < j < |holds| && holds[i].status == HoldHeld && holds[j].status == HoldHeld ==>
      holds[i].tableId != holds[j].tableId
  }

  lemma OnlyReleasesKeepsOneHeld(holds: seq<Hold>, holds': seq<Hold>)
    requires OneHeld(holds) && OnlyReleases(holds, holds')
    ensures OneHeld(holds')
  {
  }

  ghost predicate NoneHeld(holds: seq<Hold>, t: nat) {
    forall i :: 0 <= i < |holds| ==> !(holds[i].tableId == t && holds[i].status == HoldHeld)
  }

  // The new row goes onto a table that has no HELD row left.
  ghost predicate Creates(w: World, w': World, t: nat, h: Hold) {
    && t < |w.tables| && NoneHeld(w.holds, t)
    && h.tableId == t && h.status == HoldHeld
    && w'.holds == w.holds + [h]
    && w'.tables == w.tables[t := w.tables[t].(status := TableHeld, holdExpiresAt := Some(h.holdExpiresAt))]
    && w'.audits == w.audits + [LogCreated(t, |w.holds|)]
  }

  lemma AcceptedTableIsFree(w: World, t: nat, now: int)
    requires t < |w.tables| && Total(ExpireTable(w, t, now).holds, ActiveWeight(t, now)) <= 0
    ensures NoneHeld(ExpireTable(w, t, now).holds, t)
  {
    ExpireThenCountPartitions(w, t, now);
    NoneActive(ExpireTable(w, t, now).holds, t, now);
  }

  lemma PlaceCreates(
    w: World, swept: World, now: int, actor: nat, eventId: nat, t: nat, key: string, setting: Option<int>)
    requires PlaceHold(w, swept, now, actor, eventId, t, key, setting).1.Ok?
    requires NoneHeld(swept.holds, t)
    ensures var (w', out) := PlaceHold(w, swept, now, actor, eventId, t, key, setting);
            && out.value == |swept.holds| < |w'.holds|
            && w'.holds[|swept.holds|] == Hold(actor, eventId, t, HoldHeld, key,
                                               now + HoldDurationSeconds(setting) * 1000, None)
            && Creates(swept, w', t, w'.holds[|swept.holds|])
  {
  }

  lemma CreateHoldFresh(
    w: World, now: int, actor: nat, eventId: nat, t: nat, key: string, setting: Option<int>, eligible: bool)
    requires FindByKey(w.holds, actor, key).None?
    requires CreateHold(w, now, actor, eventId, t, key, setting, eligible).1.Ok?
    ensures var (w', out) := CreateHold(w, now, actor, eventId, t, key, setting, eligible);
            && out.value == |w.holds| < |w'.holds|
            && w'.holds[|w.holds|] == Hold(actor, eventId, t, HoldHeld, key,
                                           now + HoldDurationSeconds(setting) * 1000, None)
            && Creates(ExpireTable(w, t, now), w', t, w'.holds[|w.holds|])
  {
    ExpireOnlyReleases(w, t, now);
    AcceptedTableIsFree(w, t, now);
    PlaceCreates(w, ExpireTable(w, t, now), now, actor, eventId, t, key, setting);
  }

  lemma CreateHoldCases(
    w: World, now: int, actor: nat, eventId: nat, t: nat, key: string, setting: Option<int>, eligible: bool)
    ensures var (w', out) := CreateHold(w, now, actor, eventId, t, key, setting, eligible);
            && (out.Err? ==> w'.tables == w.tables && w'.holds == w.holds)
            && (out.Ok? && out.value < |w.holds| ==> w' == ExpireTable(w, t, now))
            && (out.Ok? && out.value >= |w.holds| ==>
                  out.value == |w.holds| < |w'.holds|
                  && Creates(ExpireTable(w, t, now), w', t, w'.holds[|w.holds|]))
  {
    if FindByKey(w.holds, actor, key).None?
       && CreateHold(w, now, actor, eventId, t, key, setting, eligible).1.Ok?
    {
      CreateHoldFresh(w, now, actor, eventId, t, key, setting, eligible);
    }
  }

  lemma CreatesKeepsOneHeld(w: World, w': World, t: nat, h: Hold)
    requires OneHeld(w.holds) && Creates(w, w', t, h)
    ensures OneHeld(w'.holds)
  {
  }

  lemma CreateHoldKeepsOneHeld(
    w: World, now: int, actor: nat, eventId: nat, t: nat, key: string, setting: Option<int>, eligible: bool)
    requires OneHeld(w.holds)
    ensures OneHeld(CreateHold(w, now, actor, eventId, t, key, setting, eligible).0.holds)
  {
    CreateHoldCases(w, now, actor, eventId, t, key, setting, eligible);
    var (w', out) := CreateHold(w, now, actor, eventId, t, key, setting, eligible);
    if out.Ok? {
      var w1 := ExpireTable(w, t, now);
      ExpireOnlyReleases(w, t, now);
      OnlyReleasesKeepsOneHeld(w.holds, w1.holds);
      if out.value >= |w.holds| { CreatesKeepsOneHeld(w1, w', t, w'.holds[|w.holds|]); }
    }
  }

  lemma {:induction false} ExpireTablesReleases(w: World, ids: seq<nat>, now: int)
    ensures OnlyReleases(w.holds, ExpireTables(w, ids, now).holds)
    ensures |ExpireTables(w, ids, now).tables| == |w.tables|
  {
    if |ids| != 0 {
      ExpireTablesReleases(w, ids[..|ids| - 1], now);
      ExpireOnlyReleases(ExpireTables(w, ids[..|ids| - 1], now), ids[|ids| - 1], now);
    }
  }

  lemma GetOwnedReleases(w: World, at: int, id: nat, actor: nat)
    ensures OnlyReleases(w.holds, GetOwned(w, at, id, actor).0.holds)
  {
    if id < |w.holds| { ExpireOnlyReleases(w, w.holds[id].tableId, at); }
  }

  lemma UpdateReleases(w: World, at: int, t: nat, status: TableStatus)
    ensures OnlyReleases(w.holds, UpdateTableStatus(w, at, t, status).0.holds)
  {
    ExpireOnlyReleases(w, t, at);
  }

  lemma StepReleases(w: World, step: HoldStep)
    requires !step.DoCreateHold?
    ensures OnlyReleases(w.holds, Next(w, step).holds)
  {
    match step
    case DoGetOwned(at, id, actor) => GetOwnedReleases(w, at, id, actor);
    case DoUpdateStatus(at, t, status) => UpdateReleases(w, at, t, status);
    case DoGetAvailability(at, eventId, visible) => ExpireTablesReleases(w, TablesOf(w.tables, eventId), at);
    case _ =>
  }

  lemma StepKeepsOneHeld(w: World, step: HoldStep)
    requires OneHeld(w.holds)
    ensures OneHeld(Next(w, step).holds)
  {
    if step.DoCreateHold? {
      CreateHoldKeepsOneHeld(w, step.at, step.actor, step.eventId, step.t, step.key, step.setting, step.eligible);
    } else {
      StepReleases(w, step);
      OnlyReleasesKeepsOneHeld(w.holds, Next(w, step).holds);
    }
  }

  /******* Unlocked readers *******/

  // getOwnedReservation takes no row lock. It reads the reservation, the table row,
  // the stale rows if its own has lapsed, and the latest active hold; between these
  // and its commit any other request may commit.
  datatype Reader =
    | Reading(now: int, t: nat, lapsed: bool)
    | Seeing(now: int, t: nat, lapsed: bool, seen: EventTable)
    | Listed(now: int, t: nat, seen: EventTable, stale: seq<nat>)
    | Decided(now: int, t: nat, seen: EventTable, stale: seq<nat>, next: EventTable)

  datatype Conc = Conc(w: World, readers: map<nat, Reader>)

  datatype ConcStep =
    | Atomic(step: HoldStep)
    | Begin(pid: nat, at: int, id: nat, actor: nat)
    | SeeTable(pid: nat)
    | ListStale(pid: nat)
    | Decide(pid: nat)
    | Commit(pid: nat)

  // Status and holdExpiresAt are written only when they differ from what was read.
  function WriteState(tables: seq<EventTable>, t: nat, seen: EventTable, next: EventTable): seq<EventTable> {
    if t < |tables| && next != seen
    then tables[t := tables[t].(status := next.status, holdExpiresAt := next.holdExpiresAt)]
    else tables
  }

  function ConcNext(c: Conc, step: ConcStep): Conc {
    match step
    case Atomic(s) => c.(w := Next(c.w, s))
    case Begin(pid, at, id, actor) =>
      if pid in c.readers || id >= |c.w.holds| || c.w.holds[id].actorUserId != actor
         || c.w.holds[id].tableId >= |c.w.tables| then c
      else
        var h := c.w.holds[id];
        c.(readers := c.readers[pid := Reading(at, h.tableId, h.status == HoldHeld && h.holdExpiresAt <= at)])
    case SeeTable(pid) =>
      if pid in c.readers && c.readers[pid].Reading? && c.readers[pid].t < |c.w.tables| then
        var r := c.readers[pid];
        c.(readers := c.readers[pid := Seeing(r.now, r.t, r.lapsed, c.w.tables[r.t])])
      else c
    case ListStale(pid) =>
      if pid in c.readers && c.readers[pid].Seeing? then
        var r := c.readers[pid];
        var stale := if r.lapsed then StaleIds(c.w.holds, r.t, r.now) else [];
        c.(readers := c.readers[pid := Listed(r.now, r.t, r.seen, stale)])
      else c
    case Decide(pid) =>
      if pid in c.readers && c.readers[pid].Listed? then
        var r := c.readers[pid];
        var next := Reconciled(r.seen, LatestActive(c.w.holds, r.t, r.now));
        c.(readers := c.readers[pid := Decided(r.now, r.t, r.seen, r.stale, next)])
      else c
    case Commit(pid) =>
      if pid in c.readers && c.readers[pid].Decided? then
        var r := c.readers[pid];
        Conc(World(WriteState(c.w.tables, r.t, r.seen, r.next),
                   MarkExpired(c.w.holds, r.stale, r.now),
                   c.w.audits + ExpiryLog(r.t, r.stale)),
             c.readers - {pid})
      else c
  }

  function ConcRun(c: Conc, steps: seq<ConcStep>): Conc {
    if |steps| == 0 then c else ConcNext(ConcRun(c, steps[..|steps| - 1]), steps[|steps| - 1])
  }

  lemma ReadsKeepWorld(c: Conc, step: ConcStep)
    requires !step.Atomic? && !step.Commit?
    ensures ConcNext(c, step).w == c.w
  {
  }

  lemma CommitKeepsOneHeld(c: Conc, pid: nat)
    requires OneHeld(c.w.holds)
    ensures OneHeld(ConcNext(c, Commit(pid)).w.holds)
  {
    if pid in c.readers && c.readers[pid].Decided? {
      OnlyReleasesKeepsOneHeld(c.w.holds, MarkExpired(c.w.holds, c.readers[pid].stale, c.readers[pid].now));
    }
  }

  lemma ConcStepKeepsOneHeld(c: Conc, step: ConcStep)
    requires OneHeld(c.w.holds)
    ensures OneHeld(ConcNext(c, step).w.holds)
  {
    match step
    case Atomic(s) => StepKeepsOneHeld(c.w, s);
    case Commit(pid) => CommitKeepsOneHeld(c, pid);
    case _ => ReadsKeepWorld(c, step);
  }

  // At most one HELD row per table in every reachable state, for arbitrary clock
  // readings on every request and any interleaving of unlocked readers.
  lemma {:induction false} HoldsExcludeEachOther(steps: seq<ConcStep>)
    ensures OneHeld(ConcRun(Conc(EMPTY, map[]), steps).w.holds)
  {
    if |steps| != 0 {
      HoldsExcludeEachOther(steps[..|steps| - 1]);
      ConcStepKeepsOneHeld(ConcRun(Conc(EMPTY, map[]), steps[..|steps| - 1]), steps[|steps| - 1]);
    }
  }

  /******* Coherence over serial runs *******/

  ghost predicate Backed(w: World, t: nat)
    requires t < |w.tables|
  {
    exists i :: 0 <= i < |w.holds| && w.holds[i].tableId == t && w.holds[i].status == HoldHeld
                && w.tables[t].holdExpiresAt == Some(w.holds[i].holdExpiresAt)
  }

  // Coherent at a time: an unexpired hold forces the table HELD with its expiry,
  // and a HELD table shows the expiry of a HELD row.
  ghost predicate Coherent(w: World, at: int) {
    && (forall i :: 0 <= i < |w.holds| && w.holds[i].status == HoldHeld && w.holds[i].holdExpiresAt > at ==>
          && w.holds[i].tableId < |w.tables|
          && w.tables[w.holds[i].tableId].status == TableHeld
          && w.tables[w.holds[i].tableId].holdExpiresAt == Some(w.holds[i].holdExpiresAt))
    && (forall t :: 0 <= t < |w.tables| && w.tables[t].status == TableHeld ==> Backed(w, t))
  }

  lemma CoherentLater(w: World, at: int, later: int)
    requires Coherent(w, at) && at <= later
    ensures Coherent(w, later)
  {
  }

  // Coherent in every table but t.
  ghost predicate CoherentExcept(w: World, t: nat, at: int) {
    && (forall i :: 0 <= i < |w.holds| && w.holds[i].status == HoldHeld && w.holds[i].holdExpiresAt > at
                    && w.holds[i].tableId != t ==>
          && w.holds[i].tableId < |w.tables|
          && w.tables[w.holds[i].tableId].status == TableHeld
          && w.tables[w.holds[i].tableId].holdExpiresAt == Some(w.holds[i].holdExpiresAt))
    && (forall u :: 0 <= u < |w.tables| && u != t && w.tables[u].status == TableHeld ==> Backed(w, u))
  }

  // Reconciling one table restores it and disturbs no other.
  lemma ReconcileKeepsCoherent(w: World, t: nat, now: int)
    requires t < |w.tables| && OneHeld(w.holds) && CoherentExcept(w, t, now)
    ensures Coherent(ReconcileTable(w, t, now), now)
  {
    var w' := ReconcileTable(w, t, now);
    var latest := LatestActive(w.holds, t, now);
    forall i | 0 <= i < |w.holds| && w.holds[i].status == HoldHeld && w.holds[i].holdExpiresAt > now
      ensures w.holds[i].tableId < |w'.tables|
              && w'.tables[w.holds[i].tableId].status == TableHeld
              && w'.tables[w.holds[i].tableId].holdExpiresAt == Some(w.holds[i].holdExpiresAt)
    {
      if w.holds[i].tableId == t {
        assert IsActive(w.holds[i], t, now);
        var j :| 0 <= j < |w.holds| && IsActive(w.holds[j], t, now) && w.holds[j].holdExpiresAt == latest.value;
        assert i == j;
      }
    }
    forall u | 0 <= u < |w'.tables| && w'.tables[u].status == TableHeld ensures Backed(w', u) {
      if u == t {
        var j :| 0 <= j < |w.holds| && IsActive(w.holds[j], t, now) && w.holds[j].holdExpiresAt == latest.value;
        assert w'.holds[j].status == HoldHeld;
      } else {
        assert Backed(w, u);
        var j :| 0 <= j < |w.holds| && w.holds[j].tableId == u && w.holds[j].status == HoldHeld
                 && w.tables[u].holdExpiresAt == Some(w.holds[j].holdExpiresAt);
        assert w'.holds[j] == w.holds[j] && w'.tables[u] == w.tables[u];
      }
    }
  }

  lemma SameRowsCoherent(w: World, w': World, at: int)
    requires Coherent(w, at) && w'.tables == w.tables && w'.holds == w.holds
    ensures Coherent(w', at)
  {
    forall t | 0 <= t < |w'.tables| && w'.tables[t].status == TableHeld ensures Backed(w', t) {
      assert Backed(w, t);
    }
  }

  lemma ExpireKeepsCoherent(w: World, t: nat, now: int)
    requires OneHeld(w.holds) && Coherent(w, now)
    ensures Coherent(ExpireTable(w, t, now), now) && OneHeld(ExpireTable(w, t, now).holds)
  {
    ExpireOnlyReleases(w, t, now);
    OnlyReleasesKeepsOneHeld(w.holds, ExpireTable(w, t, now).holds);
    if t < |w.tables| {
      var w1 := w.(holds := MarkExpired(w.holds, StaleIds(w.holds, t, now), now));
      assert w1.holds == ExpireTable(w, t, now).holds;
      forall u | 0 <= u < |w1.tables| && u != t && w1.tables[u].status == TableHeld ensures Backed(w1, u) {
        assert Backed(w, u);
        var j :| 0 <= j < |w.holds| && w.holds[j].tableId == u && w.holds[j].status == HoldHeld
                 && w.tables[u].holdExpiresAt == Some(w.holds[j].holdExpiresAt);
        ExpiredRow(w, t, now, j);
        assert w1.holds[j] == w.holds[j];
      }
      assert CoherentExcept(w1, t, now);
      ReconcileKeepsCoherent(w1, t, now);
      SameRowsCoherent(ReconcileTable(w1, t, now), ExpireTable(w, t, now), now);
    }
  }

  lemma {:induction false} ExpireTablesKeepsCoherent(w: World, ids: seq<nat>, now: int)
    requires OneHeld(w.holds) && Coherent(w, now)
    ensures Coherent(ExpireTables(w, ids, now), now) && OneHeld(ExpireTables(w, ids, now).holds)
  {
    if |ids| != 0 {
      ExpireTablesKeepsCoherent(w, ids[..|ids| - 1], now);
      ExpireKeepsCoherent(ExpireTables(w, ids[..|ids| - 1], now), ids[|ids| - 1], now);
    }
  }

  // Overwriting a table none of whose rows is HELD.
  lemma FreeTableCoherent(w: World, w': World, t: nat, at: int)
    requires Coherent(w, at) && t < |w.tables| && w'.holds == w.holds
    requires |w'.tables| == |w.tables| && w'.tables[t].status != TableHeld
    requires forall u :: 0 <= u < |w.tables| && u != t ==> w'.tables[u] == w.tables[u]
    requires forall i :: 0 <= i < |w.holds| ==> !(w.holds[i].tableId == t && w.holds[i].status == HoldHeld)
    ensures Coherent(w', at)
  {
    forall u | 0 <= u < |w'.tables| && w'.tables[u].status == TableHeld ensures Backed(w', u) {
      assert Backed(w, u);
    }
  }

  lemma NewHoldCoherent(w: World, w': World, t: nat, h: Hold, at: int)
    requires Coherent(w, at) && Creates(w, w', t, h)
    ensures Coherent(w', at)
  {
    forall u | 0 <= u < |w'.tables| && w'.tables[u].status == TableHeld ensures Backed(w', u) {
      if u == t {
        assert w'.holds[|w.holds|] == h;
      } else {
        assert Backed(w, u);
        var j :| 0 <= j < |w.holds| && w.holds[j].tableId == u && w.holds[j].status == HoldHeld
                 && w.tables[u].holdExpiresAt == Some(w.holds[j].holdExpiresAt);
        assert w'.holds[j] == w.holds[j];
      }
    }
  }

  lemma CreateHoldKeepsCoherent(
    w: World, now: int, actor: nat, eventId: nat, t: nat, key: string, setting: Option<int>, eligible: bool)
    requires OneHeld(w.holds) && Coherent(w, now)
    ensures Coherent(CreateHold(w, now, actor, eventId, t, key, setting, eligible).0, now)
  {
    CreateHoldCases(w, now, actor, eventId, t, key, setting, eligible);
    var (w', out) := CreateHold(w, now, actor, eventId, t, key, setting, eligible);
    if out.Err? {
      SameRowsCoherent(w, w', now);
    } else {
      ExpireKeepsCoherent(w, t, now);
      if out.value >= |w.holds| {
        NewHoldCoherent(ExpireTable(w, t, now), w', t, w'.holds[|w.holds|], now);
      }
    }
  }

  lemma UpdateStatusKeepsCoherent(w: World, now: int, t: nat, status: TableStatus)
    requires OneHeld(w.holds) && Coherent(w, now)
    ensures Coherent(UpdateTableStatus(w, now, t, status).0, now)
  {
    var (w', out) := UpdateTableStatus(w, now, t, status);
    if out.Ok? {
      var w1 := ExpireTable(w, t, now);
      ExpireKeepsCoherent(w, t, now);
      ExpireOnlyReleases(w, t, now);
      ExpireThenCountPartitions(w, t, now);
      NoneActive(w1.holds, t, now);
      FreeTableCoherent(w1, w', t, now);
    }
  }

  lemma CreateTableKeepsCoherent(w: World, eventId: nat, wanted: Option<TableStatus>, venueActive: bool, at: int)
    requires Coherent(w, at)
    ensures Coherent(CreateTable(w, eventId, wanted, venueActive).0, at)
  {
    var w' := CreateTable(w, eventId, wanted, venueActive).0;
    forall t | 0 <= t < |w'.tables| && w'.tables[t].status == TableHeld ensures Backed(w', t) {
      assert t < |w.tables|;
      assert Backed(w, t);
    }
  }

  lemma GetOwnedKeepsCoherent(w: World, at: int, id: nat, actor: nat)
    requires OneHeld(w.holds) && Coherent(w, at)
    ensures Coherent(GetOwned(w, at, id, actor).0, at)
  {
    if id < |w.holds| {
      ExpireKeepsCoherent(w, w.holds[id].tableId, at);
      if w.holds[id].tableId < |w.tables| { ReconcileKeepsCoherent(w, w.holds[id].tableId, at); }
    }
  }

  lemma StepKeepsCoherent(w: World, step: HoldStep)
    requires OneHeld(w.holds) && Coherent(w, step.at)
    ensures Coherent(Next(w, step), step.at)
  {
    match step
    case DoCreateHold(at, actor, eventId, t, key, setting, eligible) =>
      CreateHoldKeepsCoherent(w, at, actor, eventId, t, key, setting, eligible);
    case DoGetOwned(at, id, actor) => GetOwnedKeepsCoherent(w, at, id, actor);
    case DoUpdateStatus(at, t, status) => UpdateStatusKeepsCoherent(w, at, t, status);
    case DoCreateTable(at, eventId, wanted, venueActive) =>
      CreateTableKeepsCoherent(w, eventId, wanted, venueActive, at);
    case DoGetAvailability(at, eventId, visible) => ExpireTablesKeepsCoherent(w, TablesOf(w.tables, eventId), at);
  }

  // Clock readings that never go back and end no later than the given time.
  ghost predicate Monotone(steps: seq<HoldStep>, at: int) {
    && (forall i, j :: 0 <= i < j < |steps| ==> steps[i].at <= steps[j].at)
    && (forall i :: 0 <= i < |steps| ==> steps[i].at <= at)
  }

  // Serial requests on a monotone clock keep every table's derived state right,
  // even when reconcile runs without expiry for another reservation.
  lemma {:induction false} TableStateCoherent(steps: seq<HoldStep>, at: int)
    requires Monotone(steps, at)
    ensures Coherent(Run(EMPTY, steps), at) && OneHeld(Run(EMPTY, steps).holds)
  {
    if |steps| != 0 {
      var n := |steps| - 1;
      var w := Run(EMPTY, steps[..n]);
      TableStateCoherent(steps[..n], steps[n].at);
      StepKeepsCoherent(w, steps[n]);
      StepKeepsOneHeld(w, steps[n]);
      CoherentLater(Run(EMPTY, steps), steps[n].at, at);
    }
  }
}
