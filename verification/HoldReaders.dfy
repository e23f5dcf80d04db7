// What readers that take no lock do to the audit trail and to the tables' derived
// state, and exactly when. Row locks forbid some of the interleavings allowed
// here; the runs at the end are ones they permit.
module HoldReaders {
  import opened Totals
  import opened Wrappers
  import opened Holds
  import opened HoldProofs
  import opened HoldAudits

  const START := Conc(EMPTY, map[])

  predicate Commits(c: Conc, step: ConcStep) {
    step.Commit? && step.pid in c.readers && c.readers[step.pid].Decided?
  }

  /******* The audit trail *******/

  // A reader's stale rows are rows of its table, each once.
  ghost predicate StaleOf(holds: seq<Hold>, t: nat, stale: seq<nat>) {
    && (forall i :: 0 <= i < |stale| ==> stale[i] < |holds| && holds[stale[i]].tableId == t)
    && (forall i, j :: 0 <= i < j < |stale| ==> stale[i] != stale[j])
  }

  ghost predicate ReaderSound(w: World, r: Reader) {
    && r.t < |w.tables|
    && (r.Listed? || r.Decided? ==> StaleOf(w.holds, r.t, r.stale))
  }

  ghost predicate ReadersSound(c: Conc) {
    forall p :: p in c.readers ==> ReaderSound(c.w, c.readers[p])
  }

  lemma ExpireOneKeepsTables(w: World, t: nat, at: int)
    ensures |ExpireTable(w, t, at).tables| == |w.tables|
  {
  }

  lemma CreateKeepsTables(
    w: World, at: int, actor: nat, eventId: nat, t: nat, key: string, setting: Option<int>, eligible: bool)
    ensures |CreateHold(w, at, actor, eventId, t, key, setting, eligible).0.tables| == |w.tables|
  {
    CreateHoldCases(w, at, actor, eventId, t, key, setting, eligible);
    ExpireOneKeepsTables(w, t, at);
  }

  lemma UpdateKeepsTables(w: World, at: int, t: nat, status: TableStatus)
    ensures |UpdateTableStatus(w, at, t, status).0.tables| == |w.tables|
  {
    ExpireOneKeepsTables(w, t, at);
  }

  lemma OwnedKeepsTables(w: World, at: int, id: nat, actor: nat)
    ensures |GetOwned(w, at, id, actor).0.tables| == |w.tables|
  {
    if id < |w.holds| { ExpireOneKeepsTables(w, w.holds[id].tableId, at); }
  }

  lemma StepKeepsTables(w: World, step: HoldStep)
    ensures |w.tables| <= |Next(w, step).tables|
  {
    match step
    case DoCreateHold(at, actor, eventId, t, key, setting, eligible) =>
      CreateKeepsTables(w, at, actor, eventId, t, key, setting, eligible);
    case DoGetOwned(at, id, actor) => OwnedKeepsTables(w, at, id, actor);
    case DoUpdateStatus(at, t, status) => UpdateKeepsTables(w, at, t, status);
    case DoCreateTable(_, eventId, wanted, venueActive) =>
    case DoGetAvailability(at, eventId, _) => ExpireTablesReleases(w, TablesOf(w.tables, eventId), at);
  }

  lemma ReaderStaysSound(w: World, w': World, r: Reader)
    requires ReaderSound(w, r) && |w.tables| <= |w'.tables| && Extends(w.holds, w'.holds)
    ensures ReaderSound(w', r)
  {
  }

  lemma CommitExtends(c: Conc, pid: nat)
    ensures Extends(c.w.holds, ConcNext(c, Commit(pid)).w.holds)
    ensures |ConcNext(c, Commit(pid)).w.tables| == |c.w.tables|
  {
  }

  lemma StepKeepsSound(c: Conc, step: ConcStep)
    requires ReadersSound(c)
    ensures ReadersSound(ConcNext(c, step))
  {
    var c' := ConcNext(c, step);
    if step.Atomic? {
      StepExtends(c.w, step.step);
      StepKeepsTables(c.w, step.step);
    } else if step.Commit? {
      CommitExtends(c, step.pid);
    }
    forall p | p in c'.readers ensures ReaderSound(c'.w, c'.readers[p]) {
      if p in c.readers {
        assert ReaderSound(c.w, c.readers[p]);
        if c'.readers[p] == c.readers[p] && (step.Atomic? || step.Commit?) {
          ReaderStaysSound(c.w, c'.w, c.readers[p]);
        }
      }
    }
  }

  lemma {:induction false} ReadersAreSound(steps: seq<ConcStep>)
    ensures ReadersSound(ConcRun(Conc(EMPTY, map[]), steps))
  {
    if |steps| != 0 {
      ReadersAreSound(steps[..|steps| - 1]);
      StepKeepsSound(ConcRun(Conc(EMPTY, map[]), steps[..|steps| - 1]), steps[|steps| - 1]);
    }
  }

  function HeldRow(holds: seq<Hold>): nat -> int {
    (id: nat) => if id < |holds| && holds[id].status == HoldHeld then 1 else 0
  }

  lemma {:induction false} AllHeldIff(holds: seq<Hold>, ids: seq<nat>)
    requires forall i :: 0 <= i < |ids| ==> ids[i] < |holds|
    ensures Total(ids, HeldRow(holds)) <= |ids|
    ensures Total(ids, HeldRow(holds)) == |ids| <==> forall i :: 0 <= i < |ids| ==> holds[ids[i]].status == HoldHeld
  {
    if |ids| != 0 {
      AllHeldIff(holds, ids[..|ids| - 1]);
    }
  }

  lemma MarkOneHeld(holds: seq<Hold>, t: nat, front: seq<nat>, last: nat, now: int, u: nat)
    requires last < |holds| && last !in front && holds[last].tableId == t
    ensures Total(MarkExpired(holds, front + [last], now), HeldWeight(u))
            == Total(MarkExpired(holds, front, now), HeldWeight(u)) - if u == t then HeldRow(holds)(last) else 0
  {
    var before := MarkExpired(holds, front, now);
    var row := holds[last].(status := HoldExpired, expiredAt := Some(now));
    assert MarkExpired(holds, front + [last], now) == before[last := row];
    TotalUpdate(before, last, row, HeldWeight(u));
  }

  // Marking rows takes the HELD ones among them off their table's count.
  lemma {:induction false} MarkHeld(holds: seq<Hold>, t: nat, ids: seq<nat>, now: int, u: nat)
    requires StaleOf(holds, t, ids)
    ensures Total(MarkExpired(holds, ids, now), HeldWeight(u))
            == Total(holds, HeldWeight(u)) - if u == t then Total(ids, HeldRow(holds)) else 0
  {
    if |ids| == 0 {
      assert MarkExpired(holds, ids, now) == holds;
    } else {
      var front, last := ids[..|ids| - 1], ids[|ids| - 1];
      assert StaleOf(holds, t, front) && last !in front && ids == front + [last];
      MarkHeld(holds, t, front, now, u);
      MarkOneHeld(holds, t, front, last, now, u);
    }
  }

  lemma CommitBalance(w: World, t: nat, ids: seq<nat>, now: int, tables: seq<EventTable>, u: nat)
    requires Trail(w) && StaleOf(w.holds, t, ids)
    ensures var w' := World(tables, MarkExpired(w.holds, ids, now), w.audits + ExpiryLog(t, ids));
            Balanced(w', u) <==> (u == t ==> Total(ids, HeldRow(w.holds)) == |ids|)
  {
    assert Balanced(w, u);
    ExpiryLogTotals(t, ids, 0, u);
    TotalConcat(w.audits, ExpiryLog(t, ids), TableBalance(u));
    MarkHeld(w.holds, t, ids, now, u);
  }

  lemma CommitLogsOnce(w: World, t: nat, ids: seq<nat>, now: int, tables: seq<EventTable>, id: nat)
    requires Trail(w) && StaleOf(w.holds, t, ids) && (id in ids ==> w.holds[id].status == HoldHeld)
    ensures LoggedOnce(World(tables, MarkExpired(w.holds, ids, now), w.audits + ExpiryLog(t, ids)), id)
  {
    assert LoggedOnce(w, id);
    ExpiryLogTotals(t, ids, id, t);
    TotalConcat(w.audits, ExpiryLog(t, ids), CreatedLogs(id));
    TotalConcat(w.audits, ExpiryLog(t, ids), ExpiredLogs(id));
  }

  lemma CommitLogs(w: World, t: nat, ids: seq<nat>, now: int, tables: seq<EventTable>)
    requires Trail(w) && StaleOf(w.holds, t, ids)
    ensures var w' := World(tables, MarkExpired(w.holds, ids, now), w.audits + ExpiryLog(t, ids));
            Trail(w') <==> forall i :: 0 <= i < |ids| ==> w.holds[ids[i]].status == HoldHeld
  {
    var w' := World(tables, MarkExpired(w.holds, ids, now), w.audits + ExpiryLog(t, ids));
    AllHeldIff(w.holds, ids);
    CommitBalance(w, t, ids, now, tables, t);
    if forall i :: 0 <= i < |ids| ==> w.holds[ids[i]].status == HoldHeld {
      forall u: nat ensures Balanced(w', u) { CommitBalance(w, t, ids, now, tables, u); }
      forall id: nat ensures LoggedOnce(w', id) { CommitLogsOnce(w, t, ids, now, tables, id); }
    }
  }

  // Every row the commit is about to expire is still HELD.
  predicate StillHeld(c: Conc, step: ConcStep) {
    Commits(c, step) ==>
      var stale := c.readers[step.pid].stale;
      forall i :: 0 <= i < |stale| ==> stale[i] < |c.w.holds| && c.w.holds[stale[i]].status == HoldHeld
  }

  lemma StepKeepsTrailIff(c: Conc, step: ConcStep)
    requires ReadersSound(c) && Trail(c.w)
    ensures Trail(ConcNext(c, step).w) <==> StillHeld(c, step)
  {
    if Commits(c, step) { assert ReaderSound(c.w, c.readers[step.pid]); }
    match step
    case Atomic(s) => StepKeepsTrail(c.w, s);
    case Commit(pid) =>
      if Commits(c, step) {
        var r := c.readers[pid];
        CommitLogs(c.w, r.t, r.stale, r.now, WriteState(c.w.tables, r.t, r.seen, r.next));
      }
    case _ =>
  }

  ghost predicate AlwaysTrail(steps: seq<ConcStep>) {
    Trail(ConcRun(START, steps).w) && (|steps| > 0 ==> AlwaysTrail(steps[..|steps| - 1]))
  }

  ghost predicate CommitsHeld(steps: seq<ConcStep>) {
    |steps| > 0 ==>
      CommitsHeld(steps[..|steps| - 1]) && StillHeld(ConcRun(START, steps[..|steps| - 1]), steps[|steps| - 1])
  }

  // Under any interleaving of unlocked readers, the audit trail adds up at every
  // point if and only if each reader commits on rows that are still HELD.
  lemma {:induction false} TrailAddsUpIff(steps: seq<ConcStep>)
    ensures AlwaysTrail(steps) <==> CommitsHeld(steps)
  {
    if |steps| == 0 {
      AuditTrailAddsUp([]);
    } else {
      var front := steps[..|steps| - 1];
      TrailAddsUpIff(front);
      ReadersAreSound(front);
      if AlwaysTrail(front) { StepKeepsTrailIff(ConcRun(START, front), steps[|steps| - 1]); }
    }
  }

  /******* Coherence *******/

  // The table row as a commit leaves it: what it decided, if that differs from
  // what it read, else the row as it now is.
  function RowAfter(current: EventTable, seen: EventTable, next: EventTable): EventTable {
    if next != seen then current.(status := next.status, holdExpiresAt := next.holdExpiresAt) else current
  }

  // The row fits the holds of its table that the commit leaves HELD.
  ghost predicate RowFits(holds: seq<Hold>, t: nat, stale: seq<nat>, row: EventTable, at: int) {
    && (forall i :: 0 <= i < |holds| && IsActive(holds[i], t, at) && i !in stale ==>
          row.status == TableHeld && row.holdExpiresAt == Some(holds[i].holdExpiresAt))
    && (row.status == TableHeld ==>
          exists i :: 0 <= i < |holds| && holds[i].tableId == t && holds[i].status == HoldHeld && i !in stale
                      && row.holdExpiresAt == Some(holds[i].holdExpiresAt))
  }

  ghost predicate CommitFits(c: Conc, step: ConcStep, at: int) {
    Commits(c, step) ==>
      var r := c.readers[step.pid];
      r.t < |c.w.tables| && RowFits(c.w.holds, r.t, r.stale, RowAfter(c.w.tables[r.t], r.seen, r.next), at)
  }

  // Tables of other rows keep their backing.
  lemma OthersStayBacked(w: World, w': World, t: nat, stale: seq<nat>, now: int, u: nat)
    requires StaleOf(w.holds, t, stale) && u < |w.tables| && u != t
    requires w'.holds == MarkExpired(w.holds, stale, now) && |w'.tables| == |w.tables| && w'.tables[u] == w.tables[u]
    ensures Backed(w', u) <==> Backed(w, u)
  {
    assert forall i :: 0 <= i < |w.holds| && w.holds[i].tableId == u ==> w'.holds[i] == w.holds[i];
    if Backed(w, u) {
      var i :| 0 <= i < |w.holds| && w.holds[i].tableId == u && w.holds[i].status == HoldHeld
               && w.tables[u].holdExpiresAt == Some(w.holds[i].holdExpiresAt);
      assert w'.holds[i] == w.holds[i];
    }
    if Backed(w', u) {
      var i :| 0 <= i < |w'.holds| && w'.holds[i].tableId == u && w'.holds[i].status == HoldHeld
               && w'.tables[u].holdExpiresAt == Some(w'.holds[i].holdExpiresAt);
      assert w.holds[i] == w'.holds[i];
    }
  }

  ghost predicate OnlyTable(w: World, w': World, t: nat, stale: seq<nat>, now: int) {
    && t < |w.tables| == |w'.tables| && StaleOf(w.holds, t, stale)
    && w'.holds == MarkExpired(w.holds, stale, now)
    && (forall u :: 0 <= u < |w.tables| && u != t ==> w'.tables[u] == w.tables[u])
  }

  lemma CoherentFits(w: World, w': World, t: nat, stale: seq<nat>, now: int, at: int)
    requires OnlyTable(w, w', t, stale, now) && Coherent(w', at)
    ensures RowFits(w.holds, t, stale, w'.tables[t], at)
  {
    if w'.tables[t].status == TableHeld {
      assert Backed(w', t);
      var i :| 0 <= i < |w'.holds| && w'.holds[i].tableId == t && w'.holds[i].status == HoldHeld
               && w'.tables[t].holdExpiresAt == Some(w'.holds[i].holdExpiresAt);
      assert i !in stale && w.holds[i] == w'.holds[i];
    }
    forall i | 0 <= i < |w.holds| && IsActive(w.holds[i], t, at) && i !in stale
      ensures w'.tables[t].status == TableHeld && w'.tables[t].holdExpiresAt == Some(w.holds[i].holdExpiresAt)
    {
      assert w'.holds[i] == w.holds[i];
    }
  }

  lemma FitsCoherent(w: World, w': World, t: nat, stale: seq<nat>, now: int, at: int)
    requires OnlyTable(w, w', t, stale, now) && Coherent(w, at)
    requires RowFits(w.holds, t, stale, w'.tables[t], at)
    ensures Coherent(w', at)
  {
    forall u | 0 <= u < |w'.tables| && w'.tables[u].status == TableHeld ensures Backed(w', u) {
      if u != t {
        OthersStayBacked(w, w', t, stale, now, u);
      } else {
        var i :| 0 <= i < |w.holds| && w.holds[i].tableId == t && w.holds[i].status == HoldHeld && i !in stale
                 && w'.tables[t].holdExpiresAt == Some(w.holds[i].holdExpiresAt);
        assert w'.holds[i] == w.holds[i];
      }
    }
    forall i | 0 <= i < |w'.holds| && w'.holds[i].status == HoldHeld && w'.holds[i].holdExpiresAt > at
      ensures w'.holds[i] == w.holds[i]
    {
    }
  }

  // The clock of the locked requests; readers may have any reading.
  function ClockAfter(at: int, step: ConcStep): int { if step.Atomic? then step.step.at else at }

  lemma StepKeepsCoherentIff(c: Conc, step: ConcStep, at: int)
    requires ReadersSound(c) && OneHeld(c.w.holds) && Coherent(c.w, at)
    requires step.Atomic? ==> at <= step.step.at
    ensures Coherent(ConcNext(c, step).w, ClockAfter(at, step)) <==> CommitFits(c, step, at)
  {
    if Commits(c, step) { assert ReaderSound(c.w, c.readers[step.pid]); }
    match step
    case Atomic(s) =>
      CoherentLater(c.w, at, s.at);
      StepKeepsCoherent(c.w, s);
    case Commit(pid) =>
      if Commits(c, step) {
        var r := c.readers[pid];
        var w' := ConcNext(c, step).w;
        if Coherent(w', at) { CoherentFits(c.w, w', r.t, r.stale, r.now, at); }
        if CommitFits(c, step, at) { FitsCoherent(c.w, w', r.t, r.stale, r.now, at); }
      }
    case _ =>
  }

  function Clock(start: int, steps: seq<ConcStep>): int {
    if |steps| == 0 then start else ClockAfter(Clock(start, steps[..|steps| - 1]), steps[|steps| - 1])
  }

  ghost predicate Forward(start: int, steps: seq<ConcStep>) {
    |steps| > 0 ==>
      && Forward(start, steps[..|steps| - 1])
      && Clock(start, steps[..|steps| - 1]) <= Clock(start, steps)
  }

  ghost predicate AlwaysCoherent(start: int, steps: seq<ConcStep>) {
    && Coherent(ConcRun(START, steps).w, Clock(start, steps))
    && (|steps| > 0 ==> AlwaysCoherent(start, steps[..|steps| - 1]))
  }

  ghost predicate CommitsFit(start: int, steps: seq<ConcStep>) {
    |steps| > 0 ==>
      var front := steps[..|steps| - 1];
      CommitsFit(start, front) && CommitFits(ConcRun(START, front), steps[|steps| - 1], Clock(start, front))
  }

  // Under any interleaving of unlocked readers, whatever their clocks, with locked
  // requests on a clock that does not go back: every table's derived state is
  // coherent at every point if and only if each reader's commit leaves its table
  // fitting the holds it leaves HELD.
  lemma {:induction false} ReadersKeepCoherentIff(start: int, steps: seq<ConcStep>)
    requires Forward(start, steps)
    ensures AlwaysCoherent(start, steps) <==> CommitsFit(start, steps)
  {
    if |steps| != 0 {
      var front, last := steps[..|steps| - 1], steps[|steps| - 1];
      ReadersKeepCoherentIff(start, front);
      ReadersAreSound(front);
      HoldsExcludeEachOther(front);
      if AlwaysCoherent(start, front) {
        StepKeepsCoherentIff(ConcRun(START, front), last, Clock(start, front));
      }
    }
  }

  /******* A reader on its own *******/

  lemma ConcRunAppend(c: Conc, steps: seq<ConcStep>, step: ConcStep)
    ensures ConcRun(c, steps + [step]) == ConcNext(ConcRun(c, steps), step)
  {
    assert (steps + [step])[..|steps|] == steps;
  }

  lemma {:induction false} ConcRunConcat(c: Conc, p: seq<ConcStep>, s: seq<ConcStep>)
    ensures ConcRun(c, p + s) == ConcRun(ConcRun(c, p), s)
  {
    if |s| == 0 {
      assert p + s == p;
    } else {
      ConcRunConcat(c, p, s[..|s| - 1]);
      assert (p + s)[..|p + s| - 1] == p + s[..|s| - 1];
    }
  }

  lemma ConcRunTwo(c: Conc, a: ConcStep, b: ConcStep)
    ensures ConcRun(c, [a, b]) == ConcNext(ConcNext(c, a), b)
  {
    assert [a, b][..1] == [a] && [a][..0] == [];
    assert ConcRun(c, [a]) == ConcNext(c, a);
  }

  lemma ConcRunThree(c: Conc, x: ConcStep, y: ConcStep, z: ConcStep)
    ensures ConcRun(c, [x, y, z]) == ConcNext(ConcNext(ConcNext(c, x), y), z)
  {
    assert [x, y, z][..2] == [x, y];
    ConcRunTwo(c, x, y);
  }

  // The three reads of a reader.
  function Reads(pid: nat, at: int, id: nat, actor: nat): seq<ConcStep> {
    [Begin(pid, at, id, actor), SeeTable(pid), ListStale(pid)]
  }

  function ReadBy(w: World, at: int, id: nat): Reader
    requires id < |w.holds| && w.holds[id].tableId < |w.tables|
  {
    var h := w.holds[id];
    Listed(at, h.tableId, w.tables[h.tableId],
           if h.status == HoldHeld && h.holdExpiresAt <= at then StaleIds(w.holds, h.tableId, at) else [])
  }

  lemma BeginsAlone(c: Conc, pid: nat, at: int, id: nat, actor: nat)
    requires pid !in c.readers && id < |c.w.holds| && c.w.holds[id].actorUserId == actor
    requires c.w.holds[id].tableId < |c.w.tables|
    ensures var h := c.w.holds[id];
            ConcNext(c, Begin(pid, at, id, actor))
            == c.(readers := c.readers[pid := Reading(at, h.tableId, h.status == HoldHeld && h.holdExpiresAt <= at)])
  {
  }

  lemma SeesAlone(c: Conc, pid: nat, at: int, t: nat, lapsed: bool)
    requires pid in c.readers && c.readers[pid] == Reading(at, t, lapsed) && t < |c.w.tables|
    ensures ConcNext(c, SeeTable(pid)) == c.(readers := c.readers[pid := Seeing(at, t, lapsed, c.w.tables[t])])
  {
  }

  lemma ListsAlone(c: Conc, pid: nat, at: int, t: nat, lapsed: bool, seen: EventTable)
    requires pid in c.readers && c.readers[pid] == Seeing(at, t, lapsed, seen)
    ensures ConcNext(c, ListStale(pid))
            == c.(readers := c.readers[pid := Listed(at, t, seen, if lapsed then StaleIds(c.w.holds, t, at) else [])])
  {
  }

  lemma OverwriteKey<K, V>(m: map<K, V>, k: K, a: V, b: V)
    ensures m[k := a][k := b] == m[k := b]
  {
  }

  lemma SeesAndLists(c: Conc, pid: nat, at: int, t: nat, lapsed: bool)
    requires pid in c.readers && c.readers[pid] == Reading(at, t, lapsed) && t < |c.w.tables|
    ensures var r := Listed(at, t, c.w.tables[t], if lapsed then StaleIds(c.w.holds, t, at) else []);
            ConcNext(ConcNext(c, SeeTable(pid)), ListStale(pid)) == c.(readers := c.readers[pid := r])
  {
    var seen := Seeing(at, t, lapsed, c.w.tables[t]);
    SeesAlone(c, pid, at, t, lapsed);
    ListsAlone(c.(readers := c.readers[pid := seen]), pid, at, t, lapsed, c.w.tables[t]);
    OverwriteKey(c.readers, pid, seen,
                 Listed(at, t, c.w.tables[t], if lapsed then StaleIds(c.w.holds, t, at) else []));
  }

  lemma ReadsAlone(c: Conc, pid: nat, at: int, id: nat, actor: nat)
    requires pid !in c.readers && id < |c.w.holds| && c.w.holds[id].actorUserId == actor
    requires c.w.holds[id].tableId < |c.w.tables|
    ensures ConcRun(c, Reads(pid, at, id, actor)) == c.(readers := c.readers[pid := ReadBy(c.w, at, id)])
  {
    ConcRunThree(c, Begin(pid, at, id, actor), SeeTable(pid), ListStale(pid));
    var h := c.w.holds[id];
    var reading := Reading(at, h.tableId, h.status == HoldHeld && h.holdExpiresAt <= at);
    BeginsAlone(c, pid, at, id, actor);
    SeesAndLists(c.(readers := c.readers[pid := reading]), pid, at, reading.t, reading.lapsed);
    OverwriteKey(c.readers, pid, reading, ReadBy(c.w, at, id));
  }

  lemma {:induction false} LatestSame(holds: seq<Hold>, holds': seq<Hold>, t: nat, now: int)
    requires |holds'| == |holds|
    requires forall i :: 0 <= i < |holds| ==>
               && (IsActive(holds'[i], t, now) <==> IsActive(holds[i], t, now))
               && holds'[i].holdExpiresAt == holds[i].holdExpiresAt
    ensures LatestActive(holds', t, now) == LatestActive(holds, t, now)
  {
    if |holds| != 0 { LatestSame(holds[..|holds| - 1], holds'[..|holds| - 1], t, now); }
  }

  // Marking lapsed rows does not change which hold is the latest active one.
  lemma LatestUnmarked(holds: seq<Hold>, t: nat, now: int)
    ensures LatestActive(MarkExpired(holds, StaleIds(holds, t, now), now), t, now) == LatestActive(holds, t, now)
  {
    var marked := MarkExpired(holds, StaleIds(holds, t, now), now);
    forall i | 0 <= i < |holds| ensures marked[i] == Swept(holds[i], t, now) {
      MarkStaleIsSwept(holds, t, now, i);
    }
    LatestSame(holds, marked, t, now);
  }

  lemma DecidesAndCommits(c: Conc, pid: nat, r: Reader)
    requires pid in c.readers && c.readers[pid] == r && r.Listed? && r.t < |c.w.tables|
    ensures var next := Reconciled(r.seen, LatestActive(c.w.holds, r.t, r.now));
            ConcRun(c, [Decide(pid), Commit(pid)])
            == Conc(World(WriteState(c.w.tables, r.t, r.seen, next), MarkExpired(c.w.holds, r.stale, r.now),
                          c.w.audits + ExpiryLog(r.t, r.stale)),
                    c.readers - {pid})
  {
    ConcRunTwo(c, Decide(pid), Commit(pid));
    var next := Reconciled(r.seen, LatestActive(c.w.holds, r.t, r.now));
    var c1 := ConcNext(c, Decide(pid));
    assert c1 == c.(readers := c.readers[pid := Decided(r.now, r.t, r.seen, r.stale, next)]);
    assert c1.readers - {pid} == c.readers - {pid};
  }

  lemma WritesReconciled(tables: seq<EventTable>, t: nat, next: EventTable)
    requires t < |tables| && next == tables[t].(status := next.status, holdExpiresAt := next.holdExpiresAt)
    ensures WriteState(tables, t, tables[t], next) == tables[t := next]
  {
  }

  // What a reader on its own writes is what the request as one step writes.
  lemma OwnedByReader(w: World, at: int, id: nat, actor: nat)
    requires id < |w.holds| && w.holds[id].actorUserId == actor && w.holds[id].tableId < |w.tables|
    ensures var r := ReadBy(w, at, id);
            var next := Reconciled(r.seen, LatestActive(w.holds, r.t, at));
            GetOwned(w, at, id, actor).0
            == World(WriteState(w.tables, r.t, r.seen, next), MarkExpired(w.holds, r.stale, at),
                     w.audits + ExpiryLog(r.t, r.stale))
  {
    var r := ReadBy(w, at, id);
    WritesReconciled(w.tables, r.t, Reconciled(r.seen, LatestActive(w.holds, r.t, at)));
    if w.holds[id].status == HoldHeld && w.holds[id].holdExpiresAt <= at {
      LatestUnmarked(w.holds, r.t, at);
    } else {
      assert MarkExpired(w.holds, [], at) == w.holds && ExpiryLog(r.t, []) == [];
    }
  }

  lemma IdleReader(c: Conc, pid: nat)
    requires pid !in c.readers
    ensures ConcNext(c, SeeTable(pid)) == ConcNext(c, ListStale(pid)) == c
    ensures ConcNext(c, Decide(pid)) == ConcNext(c, Commit(pid)) == c
  {
  }

  lemma NothingRead(c: Conc, pid: nat, at: int, id: nat, actor: nat)
    requires pid !in c.readers && (id >= |c.w.holds| || c.w.holds[id].actorUserId != actor)
    ensures ConcRun(c, Reads(pid, at, id, actor)) == c && ConcRun(c, [Decide(pid), Commit(pid)]) == c
  {
    ConcRunThree(c, Begin(pid, at, id, actor), SeeTable(pid), ListStale(pid));
    ConcRunTwo(c, Decide(pid), Commit(pid));
    IdleReader(c, pid);
  }

  // With no one in between, the steps of a reader are the request as one step.
  lemma GetOwnedIsRun(c: Conc, pid: nat, at: int, id: nat, actor: nat)
    requires pid !in c.readers
    requires id < |c.w.holds| ==> c.w.holds[id].tableId < |c.w.tables|
    ensures ConcRun(c, Reads(pid, at, id, actor) + [Decide(pid), Commit(pid)])
            == Conc(GetOwned(c.w, at, id, actor).0, c.readers)
  {
    ConcRunConcat(c, Reads(pid, at, id, actor), [Decide(pid), Commit(pid)]);
    if id < |c.w.holds| && c.w.holds[id].actorUserId == actor {
      var r := ReadBy(c.w, at, id);
      ReadsAlone(c, pid, at, id, actor);
      DecidesAndCommits(c.(readers := c.readers[pid := r]), pid, r);
      OwnedByReader(c.w, at, id, actor);
      assert c.readers[pid := r] - {pid} == c.readers;
    } else {
      NothingRead(c, pid, at, id, actor);
    }
  }

  /******* Two runs *******/

  const NEW_TABLE := Atomic(DoCreateTable(0, 0, None, true))

  function Place(at: int, actor: nat, key: string): ConcStep {
    Atomic(DoCreateHold(at, actor, 0, 0, key, Some(60), true))
  }

  lemma SweptWhenIdle(w: World, at: int)
    requires |w.tables| == 1
    requires forall i :: 0 <= i < |w.holds| ==> !IsActive(w.holds[i], 0, at)
    ensures var w' := ExpireTable(w, 0, at);
            && |w'.tables| == 1 && w'.tables[0].eventId == w.tables[0].eventId
            && w'.tables[0].venueActive == w.tables[0].venueActive
            && |w'.holds| == |w.holds| && (forall i :: 0 <= i < |w.holds| ==> w'.holds[i] == Swept(w.holds[i], 0, at))
            && w'.audits == w.audits + ExpiryLog(0, StaleIds(w.holds, 0, at))
            && Total(w'.holds, ActiveWeight(0, at)) == 0
  {
    var w' := ExpireTable(w, 0, at);
    forall i | 0 <= i < |w.holds| ensures w'.holds[i] == Swept(w.holds[i], 0, at) {
      ExpiredRow(w, 0, at, i);
    }
    NoneActive(w'.holds, 0, at);
  }

  lemma PlacedOnIdle(w: World, swept: World, at: int, actor: nat, key: string)
    requires |swept.tables| == 1 && swept.tables[0].eventId == 0 && swept.tables[0].venueActive
    requires Total(swept.holds, ActiveWeight(0, at)) == 0
    ensures PlaceHold(w, swept, at, actor, 0, 0, key, Some(60)).0
            == World([EventTable(0, TableHeld, Some(at + 60000), true)],
                     swept.holds + [Hold(actor, 0, 0, HoldHeld, key, at + 60000, None)],
                     swept.audits + [LogCreated(0, |swept.holds|)])
  {
  }

  // Placing a hold of a minute on the only table, where nothing is active.
  lemma Placed(c: Conc, at: int, actor: nat, key: string)
    requires |c.w.tables| == 1 && c.w.tables[0].eventId == 0 && c.w.tables[0].status != TableUnavailable
    requires c.w.tables[0].venueActive && key != "" && FindByKey(c.w.holds, actor, key).None?
    requires forall i :: 0 <= i < |c.w.holds| ==> !IsActive(c.w.holds[i], 0, at)
    ensures var c' := ConcNext(c, Place(at, actor, key)); var n := |c.w.holds|;
            && c'.readers == c.readers
            && c'.w.tables == [EventTable(0, TableHeld, Some(at + 60000), true)]
            && |c'.w.holds| == n + 1 && c'.w.holds[n] == Hold(actor, 0, 0, HoldHeld, key, at + 60000, None)
            && (forall i :: 0 <= i < n ==> c'.w.holds[i] == Swept(c.w.holds[i], 0, at))
            && c'.w.audits == c.w.audits + ExpiryLog(0, StaleIds(c.w.holds, 0, at)) + [LogCreated(0, n)]
  {
    SweptWhenIdle(c.w, at);
    PlacedOnIdle(c.w, ExpireTable(c.w, 0, at), at, actor, key);
  }

  lemma TableCreated()
    ensures ConcRun(START, [NEW_TABLE])
            == Conc(World([EventTable(0, TableAvailable, None, true)], [], [LogTableCreated(0)]), map[])
  {
    ConcRunAppend(START, [], NEW_TABLE);
    assert [] + [NEW_TABLE] == [NEW_TABLE];
  }

  lemma NothingStale()
    ensures ExpiryLog(0, StaleIds([], 0, 0)) == []
  {
  }

  lemma FirstHold()
    ensures var c := ConcRun(START, [NEW_TABLE, Place(0, 1, "a")]);
            && c.readers == map[]
            && c.w.tables == [EventTable(0, TableHeld, Some(60000), true)]
            && c.w.holds == [Hold(1, 0, 0, HoldHeld, "a", 60000, None)]
            && c.w.audits == [LogTableCreated(0), LogCreated(0, 0)]
  {
    TableCreated();
    ConcRunAppend(START, [NEW_TABLE], Place(0, 1, "a"));
    assert [NEW_TABLE] + [Place(0, 1, "a")] == [NEW_TABLE, Place(0, 1, "a")];
    Placed(ConcRun(START, [NEW_TABLE]), 0, 1, "a");
    NothingStale();
  }

  lemma OnlyStale(w: World)
    requires w.holds == [Hold(1, 0, 0, HoldHeld, "a", 60000, None)]
    ensures StaleIds(w.holds, 0, 60000) == [0] && LatestActive(w.holds, 0, 60000) == None
    ensures LatestActive(MarkExpired(w.holds, [0], 60000), 0, 60000) == None
  {
    assert StaleIds(w.holds[..0], 0, 60000) == [];
  }

  const LAPSED := EventTable(0, TableHeld, Some(60000), true)

  lemma FirstReaderLogs(c: Conc)
    requires c.w.tables == [LAPSED] && c.w.holds == [Hold(1, 0, 0, HoldHeld, "a", 60000, None)]
    requires c.readers == map[0 := Listed(60000, 0, LAPSED, [0]), 1 := Listed(60000, 0, LAPSED, [0])]
    ensures var d := ConcRun(c, [Decide(0), Commit(0)]);
            && d.readers == map[1 := Listed(60000, 0, LAPSED, [0])] && |d.w.tables| == 1
            && d.w.audits == c.w.audits + [LogExpired(0, 0)]
  {
    DecidesAndCommits(c, 0, c.readers[0]);
    assert c.readers - {0} == map[1 := Listed(60000, 0, LAPSED, [0])];
    assert ExpiryLog(0, [0]) == [LogExpired(0, 0)];
  }

  // Reader 1 decides once reader 0 has committed, for the row was locked until then.
  lemma SecondReaderLogs(c: Conc)
    requires c.readers == map[1 := Listed(60000, 0, LAPSED, [0])] && |c.w.tables| == 1
    ensures ConcRun(c, [Decide(1), Commit(1)]).w.audits == c.w.audits + [LogExpired(0, 0)]
  {
    DecidesAndCommits(c, 1, c.readers[1]);
    assert ExpiryLog(0, [0]) == [LogExpired(0, 0)];
  }

  lemma BothRead(c: Conc)
    requires c.readers == map[] && c.w.tables == [LAPSED]
    requires c.w.holds == [Hold(1, 0, 0, HoldHeld, "a", 60000, None)]
    ensures ConcRun(ConcRun(c, Reads(0, 60000, 0, 1)), Reads(1, 60000, 0, 1))
            == Conc(c.w, map[0 := Listed(60000, 0, LAPSED, [0]), 1 := Listed(60000, 0, LAPSED, [0])])
  {
    OnlyStale(c.w);
    ReadsAlone(c, 0, 60000, 0, 1);
    ReadsAlone(c.(readers := map[0 := Listed(60000, 0, LAPSED, [0])]), 1, 60000, 0, 1);
  }

  // Two reads of one lapsed hold both log its expiry.
  lemma ReadersLogExpiryTwice()
    ensures ConcRun(START, [NEW_TABLE, Place(0, 1, "a")] + Reads(0, 60000, 0, 1) + Reads(1, 60000, 0, 1)
                           + [Decide(0), Commit(0)] + [Decide(1), Commit(1)]).w.audits
            == [LogTableCreated(0), LogCreated(0, 0), LogExpired(0, 0), LogExpired(0, 0)]
  {
    var p := [NEW_TABLE, Place(0, 1, "a")];
    var p1 := p + Reads(0, 60000, 0, 1);
    var p2 := p1 + Reads(1, 60000, 0, 1);
    var p3 := p2 + [Decide(0), Commit(0)];
    FirstHold();
    ConcRunConcat(START, p, Reads(0, 60000, 0, 1));
    ConcRunConcat(START, p1, Reads(1, 60000, 0, 1));
    ConcRunConcat(START, p2, [Decide(0), Commit(0)]);
    ConcRunConcat(START, p3, [Decide(1), Commit(1)]);
    BothRead(ConcRun(START, p));
    FirstReaderLogs(ConcRun(START, p2));
    SecondReaderLogs(ConcRun(START, p3));
  }

  const FREED := EventTable(0, TableAvailable, None, true)
  const RELAPSED := EventTable(0, TableHeld, Some(120000), true)

  // Two holds on the only table, the first EXPIRED and the second lapsed by 120000.
  ghost predicate SecondLapsed(w: World) {
    && w.tables == [RELAPSED] && |w.holds| == 2
    && w.holds[0].actorUserId == 1 && w.holds[0].tableId == 0 && w.holds[0].status == HoldExpired
    && w.holds[1] == Hold(2, 0, 0, HoldHeld, "b", 120000, None)
  }

  lemma SecondHold(c: Conc)
    requires c.readers == map[] && c.w.tables == [LAPSED]
    requires c.w.holds == [Hold(1, 0, 0, HoldHeld, "a", 60000, None)]
    ensures var d := ConcRun(c, [Place(60000, 2, "b")]); d.readers == map[] && SecondLapsed(d.w)
  {
    ConcRunAppend(c, [], Place(60000, 2, "b"));
    assert [] + [Place(60000, 2, "b")] == [Place(60000, 2, "b")];
    Placed(c, 60000, 2, "b");
  }

  lemma SecondLapsedRead(w: World)
    requires SecondLapsed(w)
    ensures ReadBy(w, 120000, 0) == Listed(120000, 0, RELAPSED, [])
    ensures LatestActive(w.holds, 0, 120000) == None
  {
    assert forall id :: 0 <= id < |w.holds| ==> !IsActive(w.holds[id], 0, 120000);
  }

  lemma DecidesFree(w: World)
    requires LatestActive(w.holds, 0, 120000) == None
    ensures ConcNext(Conc(w, map[0 := Listed(120000, 0, RELAPSED, [])]), Decide(0))
            == Conc(w, map[0 := Decided(120000, 0, RELAPSED, [], FREED)])
  {
    assert Reconciled(RELAPSED, None) == FREED;
  }

  lemma ReaderDecidesFree(c: Conc)
    requires c.readers == map[] && SecondLapsed(c.w)
    ensures ConcNext(ConcRun(c, Reads(0, 120000, 0, 1)), Decide(0))
            == Conc(c.w, map[0 := Decided(120000, 0, RELAPSED, [], FREED)])
  {
    ReadsAlone(c, 0, 120000, 0, 1);
    SecondLapsedRead(c.w);
    DecidesFree(c.w);
  }

  lemma PlacedMeanwhile(c: Conc)
    requires c.readers == map[0 := Decided(120000, 0, RELAPSED, [], FREED)] && SecondLapsed(c.w)
    ensures var d := ConcNext(c, Place(120000, 3, "c"));
            && d.readers == c.readers && |d.w.tables| == 1 && |d.w.holds| == 3
            && d.w.holds[2] == Hold(3, 0, 0, HoldHeld, "c", 180000, None)
  {
    assert FindByKey(c.w.holds, 3, "c").None?;
    Placed(c, 120000, 3, "c");
  }

  lemma CommitFrees(c: Conc)
    requires c.readers == map[0 := Decided(120000, 0, RELAPSED, [], FREED)]
    requires |c.w.tables| == 1 && |c.w.holds| == 3 && c.w.holds[2] == Hold(3, 0, 0, HoldHeld, "c", 180000, None)
    ensures var e := ConcNext(c, Commit(0));
            && |e.w.tables| == 1 && e.w.tables[0].status == TableAvailable
            && |e.w.holds| == 3 && IsActive(e.w.holds[2], 0, 120000) && !Coherent(e.w, 120000)
  {
    var e := ConcNext(c, Commit(0));
    assert e.w.holds[2] == c.w.holds[2];
  }

  // Actor 1 reads its hold, long EXPIRED, while actor 2's later hold has lapsed;
  // actor 3 places a hold before the read commits, and the read frees the table.
  lemma ReaderFreesHeldTable()
    ensures var e := ConcRun(START, [NEW_TABLE, Place(0, 1, "a")] + [Place(60000, 2, "b")] + Reads(0, 120000, 0, 1)
                                    + [Decide(0), Place(120000, 3, "c"), Commit(0)]);
            && |e.w.tables| == 1 && e.w.tables[0].status == TableAvailable
            && |e.w.holds| == 3 && IsActive(e.w.holds[2], 0, 120000) && !Coherent(e.w, 120000)
  {
    var p := [NEW_TABLE, Place(0, 1, "a")];
    var p1 := p + [Place(60000, 2, "b")];
    var p2 := p1 + Reads(0, 120000, 0, 1);
    FirstHold();
    ConcRunConcat(START, p, [Place(60000, 2, "b")]);
    ConcRunConcat(START, p1, Reads(0, 120000, 0, 1));
    ConcRunConcat(START, p2, [Decide(0), Place(120000, 3, "c"), Commit(0)]);
    ConcRunThree(ConcRun(START, p2), Decide(0), Place(120000, 3, "c"), Commit(0));
    SecondHold(ConcRun(START, p));
    ReaderDecidesFree(ConcRun(START, p1));
    var c := ConcNext(ConcRun(START, p2), Decide(0));
    PlacedMeanwhile(c);
    CommitFrees(ConcNext(c, Place(120000, 3, "c")));
  }
}
