// Runs in which a release goes wrong: its caller's clock is ahead of the
// database, or an issuance commits between its read and its write.
module ReleaseRace {
  import opened Totals
  import opened Store
  import opened Wrappers
  import opened Inventory
  import Issuance

  const RESERVE := StepReserve(0, 0, 0, GATE, 1, 1)
  const EARLY := StepBeginRelease(7, 0, 1000)
  const COMMIT := StepCommitRelease(7)

  lemma ReservedAndRead()
    ensures var s := Next(Next(OneSeat(), RESERVE), EARLY);
            && s.now == 0 && s.buckets == map[GATE := Bucket(1, 1, 0)] && s.reservations == [SeatRow(0, 1000)]
            && s.releases == map[7 := PendingRelease(0, GATE, 0)]
  {
    var s1 := Next(OneSeat(), RESERVE);
    assert s1.reservations == [SeatRow(0, 1000)] && s1.buckets == map[GATE := Bucket(1, 1, 0)];
    assert Next(s1, EARLY).releases == map[7 := PendingRelease(0, GATE, 0)];
  }

  lemma WrittenTooEarly(s: Tables)
    requires s.now == 0 && s.buckets == map[GATE := Bucket(1, 1, 0)] && s.reservations == [SeatRow(0, 1000)]
    requires s.releases == map[7 := PendingRelease(0, GATE, 0)]
    ensures var e := Next(s, COMMIT);
            GATE in e.buckets && e.buckets[GATE].reservedCount == 1 && LiveSum(e.reservations, GATE, e.now) == 0
  {
    assert s.reservations == [] + [SeatRow(0, 1000)];
    LiveSumAppend([], SeatRow(0, 1000), GATE, 0);
    LiveSumSetStatus(s.reservations, 0, Expired, GATE, 0);
  }

  // The caller says 1000, the database says 0: the row is counted and expired, and
  // the cache keeps one seat too many.
  lemma ReleaseTooEarlyMiscounts()
    ensures var e := Run(OneSeat(), [RESERVE, EARLY, COMMIT]);
            GATE in e.buckets && e.buckets[GATE].reservedCount == 1 && LiveSum(e.reservations, GATE, e.now) == 0
  {
    RunAppend(OneSeat(), [], RESERVE);
    RunAppend(OneSeat(), [RESERVE], EARLY);
    RunAppend(OneSeat(), [RESERVE, EARLY], COMMIT);
    assert [] + [RESERVE] == [RESERVE] && [RESERVE] + [EARLY] == [RESERVE, EARLY];
    assert [RESERVE, EARLY] + [COMMIT] == [RESERVE, EARLY, COMMIT];
    ReservedAndRead();
    WrittenTooEarly(Next(Next(OneSeat(), RESERVE), EARLY));
  }

  function BeforeRelease(): seq<Step> { BuyOnce(0, "a") + [StepAdvance(2000)] }

  const BEGIN := StepBeginRelease(7, 0, 2000)
  const ISSUE := StepIssue(0, 0, [TicketRef("s0", "p0")])

  lemma IssuedMeanwhile(t: Tables)
    requires t.now == 2000 && t.buckets == map[GATE := Bucket(1, 1, 0)] && t.tickets == [] && t.releases == map[]
    requires t.reservations == [SeatRow(0, 1000)] && t.orders == [PaidOrder(0)]
    ensures var u := Next(Next(t, BEGIN), ISSUE);
            && u.releases == map[7 := PendingRelease(0, GATE, 2000)]
            && u.reservations == [SeatRow(0, 1000).(status := Consumed)]
            && GATE in u.buckets && u.buckets[GATE].soldCount == 1 && |u.tickets| == 1
  {
    var t1 := Next(t, BEGIN);
    assert t1.releases == map[7 := PendingRelease(0, GATE, 2000)];
    assert FreshRefs(t1.tickets, [TicketRef("s0", "p0")]);
  }

  // A lapsed hold is read by a release, issued, and then expired by the release:
  // one ticket is sold and no reservation is CONSUMED.
  lemma ReleaseOverwritesConsumed()
    ensures var e := Run(OneSeat(), BeforeRelease() + [BEGIN] + [ISSUE] + [COMMIT]);
            && e.reservations == [SeatRow(0, 1000).(status := Expired)]
            && GATE in e.buckets && e.buckets[GATE].soldCount == 1 && |e.tickets| == 1
            && Total(e.reservations, Issuance.ConsumedWeight(GATE)) == 0
            && !Issuance.Inv(e)
  {
    var p := BeforeRelease();
    HoldLapsed();
    RunAppend(OneSeat(), p, BEGIN);
    RunAppend(OneSeat(), p + [BEGIN], ISSUE);
    RunAppend(OneSeat(), p + [BEGIN] + [ISSUE], COMMIT);
    IssuedMeanwhile(Run(OneSeat(), p));
    var e := Run(OneSeat(), p + [BEGIN] + [ISSUE] + [COMMIT]);
    assert e.reservations == [] + [SeatRow(0, 1000).(status := Expired)];
    TotalAppend([], SeatRow(0, 1000).(status := Expired), Issuance.ConsumedWeight(GATE));
  }
}
