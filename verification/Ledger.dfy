// Every successful payment is credited once, and nothing else is.
module Ledger {
  import opened Totals
  import opened Store
  import opened Wrappers

  function CreditsOf(paymentId: nat): LedgerEntry -> int {
    (e: LedgerEntry) => if e.direction == Credit && e.paymentId == paymentId then 1 else 0
  }

  function CreditIn(currency: string): LedgerEntry -> int {
    (e: LedgerEntry) => if e.direction == Credit && e.currency == currency then e.amount else 0
  }

  function SuccessIn(orders: seq<Order>, currency: string): Payment -> int {
    (p: Payment) =>
      if p.status == Success && p.orderId < |orders| && orders[p.orderId].currency == currency then p.amount else 0
  }

  // An entry is the credit of a successful payment, in its order's currency.
  ghost predicate EntryMatches(s: Tables, e: LedgerEntry) {
    && e.direction == Credit
    && e.paymentId < |s.payments|
    && var p := s.payments[e.paymentId];
       && p.status == Success
       && e.amount == p.amount
       && e.orderId == p.orderId < |s.orders|
       && e.currency == s.orders[p.orderId].currency
  }

  ghost predicate Inv(s: Tables) {
    && (forall i :: 0 <= i < |s.payments| ==> s.payments[i].orderId < |s.orders|)
    && (forall i :: 0 <= i < |s.ledger| ==> EntryMatches(s, s.ledger[i]))
    && (forall id: nat :: id < |s.payments| ==>
          Total(s.ledger, CreditsOf(id)) == if s.payments[id].status == Success then 1 else 0)
  }

  // No payment has succeeded yet and nothing is booked.
  ghost predicate LedgerStart(s: Tables) {
    && s.ledger == []
    && (forall i :: 0 <= i < |s.payments| ==>
          s.payments[i].orderId < |s.orders| && s.payments[i].status != Success)
  }

  ghost predicate KeepsCurrency(s: Tables, s': Tables) {
    && |s.orders| <= |s'.orders|
    && forall i :: 0 <= i < |s.orders| ==> s'.orders[i].currency == s.orders[i].currency
  }

  ghost predicate KeepsMoney(s: Tables, s': Tables) {
    && s'.payments == s.payments && s'.ledger == s.ledger && KeepsCurrency(s, s')
  }

  lemma OtherStepsKeepMoney(s: Tables, step: Step)
    requires !step.StepVerifyPayment? && !step.StepAddPayment?
    ensures KeepsMoney(s, Next(s, step))
  {
  }

  lemma {:induction false} NoneMatch(ledger: seq<LedgerEntry>, id: nat)
    requires forall i :: 0 <= i < |ledger| ==> ledger[i].paymentId != id
    ensures Total(ledger, CreditsOf(id)) == 0
  {
    if |ledger| != 0 { NoneMatch(ledger[..|ledger| - 1], id); }
  }

  lemma NoCreditYet(s: Tables, id: nat)
    requires Inv(s) && id >= |s.payments|
    ensures Total(s.ledger, CreditsOf(id)) == 0
  {
    assert forall i :: 0 <= i < |s.ledger| ==> EntryMatches(s, s.ledger[i]);
    NoneMatch(s.ledger, id);
  }

  lemma AddPaymentKeepsInv(s: Tables, p: Payment)
    requires Inv(s)
    ensures Inv(AddPayment(s, p))
  {
    var s' := AddPayment(s, p);
    if s' != s {
      assert s'.ledger == s.ledger && s'.orders == s.orders && s'.payments == s.payments + [p];
      NoCreditYet(s, |s.payments|);
      forall i | 0 <= i < |s'.ledger| ensures EntryMatches(s', s'.ledger[i]) {
        assert EntryMatches(s, s.ledger[i]);
      }
    }
  }

  // What a verification that commits changes.
  lemma VerifyEffect(
    s: Tables, provider: Provider, ref: string, success: bool, currency: string, v: Verification) returns (id: nat)
    requires VerifyPayment(s, provider, ref, success, currency, v).1.Ok?
    ensures var (s', out) := VerifyPayment(s, provider, ref, success, currency, v);
            && id < |s.payments| && s.payments[id].status != Success
            && s'.payments == s.payments[id := s.payments[id].(status := out.value)]
            && KeepsCurrency(s, s')
            && (out.value != Success ==> s'.ledger == s.ledger)
            && (out.value == Success ==>
                  s'.ledger == s.ledger + [s'.ledger[|s.ledger|]] && EntryMatches(s', s'.ledger[|s.ledger|])
                  && s'.ledger[|s.ledger|].paymentId == id)
  {
    id := FindPayment(s.payments, provider, ref).value;
  }

  lemma EntriesStillMatch(s: Tables, s': Tables, id: nat, p: Payment)
    requires id < |s.payments| && s.payments[id].status != Success
    requires s'.payments == s.payments[id := p] && KeepsCurrency(s, s')
    requires forall i :: 0 <= i < |s.ledger| ==> EntryMatches(s, s.ledger[i])
    ensures forall i :: 0 <= i < |s.ledger| ==> EntryMatches(s', s.ledger[i])
  {
    forall i | 0 <= i < |s.ledger| ensures EntryMatches(s', s.ledger[i]) {
      assert EntryMatches(s, s.ledger[i]);
    }
  }

  lemma VerifiedCredits(s: Tables, s': Tables, id: nat, status: PaymentStatus)
    requires Inv(s) && id < |s.payments| && s.payments[id].status != Success
    requires s'.payments == s.payments[id := s.payments[id].(status := status)]
    requires status != Success ==> s'.ledger == s.ledger
    requires status == Success ==>
               |s'.ledger| > |s.ledger| && s'.ledger == s.ledger + [s'.ledger[|s.ledger|]]
               && s'.ledger[|s.ledger|].direction == Credit && s'.ledger[|s.ledger|].paymentId == id
    ensures forall j: nat :: j < |s'.payments| ==>
              Total(s'.ledger, CreditsOf(j)) == if s'.payments[j].status == Success then 1 else 0
  {
    forall j: nat | j < |s'.payments|
      ensures Total(s'.ledger, CreditsOf(j)) == if s'.payments[j].status == Success then 1 else 0
    {
      if status == Success { TotalAppend(s.ledger, s'.ledger[|s.ledger|], CreditsOf(j)); }
    }
  }

  lemma VerifyKeepsInv(
    s: Tables, provider: Provider, ref: string, success: bool, currency: string, v: Verification)
    requires Inv(s)
    ensures Inv(VerifyPayment(s, provider, ref, success, currency, v).0)
  {
    if VerifyPayment(s, provider, ref, success, currency, v).1.Ok? {
      var id := VerifyEffect(s, provider, ref, success, currency, v);
      var (s', out) := VerifyPayment(s, provider, ref, success, currency, v);
      EntriesStillMatch(s, s', id, s.payments[id].(status := out.value));
      VerifiedCredits(s, s', id, out.value);
    }
  }

  lemma StepKeepsInv(s: Tables, step: Step)
    requires Inv(s)
    ensures Inv(Next(s, step))
  {
    match step
    case StepAddPayment(p) => AddPaymentKeepsInv(s, p);
    case StepVerifyPayment(provider, ref, success, currency, v) =>
      VerifyKeepsInv(s, provider, ref, success, currency, v);
    case _ =>
      OtherStepsKeepMoney(s, step);
      forall i | 0 <= i < |s.ledger| ensures EntryMatches(Next(s, step), s.ledger[i]) {
        assert EntryMatches(s, s.ledger[i]);
      }
  }

  lemma {:induction false} OneCreditPerSuccess(s: Tables, steps: seq<Step>)
    requires LedgerStart(s)
    ensures Inv(Run(s, steps))
  {
    if |steps| != 0 {
      OneCreditPerSuccess(s, steps[..|steps| - 1]);
      StepKeepsInv(Run(s, steps[..|steps| - 1]), steps[|steps| - 1]);
    }
  }

  /******* Sums per currency *******/

  ghost predicate Balanced(s: Tables, currency: string) {
    Total(s.ledger, CreditIn(currency)) == Total(s.payments, SuccessIn(s.orders, currency))
  }

  lemma SuccessSumKept(s: Tables, s': Tables, currency: string)
    requires Inv(s) && s'.payments == s.payments && KeepsCurrency(s, s')
    ensures Total(s'.payments, SuccessIn(s'.orders, currency)) == Total(s.payments, SuccessIn(s.orders, currency))
  {
    TotalSame(s.payments, s.payments, SuccessIn(s'.orders, currency), SuccessIn(s.orders, currency));
  }

  lemma VerifyKeepsBalance(
    s: Tables, provider: Provider, ref: string, success: bool, vc: string, v: Verification, currency: string)
    requires Inv(s) && Balanced(s, currency)
    ensures Balanced(VerifyPayment(s, provider, ref, success, vc, v).0, currency)
  {
    var (s', out) := VerifyPayment(s, provider, ref, success, vc, v);
    if out.Ok? {
      var id := FindPayment(s.payments, provider, ref).value;
      var w := SuccessIn(s.orders, currency);
      TotalUpdate(s.payments, id, s'.payments[id], w);
      TotalSame(s'.payments, s'.payments, SuccessIn(s'.orders, currency), w);
      if out.value == Success { TotalAppend(s.ledger, s'.ledger[|s.ledger|], CreditIn(currency)); }
    }
  }

  lemma StepKeepsBalance(s: Tables, step: Step, currency: string)
    requires Inv(s) && Balanced(s, currency)
    ensures Balanced(Next(s, step), currency)
  {
    match step
    case StepAddPayment(p) => TotalAppend(s.payments, p, SuccessIn(s.orders, currency));
    case StepVerifyPayment(provider, ref, success, vc, v) =>
      VerifyKeepsBalance(s, provider, ref, success, vc, v, currency);
    case _ =>
      OtherStepsKeepMoney(s, step);
      SuccessSumKept(s, Next(s, step), currency);
  }

  lemma {:induction false} NothingSucceeded(payments: seq<Payment>, orders: seq<Order>, currency: string)
    requires forall i :: 0 <= i < |payments| ==> payments[i].status != Success
    ensures Total(payments, SuccessIn(orders, currency)) == 0
  {
    if |payments| != 0 { NothingSucceeded(payments[..|payments| - 1], orders, currency); }
  }

  // In every run the credits in a currency add up to the successful payments of
  // orders in that currency.
  lemma {:induction false} CreditsEqualSuccesses(s: Tables, steps: seq<Step>, currency: string)
    requires LedgerStart(s)
    ensures Inv(Run(s, steps)) && Balanced(Run(s, steps), currency)
  {
    OneCreditPerSuccess(s, steps);
    if |steps| == 0 {
      NothingSucceeded(s.payments, s.orders, currency);
    } else {
      var front := steps[..|steps| - 1];
      CreditsEqualSuccesses(s, front, currency);
      StepKeepsBalance(Run(s, front), steps[|steps| - 1], currency);
    }
  }
}
