/** The round report's payment summary: how many bets are paid or pending
    and the money on each side. A bet counts by its first payment only. */
module RoundReportPage {
  import opened Lottery
  import opened Store

  datatype Report = Report(
    totalBets: nat,
    paidBets: nat,
    pendingBets: int,
    totalAmount: int,
    pendingAmount: int)

  /** `bets.filter(b => b.payments?.[0]?.status === "paid").length`. */
  function PaidCount(bets: seq<BetView>): (r: nat)
    ensures r <= |bets|
    ensures r == |bets| <==> forall b :: b in bets ==> IsPaid(b)
    ensures r == 0 <==> forall b :: b in bets ==> !IsPaid(b)
  {
    if bets == [] then 0
    else PaidCount(bets[..|bets| - 1]) + (if IsPaid(bets[|bets| - 1]) then 1 else 0)
  }

  /** The bets with no paid first payment, counted on their own: the ones
      without any payment and the ones whose first payment is pending. */
  function UnpaidCount(bets: seq<BetView>): nat
  {
    if bets == [] then 0
    else UnpaidCount(bets[..|bets| - 1]) + (if IsPaid(bets[|bets| - 1]) then 0 else 1)
  }

  /** Sum of the first payment's amount over the paid bets. */
  function PaidAmount(bets: seq<BetView>): (r: int)
    ensures (forall b :: b in bets ==> !IsPaid(b)) ==> r == 0
    ensures (forall b :: b in bets ==> IsPaid(b)) ==> r == FirstAmounts(bets)
  {
    if bets == [] then 0
    else
      var b := bets[|bets| - 1];
      PaidAmount(bets[..|bets| - 1]) + (if IsPaid(b) then b.payments[0].amount else 0)
  }

  /** Sum of the first payment's amount over the bets that have one and
      whose first payment is not paid. */
  function PendingAmount(bets: seq<BetView>): (r: int)
    ensures (forall b :: b in bets ==> IsPaid(b) || b.payments == []) ==> r == 0
    ensures (forall b :: b in bets ==> !IsPaid(b)) ==> r == FirstAmounts(bets)
  {
    if bets == [] then 0
    else
      var b := bets[|bets| - 1];
      PendingAmount(bets[..|bets| - 1])
        + (if !IsPaid(b) && FirstPayment(b).Some? then b.payments[0].amount else 0)
  }

  /** Sum of every bet's first payment, 0 for a bet without payments. */
  function FirstAmounts(bets: seq<BetView>): int
  {
    if bets == [] then 0
    else
      var b := bets[|bets| - 1];
      FirstAmounts(bets[..|bets| - 1]) + (if FirstPayment(b).Some? then b.payments[0].amount else 0)
  }

  /** The five summary figures of the report page. */
  function Summarize(bets: seq<BetView>): (r: Report)
    ensures r.totalBets == |bets|
    ensures 0 <= r.paidBets <= r.totalBets
    ensures r.paidBets + r.pendingBets == r.totalBets
  {
    var paid := PaidCount(bets);
    Report(|bets|, paid, |bets| - paid, PaidAmount(bets), PendingAmount(bets))
  }

  /** "Pendentes" is exactly the bets that are not paid, including the ones
      that have no payment at all. */
  lemma {:induction false} PendingAreUnpaid(bets: seq<BetView>)
    ensures Summarize(bets).pendingBets == UnpaidCount(bets)
    ensures Summarize(bets).pendingBets >= 0
  {
    if bets != [] {
      PendingAreUnpaid(bets[..|bets| - 1]);
    }
  }

  /** The paid and the pending amount split the sum of all first payments. */
  lemma {:induction false} AmountsSplit(bets: seq<BetView>)
    ensures Summarize(bets).totalAmount + Summarize(bets).pendingAmount == FirstAmounts(bets)
  {
    if bets != [] {
      AmountsSplit(bets[..|bets| - 1]);
    }
  }

  /** A bet without payments adds to the pending count but to neither amount. */
  lemma WithoutPaymentIsPendingForFree(bets: seq<BetView>, b: BetView)
    requires b.payments == []
    ensures Summarize(bets + [b]).pendingBets == Summarize(bets).pendingBets + 1
    ensures Summarize(bets + [b]).totalAmount == Summarize(bets).totalAmount
    ensures Summarize(bets + [b]).pendingAmount == Summarize(bets).pendingAmount
  {
    assert (bets + [b])[..|bets|] == bets;
  }

  /** Two bets with the same first payment look the same to every figure. */
  ghost predicate SameFirst(a: seq<BetView>, b: seq<BetView>)
  {
    |a| == |b| && forall i :: 0 <= i < |a| ==> FirstPayment(a[i]) == FirstPayment(b[i])
  }

  lemma SameFirstPrefix(a: seq<BetView>, b: seq<BetView>)
    requires SameFirst(a, b) && a != []
    ensures SameFirst(a[..|a| - 1], b[..|b| - 1])
    ensures IsPaid(a[|a| - 1]) == IsPaid(b[|b| - 1])
    ensures FirstPayment(a[|a| - 1]).Some? ==> a[|a| - 1].payments[0].amount == b[|b| - 1].payments[0].amount
  {
    var n := |a| - 1;
    forall i | 0 <= i < n
      ensures FirstPayment(a[..n][i]) == FirstPayment(b[..n][i])
    {
      assert a[..n][i] == a[i] && b[..n][i] == b[i];
    }
    assert FirstPayment(a[n]) == FirstPayment(b[n]);
  }

  lemma {:induction false} SamePaidCount(a: seq<BetView>, b: seq<BetView>)
    requires SameFirst(a, b)
    ensures PaidCount(a) == PaidCount(b)
  {
    if a != [] {
      SameFirstPrefix(a, b);
      SamePaidCount(a[..|a| - 1], b[..|b| - 1]);
    }
  }

  lemma {:induction false} SamePaidAmount(a: seq<BetView>, b: seq<BetView>)
    requires SameFirst(a, b)
    ensures PaidAmount(a) == PaidAmount(b)
  {
    if a != [] {
      SameFirstPrefix(a, b);
      SamePaidAmount(a[..|a| - 1], b[..|b| - 1]);
    }
  }

  lemma {:induction false} SamePendingAmount(a: seq<BetView>, b: seq<BetView>)
    requires SameFirst(a, b)
    ensures PendingAmount(a) == PendingAmount(b)
  {
    if a != [] {
      SameFirstPrefix(a, b);
      SamePendingAmount(a[..|a| - 1], b[..|b| - 1]);
    }
  }

  /** Only the first payment of each bet matters: payments after it, and the
      rest of the bet, leave the report unchanged. */
  lemma OnlyFirstPaymentCounts(a: seq<BetView>, b: seq<BetView>)
    requires |a| == |b|
    requires forall i :: 0 <= i < |a| ==> FirstPayment(a[i]) == FirstPayment(b[i])
    ensures Summarize(a) == Summarize(b)
  {
    SamePaidCount(a, b);
    SamePaidAmount(a, b);
    SamePendingAmount(a, b);
  }
}
