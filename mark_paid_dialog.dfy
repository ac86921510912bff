/** The "mark as paid" confirmation: one payment becomes paid, dated now. */
module MarkPaidDialog {
  import opened Lottery
  import opened Store

  class MarkPaidForm {
    const paymentId: Id
    var open: bool

    constructor(paymentId: Id)
      ensures this.paymentId == paymentId && !open
    {
      this.paymentId := paymentId;
      open := false;
    }

    /** The trigger button. */
    method Open()
      modifies this
      ensures open
    {
      open := true;
    }

    /** `handleMarkPaid`. `now` is the timestamp taken when confirming and
        `ok` whether the store accepted the update; on failure an alert is
        shown and the dialog stays as it was. */
    method Confirm(db: Database, now: Date, ok: bool) returns (alerted: bool)
      modifies this, db
      ensures db.payments == if ok then SetPaymentStatus(old(db.payments), paymentId, Paid, Some(now))
                             else old(db.payments)
      ensures db.rounds == old(db.rounds) && db.players == old(db.players) && db.bets == old(db.bets)
      ensures db.draws == old(db.draws) && db.results == old(db.results)
      ensures alerted == !ok
      ensures open == (old(open) && !ok)
    {
      if ok {
        db.payments := SetPaymentStatus(db.payments, paymentId, Paid, Some(now));
        open := false;
        alerted := false;
      } else {
        alerted := true;
      }
    }
  }

  /** A bet whose first payment is the one marked is paid afterwards, and its
      amount is the one it had. */
  lemma MarkingFirstPaymentPays(v: BetView, now: Date)
    requires |v.payments| > 0
    ensures var w := v.(payments := SetPaymentStatus(v.payments, v.payments[0].id, Paid, Some(now)));
      IsPaid(w) && w.payments[0].amount == v.payments[0].amount
  {
  }
}
