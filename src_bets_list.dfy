/** The second bet list: the same ordering, badge and mark-paid rule as the
    first, but without an action to undo a payment. */
module SrcBetsList {
  import opened Lottery
  import opened Store
  import BetsList

  datatype Actions = Actions(edit: bool, markPaid: Option<Id>, delete: bool)

  /** `isAuthenticated && (... !isPaid && payment && <MarkPaidDialog/> ...)`. */
  function ActionsFor(v: BetView, authenticated: bool): (r: Actions)
    ensures r.edit == authenticated && r.delete == authenticated
    ensures r.markPaid.Some? <==> authenticated && |v.payments| > 0 && !IsPaid(v)
    ensures r.markPaid.Some? ==> r.markPaid.value == v.payments[0].id
  {
    var payment := FirstPayment(v);
    Actions(authenticated, if authenticated && !IsPaid(v) && payment.Some? then Some(payment.value.id) else None,
            authenticated)
  }

  /** Both lists offer "mark paid" on the same bets, for the same payment;
      here a paid bet offers no payment action at all. */
  lemma SameMarkPaidRule(v: BetView, authenticated: bool)
    ensures ActionsFor(v, authenticated).markPaid == BetsList.ActionsFor(v, authenticated).markPaid
    ensures IsPaid(v) ==> ActionsFor(v, authenticated).markPaid.None?
  {
  }
}
