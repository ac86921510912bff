/** A round's bet list: bets by player name, a paid or pending badge from the
    first payment, and the actions offered on each bet, including undoing a
    payment. */
module BetsList {
  import opened Lottery
  import opened Sorting
  import opened Store

  /** Bets ordered by `localeCompare` on the player's name, here `nameLt`. */
  function ByPlayerName(nameLt: (string, string) -> bool): (BetView, BetView) -> bool
  {
    (a: BetView, b: BetView) => nameLt(a.playerName, b.playerName)
  }

  lemma ByPlayerNameIsStrictWeakOrder(nameLt: (string, string) -> bool)
    requires StrictWeakOrder(nameLt)
    ensures StrictWeakOrder(ByPlayerName(nameLt))
  {
    var lt := ByPlayerName(nameLt);
    forall a: BetView
      ensures !lt(a, a)
    {
      assert !nameLt(a.playerName, a.playerName);
    }
    forall a: BetView, b: BetView, c: BetView
      ensures lt(a, b) && lt(b, c) ==> lt(a, c)
      ensures !lt(a, b) && !lt(b, c) ==> !lt(a, c)
    {
      assert lt(a, b) == nameLt(a.playerName, b.playerName);
      assert lt(b, c) == nameLt(b.playerName, c.playerName);
      assert lt(a, c) == nameLt(a.playerName, c.playerName);
    }
  }

  /** `[...bets].sort((a, b) => a.player.name.localeCompare(b.player.name))`. */
  function SortedBets(bets: seq<BetView>, nameLt: (string, string) -> bool): (r: seq<BetView>)
    ensures multiset(r) == multiset(bets)
    ensures |r| == |bets|
  {
    SortByPermutes(bets, ByPlayerName(nameLt));
    SortBy(bets, ByPlayerName(nameLt))
  }

  /** The list shows every bet once, by ascending player name, and bets of
      players with equal names keep their fetched order (the sort is stable). */
  lemma SortedBetsOrdered(bets: seq<BetView>, nameLt: (string, string) -> bool)
    requires StrictWeakOrder(nameLt)
    ensures var s := SortedBets(bets, nameLt);
      && multiset(s) == multiset(bets) && |s| == |bets|
      && (forall i, j :: 0 <= i < j < |s| ==> !nameLt(s[j].playerName, s[i].playerName))
      && (forall y :: TiedWith(s, y, ByPlayerName(nameLt)) == TiedWith(bets, y, ByPlayerName(nameLt)))
  {
    ByPlayerNameIsStrictWeakOrder(nameLt);
    SortByCorrect(bets, ByPlayerName(nameLt));
    var s := SortedBets(bets, nameLt);
    forall i, j | 0 <= i < j < |s|
      ensures !nameLt(s[j].playerName, s[i].playerName)
    {
      assert !ByPlayerName(nameLt)(s[j], s[i]);
    }
  }

  /** "Pago - R$ amount" or "Pagamento Pendente". */
  datatype PaymentBadge = PaidBadge(amount: Cents) | PendingBadge

  function BadgeFor(v: BetView): (r: PaymentBadge)
    ensures r.PaidBadge? <==> IsPaid(v)
    ensures r.PaidBadge? ==> r.amount == v.payments[0].amount
  {
    if IsPaid(v) then PaidBadge(v.payments[0].amount) else PendingBadge
  }

  /** The buttons of one bet card; the payment actions carry the id of the
      payment they act on. */
  datatype Actions = Actions(edit: bool, markPaid: Option<Id>, unpay: Option<Id>, delete: bool)

  function ActionsFor(v: BetView, authenticated: bool): (r: Actions)
    ensures r.edit == authenticated && r.delete == authenticated
    ensures r.markPaid.Some? <==> authenticated && |v.payments| > 0 && !IsPaid(v)
    ensures r.unpay.Some? <==> authenticated && IsPaid(v)
    ensures !(r.markPaid.Some? && r.unpay.Some?)
    ensures r.markPaid.Some? ==> r.markPaid.value == v.payments[0].id
    ensures r.unpay.Some? ==> r.unpay.value == v.payments[0].id
  {
    var payment := FirstPayment(v);
    var paid := IsPaid(v);
    Actions(
      authenticated,
      if authenticated && !paid && payment.Some? then Some(payment.value.id) else None,
      if authenticated && paid && payment.Some? then Some(payment.value.id) else None,
      authenticated)
  }

  /** `handleUnpay`: with a payment chosen, the store sets it back to pending
      with no date; `ok` says whether the update succeeds. The choice is
      cleared either way. */
  method Unpay(db: Database, unpayPaymentId: Option<Id>, ok: bool) returns (alerted: bool)
    modifies db
    ensures db.payments ==
      if unpayPaymentId.Some? && ok then SetPaymentStatus(old(db.payments), unpayPaymentId.value, Pending, None)
      else old(db.payments)
    ensures db.rounds == old(db.rounds) && db.players == old(db.players) && db.bets == old(db.bets)
    ensures db.draws == old(db.draws) && db.results == old(db.results)
    ensures alerted <==> unpayPaymentId.Some? && !ok
  {
    if unpayPaymentId.None? {
      return false;
    }
    if ok {
      db.payments := SetPaymentStatus(db.payments, unpayPaymentId.value, Pending, None);
      alerted := false;
    } else {
      alerted := true;
    }
  }

  /** Undoing a payment that was just marked gives back the rows as they
      were, when they were pending with no date before. */
  lemma {:induction false} UnpayUndoesMarkPaid(ps: seq<Payment>, id: Id, now: Date)
    requires forall p :: p in ps && p.id == id ==> p.status == Pending && p.paymentDate.None?
    ensures SetPaymentStatus(SetPaymentStatus(ps, id, Paid, Some(now)), id, Pending, None) == ps
  {
    if ps != [] {
      UnpayUndoesMarkPaid(ps[1..], id, now);
      assert ps[0] in ps;
    }
  }

  /** Marking again a payment that was just undone restores the rows when
      they had been paid at that same time. */
  lemma {:induction false} MarkPaidUndoesUnpay(ps: seq<Payment>, id: Id, now: Date)
    requires forall p :: p in ps && p.id == id ==> p.status == Paid && p.paymentDate == Some(now)
    ensures SetPaymentStatus(SetPaymentStatus(ps, id, Pending, None), id, Paid, Some(now)) == ps
  {
    if ps != [] {
      MarkPaidUndoesUnpay(ps[1..], id, now);
      assert ps[0] in ps;
    }
  }

  /** Each payment action leads to the other: after undoing the first payment
      of a paid bet, the card offers "mark paid" for it, and after marking it
      the card offers "undo". */
  lemma ActionsAlternate(v: BetView, now: Date)
    requires |v.payments| > 0
    ensures var id := v.payments[0].id;
      && ActionsFor(v.(payments := SetPaymentStatus(v.payments, id, Pending, None)), true).markPaid == Some(id)
      && ActionsFor(v.(payments := SetPaymentStatus(v.payments, id, Paid, Some(now))), true).unpay == Some(id)
  {
  }
}
