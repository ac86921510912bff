/** The button that sets the amount of every payment of a round's bets to
    the round's bet value. */
module UpdatePaymentsValueButton {
  import opened Lottery
  import opened Store

  /** `.from("payments").update({ amount: betValue }).in("bet_id", betIds)`
      as a value: the payments of the listed bets take the new amount. */
  function Repriced(ps: seq<Payment>, betIds: seq<Id>, value: Cents): (r: seq<Payment>)
    ensures |r| == |ps|
    ensures forall i :: 0 <= i < |ps| ==>
      && r[i].id == ps[i].id && r[i].betId == ps[i].betId
      && r[i].status == ps[i].status && r[i].paymentDate == ps[i].paymentDate
      && r[i].amount == (if ps[i].betId in betIds then value else ps[i].amount)
  {
    if ps == [] then []
    else [if ps[0].betId in betIds then ps[0].(amount := value) else ps[0]] + Repriced(ps[1..], betIds, value)
  }

  /** The same update done row by row on the payments table. */
  method Reprice(payments: array<Payment>, betIds: seq<Id>, value: Cents)
    modifies payments
    ensures payments[..] == Repriced(old(payments[..]), betIds, value)
  {
    ghost var before := payments[..];
    for i := 0 to payments.Length
      invariant forall k :: i <= k < payments.Length ==> payments[k] == before[k]
      invariant forall k :: 0 <= k < i ==> payments[k] == Repriced(before, betIds, value)[k]
    {
      if payments[i].betId in betIds {
        payments[i] := payments[i].(amount := value);
      }
    }
  }

  datatype Outcome = Declined | FetchFailed | NoBets | UpdateFailed | Updated(count: nat)

  /** `handleUpdate`. `confirmed` is the answer to the confirmation,
      `betsOk` and `updateOk` whether the bets query and the update succeed;
      `bets` is the bets table. */
  method HandleUpdate(bets: seq<Bet>, payments: array<Payment>, roundId: Id, betValue: Cents,
                      confirmed: bool, betsOk: bool, updateOk: bool)
    returns (outcome: Outcome)
    modifies payments
    ensures var ids := BetIds(BetsOfRound(bets, roundId));
      payments[..] == if outcome.Updated? then Repriced(old(payments[..]), ids, betValue) else old(payments[..])
    ensures outcome == Declined <==> !confirmed
    ensures outcome == FetchFailed <==> confirmed && !betsOk
    ensures outcome == NoBets <==> confirmed && betsOk && BetsOfRound(bets, roundId) == []
    ensures outcome.Updated? <==> confirmed && betsOk && BetsOfRound(bets, roundId) != [] && updateOk
    ensures outcome.Updated? ==> outcome.count == |BetsOfRound(bets, roundId)|
  {
    if !confirmed {
      return Declined;
    }
    if !betsOk {
      return FetchFailed;
    }
    var roundBets := BetsOfRound(bets, roundId);
    if |roundBets| == 0 {
      return NoBets;
    }
    var betIds := BetIds(roundBets);
    if !updateOk {
      return UpdateFailed;
    }
    Reprice(payments, betIds, betValue);
    return Updated(|roundBets|);
  }

  /** Only payments of the round's bets change, and a second update with the
      same value changes nothing more. */
  lemma {:induction false} RepricedIdempotent(ps: seq<Payment>, betIds: seq<Id>, value: Cents)
    ensures Repriced(Repriced(ps, betIds, value), betIds, value) == Repriced(ps, betIds, value)
  {
    if ps != [] {
      RepricedIdempotent(ps[1..], betIds, value);
    }
  }

  /** After the update every payment of the listed bets carries the value. */
  lemma RepricedCarriesValue(ps: seq<Payment>, betIds: seq<Id>, value: Cents)
    ensures forall p :: p in Repriced(ps, betIds, value) && p.betId in betIds ==> p.amount == value
  {
    var r := Repriced(ps, betIds, value);
    forall p | p in r && p.betId in betIds
      ensures p.amount == value
    {
      var i :| 0 <= i < |r| && r[i] == p;
    }
  }
}
