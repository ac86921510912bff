/** The tables of the bolão database as in-memory records. Every identifier,
    timestamp and generated key is supplied by the caller; the store's own
    query engine is not modelled, only the rows the pages read and write. */
module Store {
  import opened Lottery

  datatype RoundStatus = Active | Finished | Completed

  datatype Round = Round(
    id: Id,
    name: string,
    lotteryType: LotteryType,
    status: RoundStatus,
    startDate: Date,
    paymentDeadline: Option<Date>,
    roundStartDate: Option<Date>,
    betValue: Option<Cents>)

  datatype Player = Player(id: Id, name: string, email: Option<string>, phone: Option<string>)

  datatype Bet = Bet(id: Id, roundId: Id, playerId: Id, numbers: seq<int>)

  datatype PaymentStatus = Pending | Paid

  datatype Payment = Payment(
    id: Id,
    betId: Id,
    amount: Cents,
    paymentDate: Option<Date>,
    status: PaymentStatus)

  datatype Draw = Draw(id: Id, roundId: Id, drawNumber: int, drawDate: Date, numbers: seq<int>)

  /** A row of `results`: how one bet scored in one draw. */
  datatype ResultRow = ResultRow(betId: Id, drawId: Id, matchesCount: nat, matchedNumbers: seq<int>)

  /** The database: one sequence per table, in insertion order. */
  class Database {
    var rounds: seq<Round>
    var players: seq<Player>
    var bets: seq<Bet>
    var payments: seq<Payment>
    var draws: seq<Draw>
    var results: seq<ResultRow>

    constructor()
      ensures rounds == [] && players == [] && bets == []
      ensures payments == [] && draws == [] && results == []
    {
      rounds, players, bets := [], [], [];
      payments, draws, results := [], [], [];
    }
  }

  /** `.from("bets").select("*").eq("round_id", roundId)`. */
  function BetsOfRound(bets: seq<Bet>, roundId: Id): (r: seq<Bet>)
    ensures |r| <= |bets|
    ensures forall b :: b in r <==> b in bets && b.roundId == roundId
  {
    if bets == [] then []
    else (if bets[0].roundId == roundId then [bets[0]] else []) + BetsOfRound(bets[1..], roundId)
  }

  /** The ids of a list of bets, in order. */
  function BetIds(bets: seq<Bet>): (r: seq<Id>)
    ensures |r| == |bets|
    ensures forall i :: 0 <= i < |bets| ==> r[i] == bets[i].id
  {
    seq(|bets|, i requires 0 <= i < |bets| => bets[i].id)
  }

  /** `.from("draws").select("*").eq("round_id", roundId)`. */
  function DrawsOfRound(draws: seq<Draw>, roundId: Id): (r: seq<Draw>)
    ensures |r| <= |draws|
    ensures forall d :: d in r <==> d in draws && d.roundId == roundId
  {
    if draws == [] then []
    else (if draws[0].roundId == roundId then [draws[0]] else []) + DrawsOfRound(draws[1..], roundId)
  }

  /** A bet as the lists and reports read it: joined with its player's name
      and its payments (`select("*, player:players(*), payments(*)")`). */
  datatype BetView = BetView(bet: Bet, playerName: string, payments: seq<Payment>)

  /** `payments?.[0]`. */
  function FirstPayment(v: BetView): (r: Option<Payment>)
    ensures r.None? <==> v.payments == []
    ensures r.Some? ==> r.value in v.payments && r.value == v.payments[0]
  {
    if |v.payments| > 0 then Some(v.payments[0]) else None
  }

  /** `payments?.[0]?.status === "paid"`: only the first payment counts. */
  predicate IsPaid(v: BetView): (r: bool)
    ensures r <==> |v.payments| > 0 && v.payments[0].status == Paid
    ensures r ==> exists p :: p in v.payments && p.status == Paid
  {
    FirstPayment(v).Some? && FirstPayment(v).value.status == Paid
  }

  /** `.from("payments").update({ status, payment_date }).eq("id", paymentId)`:
      every row with that id takes the new status and date, nothing else moves. */
  function SetPaymentStatus(ps: seq<Payment>, paymentId: Id, status: PaymentStatus, date: Option<Date>)
    : (r: seq<Payment>)
    ensures |r| == |ps|
    ensures forall i :: 0 <= i < |ps| ==>
      && r[i].id == ps[i].id && r[i].betId == ps[i].betId && r[i].amount == ps[i].amount
      && (ps[i].id == paymentId ==> r[i].status == status && r[i].paymentDate == date)
      && (ps[i].id != paymentId ==> r[i] == ps[i])
  {
    if ps == [] then []
    else
      var p := ps[0];
      [if p.id == paymentId then p.(status := status, paymentDate := date) else p]
        + SetPaymentStatus(ps[1..], paymentId, status, date)
  }

  /** `value || null` on a text field: the empty string is stored as null. */
  function OrNull(s: string): (r: Option<string>)
    ensures r.None? <==> s == ""
    ensures r.Some? ==> r.value == s
  {
    if s == "" then None else Some(s)
  }
}
