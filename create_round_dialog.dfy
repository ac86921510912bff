/** The "new round" dialog: a name, a lottery type (quina by default) and two
    optional dates; a new round always starts active. */
module CreateRoundDialog {
  import opened Lottery
  import opened Store

  /** The inserted record. `now` is the creation timestamp; the bet value is
      not part of the record. */
  function NewRound(id: Id, name: string, lotteryType: LotteryType, now: Date,
                    paymentDeadline: string, roundStartDate: string): (r: Round)
    ensures r.id == id && r.name == name && r.lotteryType == lotteryType && r.startDate == now
    ensures r.status == Active
    ensures r.paymentDeadline.None? <==> paymentDeadline == ""
    ensures r.roundStartDate.None? <==> roundStartDate == ""
    ensures r.paymentDeadline.Some? ==> r.paymentDeadline.value == paymentDeadline
    ensures r.roundStartDate.Some? ==> r.roundStartDate.value == roundStartDate
    ensures r.betValue.None?
  {
    Round(id, name, lotteryType, Active, now, OrNull(paymentDeadline), OrNull(roundStartDate), None)
  }

  /** `Blocked`: the `required` name is empty, so the handler never runs. */
  datatype Outcome = Blocked | InsertFailed | Created

  class CreateRoundForm {
    var open: bool
    var name: string
    var lotteryType: LotteryType
    var paymentDeadline: string
    var roundStartDate: string

    /** The form's defaults: empty fields and quina. */
    predicate IsReset()
      reads this
    {
      name == "" && lotteryType == Quina && paymentDeadline == "" && roundStartDate == ""
    }

    constructor()
      ensures IsReset() && !open
    {
      open := false;
      name, lotteryType := "", Quina;
      paymentDeadline, roundStartDate := "", "";
    }

    /** The `onChange`/`onValueChange` handlers, each replacing one field. */
    method SetName(v: string)
      modifies this
      ensures name == v
      ensures open == old(open) && lotteryType == old(lotteryType)
      ensures paymentDeadline == old(paymentDeadline) && roundStartDate == old(roundStartDate)
    {
      name := v;
    }

    method SetLotteryType(t: LotteryType)
      modifies this
      ensures lotteryType == t
      ensures open == old(open) && name == old(name)
      ensures paymentDeadline == old(paymentDeadline) && roundStartDate == old(roundStartDate)
    {
      lotteryType := t;
    }

    method SetDates(deadline: string, start: string)
      modifies this
      ensures paymentDeadline == deadline && roundStartDate == start
      ensures open == old(open) && name == old(name) && lotteryType == old(lotteryType)
    {
      paymentDeadline, roundStartDate := deadline, start;
    }

    /** `handleSubmit`: `id` and `now` come from the store and the clock, `ok`
        says whether the insert succeeds. On success the form returns to its
        defaults and closes; on failure an alert is shown and nothing changes. */
    method Submit(db: Database, id: Id, now: Date, ok: bool) returns (outcome: Outcome)
      modifies this, db
      ensures outcome == Blocked <==> old(name) == ""
      ensures outcome == Created <==> old(name) != "" && ok
      ensures db.rounds == if outcome == Created
        then old(db.rounds) + [NewRound(id, old(name), old(lotteryType), now, old(paymentDeadline), old(roundStartDate))]
        else old(db.rounds)
      ensures db.players == old(db.players) && db.bets == old(db.bets) && db.payments == old(db.payments)
      ensures db.draws == old(db.draws) && db.results == old(db.results)
      ensures outcome == Created ==> IsReset() && !open
      ensures outcome != Created ==>
        && open == old(open) && name == old(name) && lotteryType == old(lotteryType)
        && paymentDeadline == old(paymentDeadline) && roundStartDate == old(roundStartDate)
    {
      if name == "" {
        return Blocked;
      }
      if !ok {
        return InsertFailed;
      }
      db.rounds := db.rounds + [NewRound(id, name, lotteryType, now, paymentDeadline, roundStartDate)];
      name, lotteryType := "", Quina;
      paymentDeadline, roundStartDate := "", "";
      open := false;
      outcome := Created;
    }
  }
}
