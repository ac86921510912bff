/** The "edit round" dialog: name, status, the two dates and the bet value
    can be changed; the lottery type is shown but never written. */
module EditRoundDialog {
  import opened Lottery
  import opened Store

  /** The date field as the form first shows it: "" for a missing or empty date. */
  function DateField(d: Option<Date>): (r: string)
    ensures d.None? ==> r == ""
    ensures d.Some? ==> r <= d.value
  {
    if d.Some? && d.value != "" then DayPart(d.value) else ""
  }

  /** `.update({ name, status, payment_deadline, round_start_date, bet_value }).eq("id", id)`. */
  function UpdateRound(rounds: seq<Round>, id: Id, name: string, status: RoundStatus,
                       paymentDeadline: string, roundStartDate: string, betValue: Cents): (r: seq<Round>)
    ensures |r| == |rounds|
    ensures forall i :: 0 <= i < |rounds| ==>
      && r[i].id == rounds[i].id && r[i].lotteryType == rounds[i].lotteryType
      && r[i].startDate == rounds[i].startDate
      && (rounds[i].id != id ==> r[i] == rounds[i])
      && (rounds[i].id == id ==>
            && r[i].name == name && r[i].status == status && r[i].betValue == Some(betValue)
            && r[i].paymentDeadline == OrNull(paymentDeadline)
            && r[i].roundStartDate == OrNull(roundStartDate))
  {
    if rounds == [] then []
    else
      var x := rounds[0];
      [if x.id == id
       then x.(name := name, status := status, paymentDeadline := OrNull(paymentDeadline),
               roundStartDate := OrNull(roundStartDate), betValue := Some(betValue))
       else x]
      + UpdateRound(rounds[1..], id, name, status, paymentDeadline, roundStartDate, betValue)
  }

  /** The smallest bet value the number input accepts (`min="0.01"`). */
  const MinBetValue: Cents := 1

  /** `Blocked`: the `required` name is empty or the bet value is below the
      input's minimum, so the handler never runs. */
  datatype Outcome = Blocked | UpdateFailed | Updated

  class EditRoundForm {
    const round: Round
    var open: bool
    var name: string
    var status: RoundStatus
    var paymentDeadline: string
    var roundStartDate: string
    var betValue: Cents

    /** The initial `formData`, taken from the round once. */
    constructor(round: Round)
      ensures this.round == round && !open
      ensures name == round.name && status == round.status
      ensures paymentDeadline == DateField(round.paymentDeadline)
      ensures roundStartDate == DateField(round.roundStartDate)
      ensures betValue == BetValueOr(round.betValue)
    {
      this.round := round;
      open := false;
      name, status := round.name, round.status;
      paymentDeadline := DateField(round.paymentDeadline);
      roundStartDate := DateField(round.roundStartDate);
      betValue := BetValueOr(round.betValue);
    }

    /** The status select offers only "Ativa" and "Finalizada". */
    method ChooseStatus(s: RoundStatus)
      requires s == Active || s == Finished
      modifies this
      ensures status == s
      ensures open == old(open) && name == old(name) && betValue == old(betValue)
      ensures paymentDeadline == old(paymentDeadline) && roundStartDate == old(roundStartDate)
    {
      status := s;
    }

    /** The remaining `onChange` handlers, each replacing its field. */
    method SetFields(name': string, deadline: string, start: string, value: Cents)
      modifies this
      ensures name == name' && paymentDeadline == deadline && roundStartDate == start && betValue == value
      ensures open == old(open) && status == old(status)
    {
      name, paymentDeadline, roundStartDate, betValue := name', deadline, start, value;
    }

    /** `handleSubmit`; `ok` says whether the update succeeds. The dialog
        closes only then; on failure an alert is shown. */
    method Submit(db: Database, ok: bool) returns (outcome: Outcome)
      modifies this, db
      ensures outcome == Blocked <==> old(name) == "" || old(betValue) < MinBetValue
      ensures outcome == Updated <==> old(name) != "" && old(betValue) >= MinBetValue && ok
      ensures db.rounds == if outcome == Updated
        then UpdateRound(old(db.rounds), round.id, name, status, paymentDeadline, roundStartDate, betValue)
        else old(db.rounds)
      ensures db.players == old(db.players) && db.bets == old(db.bets) && db.payments == old(db.payments)
      ensures db.draws == old(db.draws) && db.results == old(db.results)
      ensures open == (old(open) && outcome != Updated)
      ensures name == old(name) && status == old(status) && betValue == old(betValue)
      ensures paymentDeadline == old(paymentDeadline) && roundStartDate == old(roundStartDate)
    {
      if name == "" || betValue < MinBetValue {
        return Blocked;
      }
      if !ok {
        return UpdateFailed;
      }
      db.rounds := UpdateRound(db.rounds, round.id, name, status, paymentDeadline, roundStartDate, betValue);
      open := false;
      outcome := Updated;
    }
  }

  /** Submitting the form as it opened writes the round back unchanged when
      its dates carry no time part and it has a bet value: editing is then a
      no-op, and the lottery type of every round is kept in any case. */
  lemma {:induction false} UntouchedFormKeepsRound(rounds: seq<Round>, round: Round)
    requires forall x :: x in rounds && x.id == round.id ==> x == round
    requires round.paymentDeadline.None? || (round.paymentDeadline.value != "" && 'T' !in round.paymentDeadline.value)
    requires round.roundStartDate.None? || (round.roundStartDate.value != "" && 'T' !in round.roundStartDate.value)
    requires round.betValue.Some? && round.betValue.value != 0
    ensures UpdateRound(rounds, round.id, round.name, round.status, DateField(round.paymentDeadline),
                        DateField(round.roundStartDate), BetValueOr(round.betValue)) == rounds
  {
    if rounds != [] {
      assert rounds[0] in rounds;
      UntouchedFormKeepsRound(rounds[1..], round);
    }
  }

  /** A round without a bet value gets the default one the first time it is
      saved from this dialog. */
  lemma SavingFillsDefaultValue(rounds: seq<Round>, round: Round, i: nat)
    requires i < |rounds| && rounds[i].id == round.id && round.betValue.None?
    ensures UpdateRound(rounds, round.id, round.name, round.status, DateField(round.paymentDeadline),
                        DateField(round.roundStartDate), BetValueOr(round.betValue))[i].betValue
            == Some(DefaultBetValue)
  {
  }
}
