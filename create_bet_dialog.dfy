/** The "new bet" dialog: a player and exactly ten distinct grid numbers;
    the bet is stored with one pending payment of R$ 20,00. */
module CreateBetDialog {
  import opened Lottery
  import opened Sorting
  import opened Selection
  import opened Store

  /** The amount written on a new bet's payment, whatever the round's value. */
  const NewBetAmount: Cents := 2000

  /** The payment created with a bet. */
  function NewBetPayment(id: Id, betId: Id): (r: Payment)
    ensures r.betId == betId && r.amount == NewBetAmount
    ensures r.status == Pending && r.paymentDate.None?
  {
    Payment(id, betId, NewBetAmount, None, Pending)
  }

  /** `Blocked`: no player chosen; the player select is `required` and the
      submit button disabled, so the handler never runs. */
  datatype Outcome = Blocked | WrongSize | BetFailed | Created

  class CreateBetForm {
    const roundId: Id
    const lotteryType: LotteryType
    var open: bool
    var selectedPlayer: Id
    var selected: seq<int>

    /** Distinct grid numbers, at most ten. */
    ghost predicate Valid()
      reads this
    {
      WellFormed(selected, BetSize, MaxNumber(lotteryType))
    }

    constructor(roundId: Id, lotteryType: LotteryType)
      ensures Valid() && this.roundId == roundId && this.lotteryType == lotteryType
      ensures !open && selectedPlayer == "" && selected == []
    {
      this.roundId := roundId;
      this.lotteryType := lotteryType;
      open := false;
      selectedPlayer := "";
      selected := [];
    }

    method ChoosePlayer(playerId: Id)
      modifies this
      ensures selectedPlayer == playerId && selected == old(selected) && open == old(open)
    {
      selectedPlayer := playerId;
    }

    /** `toggleNumber` on grid button `n`: remove it, or append it while fewer
        than ten are selected. */
    method Toggle(n: int)
      requires Valid() && 1 <= n <= MaxNumber(lotteryType)
      modifies this
      ensures Valid()
      ensures selected == Toggled(old(selected), n, BetSize, false)
      ensures selectedPlayer == old(selectedPlayer) && open == old(open)
    {
      ToggleWellFormed(selected, n, BetSize, MaxNumber(lotteryType), false);
      if n in selected {
        selected := Without(selected, n);
      } else if |selected| < BetSize {
        selected := selected + [n];
      }
    }

    /** The "Limpar" button. */
    method Clear()
      modifies this
      ensures Valid() && selected == []
      ensures selectedPlayer == old(selectedPlayer) && open == old(open)
    {
      selected := [];
    }

    /** Rendering the chosen numbers sorts the state array itself. */
    method Render()
      requires Valid()
      modifies this
      ensures Valid() && Increasing(selected)
      ensures selected == SortBy(old(selected), Ascending)
      ensures selectedPlayer == old(selectedPlayer) && open == old(open)
    {
      DisplaySortIncreasing(selected);
      selected := SortBy(selected, Ascending);
    }

    /** The submit button: ten numbers and a player. */
    function SubmitEnabled(): (r: bool)
      reads this
      ensures r <==> |selected| == BetSize && selectedPlayer != ""
    {
      Complete(selected, BetSize) && selectedPlayer != ""
    }

    /** `handleSubmit`: `betId`/`paymentId` are the store's new keys, `betOk`
        and `paymentOk` whether the two inserts succeed. A failed payment is
        only logged: the form still resets and closes. */
    method Submit(db: Database, betId: Id, paymentId: Id, betOk: bool, paymentOk: bool)
      returns (outcome: Outcome)
      requires Valid()
      modifies this, db
      ensures Valid()
      ensures outcome == Blocked <==> old(selectedPlayer) == ""
      ensures outcome == WrongSize <==> old(selectedPlayer) != "" && |old(selected)| != BetSize
      ensures outcome == Created <==> old(selectedPlayer) != "" && |old(selected)| == BetSize && betOk
      ensures db.bets == if outcome == Created
        then old(db.bets) + [Bet(betId, roundId, old(selectedPlayer), old(selected))] else old(db.bets)
      ensures db.payments == if outcome == Created && paymentOk
        then old(db.payments) + [NewBetPayment(paymentId, betId)] else old(db.payments)
      ensures db.rounds == old(db.rounds) && db.players == old(db.players)
      ensures db.draws == old(db.draws) && db.results == old(db.results)
      ensures outcome == Created ==> selectedPlayer == "" && selected == [] && !open
      ensures outcome != Created ==>
        selectedPlayer == old(selectedPlayer) && selected == old(selected) && open == old(open)
    {
      if selectedPlayer == "" {
        return Blocked;
      }
      if !Complete(selected, BetSize) {
        return WrongSize;
      }
      if !betOk {
        return BetFailed;
      }
      db.bets := db.bets + [Bet(betId, roundId, selectedPlayer, selected)];
      if paymentOk {
        db.payments := db.payments + [NewBetPayment(paymentId, betId)];
      }
      selectedPlayer, selected, open := "", [], false;
      return Created;
    }
  }

  /** A bet created through this dialog holds ten distinct grid numbers. */
  lemma CreatedBetWellFormed(s: seq<int>, t: LotteryType)
    requires WellFormed(s, BetSize, MaxNumber(t)) && Complete(s, BetSize)
    ensures |Elems(s)| == BetSize
    ensures forall x :: x in s ==> 1 <= x <= MaxNumber(t)
  {
    NoDupCard(s);
  }
}
