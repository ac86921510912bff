/** The "edit bet" dialog: the bet's numbers are loaded when it opens and
    written back when exactly ten are selected. Only `numbers` is written;
    the bet's stored results are not recomputed. */
module EditBetDialog {
  import opened Lottery
  import opened Sorting
  import opened Selection
  import opened Store

  /** `.from("bets").update({ numbers }).eq("id", id)`. */
  function SetBetNumbers(bets: seq<Bet>, id: Id, numbers: seq<int>): (r: seq<Bet>)
    ensures |r| == |bets|
    ensures forall i :: 0 <= i < |bets| ==>
      && r[i].id == bets[i].id && r[i].roundId == bets[i].roundId && r[i].playerId == bets[i].playerId
      && r[i].numbers == (if bets[i].id == id then numbers else bets[i].numbers)
  {
    if bets == [] then []
    else [if bets[0].id == id then bets[0].(numbers := numbers) else bets[0]] + SetBetNumbers(bets[1..], id, numbers)
  }

  datatype Outcome = WrongSize | UpdateFailed | Updated

  class EditBetForm {
    const bet: Bet
    const lotteryType: LotteryType
    var open: bool
    var selected: seq<int>

    constructor(bet: Bet, lotteryType: LotteryType)
      ensures this.bet == bet && this.lotteryType == lotteryType
      ensures !open && selected == bet.numbers
    {
      this.bet := bet;
      this.lotteryType := lotteryType;
      open := false;
      selected := bet.numbers;
    }

    /** `setOpen` with the effect that reloads the bet's numbers on opening. */
    method OpenChange(isOpen: bool)
      modifies this
      ensures open == isOpen
      ensures selected == if isOpen then bet.numbers else old(selected)
    {
      open := isOpen;
      if isOpen {
        selected := bet.numbers;
      }
    }

    /** `toggleNumber`: remove `n`, or append it while fewer than ten are
        selected. A well-formed selection stays well formed. */
    method Toggle(n: int)
      requires 1 <= n <= MaxNumber(lotteryType)
      modifies this
      ensures selected == Toggled(old(selected), n, BetSize, false)
      ensures WellFormed(old(selected), BetSize, MaxNumber(lotteryType))
        ==> WellFormed(selected, BetSize, MaxNumber(lotteryType))
      ensures open == old(open)
    {
      if WellFormed(selected, BetSize, MaxNumber(lotteryType)) {
        ToggleWellFormed(selected, n, BetSize, MaxNumber(lotteryType), false);
      }
      if n in selected {
        selected := Without(selected, n);
      } else if |selected| < BetSize {
        selected := selected + [n];
      }
    }

    /** The "Limpar" button. */
    method Clear()
      modifies this
      ensures selected == [] && open == old(open)
    {
      selected := [];
    }

    /** Rendering the chosen numbers sorts the state array itself. */
    method Render()
      modifies this
      ensures selected == SortBy(old(selected), Ascending)
      ensures multiset(selected) == multiset(old(selected))
      ensures open == old(open)
    {
      AscendingIsStrictWeakOrder();
      SortByCorrect(selected, Ascending);
      selected := SortBy(selected, Ascending);
    }

    /** `handleSubmit`; `ok` says whether the update succeeds. */
    method Submit(db: Database, ok: bool) returns (outcome: Outcome)
      modifies this, db
      ensures outcome == WrongSize <==> |old(selected)| != BetSize
      ensures outcome == Updated <==> |old(selected)| == BetSize && ok
      ensures db.bets == if outcome == Updated then SetBetNumbers(old(db.bets), bet.id, old(selected))
                         else old(db.bets)
      ensures db.rounds == old(db.rounds) && db.players == old(db.players) && db.payments == old(db.payments)
      ensures db.draws == old(db.draws) && db.results == old(db.results)
      ensures selected == old(selected)
      ensures open == (old(open) && outcome != Updated)
    {
      if !Complete(selected, BetSize) {
        return WrongSize;
      }
      if !ok {
        return UpdateFailed;
      }
      db.bets := SetBetNumbers(db.bets, bet.id, selected);
      open := false;
      return Updated;
    }
  }

  /** Opening the dialog on a bet stored in ascending order and saving it
      untouched (the display sort included) writes the table back as it was. */
  lemma {:induction false} UntouchedEditKeepsBets(bets: seq<Bet>, bet: Bet)
    requires Increasing(bet.numbers)
    requires forall b :: b in bets && b.id == bet.id ==> b == bet
    ensures SetBetNumbers(bets, bet.id, SortBy(bet.numbers, Ascending)) == bets
  {
    SortIncreasingIsIdentity(bet.numbers);
    if bets != [] {
      assert bets[0] in bets;
      UntouchedEditKeepsBets(bets[1..], bet);
    }
  }
}
