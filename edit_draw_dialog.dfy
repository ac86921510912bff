/** The "edit draw" dialog: numbers and date are reloaded when it opens and
    written back when exactly five numbers are selected. The draw's stored
    results are not recomputed. */
module EditDrawDialog {
  import opened Lottery
  import opened Sorting
  import opened Selection
  import opened Store

  /** `.from("draws").update({ numbers, draw_date }).eq("id", id)`. */
  function SetDraw(draws: seq<Draw>, id: Id, numbers: seq<int>, date: Date): (r: seq<Draw>)
    ensures |r| == |draws|
    ensures forall i :: 0 <= i < |draws| ==>
      && r[i].id == draws[i].id && r[i].roundId == draws[i].roundId
      && r[i].drawNumber == draws[i].drawNumber
      && r[i].numbers == (if draws[i].id == id then numbers else draws[i].numbers)
      && r[i].drawDate == (if draws[i].id == id then date else draws[i].drawDate)
  {
    if draws == [] then []
    else
      [if draws[0].id == id then draws[0].(numbers := numbers, drawDate := date) else draws[0]]
      + SetDraw(draws[1..], id, numbers, date)
  }

  /** `Blocked`: the `required` date is empty, so the handler never runs. */
  datatype Outcome = Blocked | WrongSize | UpdateFailed | Updated

  class EditDrawForm {
    const draw: Draw
    const lotteryType: LotteryType
    var open: bool
    var selected: seq<int>
    var drawDate: Date

    constructor(draw: Draw, lotteryType: LotteryType)
      ensures this.draw == draw && this.lotteryType == lotteryType
      ensures !open && selected == draw.numbers && drawDate == ""
    {
      this.draw := draw;
      this.lotteryType := lotteryType;
      open := false;
      selected := draw.numbers;
      drawDate := "";
    }

    /** `setOpen` with the effect that reloads numbers and date on opening. */
    method OpenChange(isOpen: bool)
      modifies this
      ensures open == isOpen
      ensures selected == if isOpen then draw.numbers else old(selected)
      ensures drawDate == if isOpen then DayPart(draw.drawDate) else old(drawDate)
    {
      open := isOpen;
      if isOpen {
        selected := draw.numbers;
        drawDate := DayPart(draw.drawDate);
      }
    }

    method SetDate(d: Date)
      modifies this
      ensures drawDate == d && selected == old(selected) && open == old(open)
    {
      drawDate := d;
    }

    /** `toggleNumber`: remove `n`, or append it while fewer than five are
        selected. A well-formed selection stays well formed. */
    method Toggle(n: int)
      requires 1 <= n <= MaxNumber(lotteryType)
      modifies this
      ensures selected == Toggled(old(selected), n, DrawSize, false)
      ensures WellFormed(old(selected), DrawSize, MaxNumber(lotteryType))
        ==> WellFormed(selected, DrawSize, MaxNumber(lotteryType))
      ensures open == old(open) && drawDate == old(drawDate)
    {
      if WellFormed(selected, DrawSize, MaxNumber(lotteryType)) {
        ToggleWellFormed(selected, n, DrawSize, MaxNumber(lotteryType), false);
      }
      if n in selected {
        selected := Without(selected, n);
      } else if |selected| < DrawSize {
        selected := selected + [n];
      }
    }

    /** The "Limpar" button. */
    method Clear()
      modifies this
      ensures selected == [] && open == old(open) && drawDate == old(drawDate)
    {
      selected := [];
    }

    /** Rendering the chosen numbers sorts the state array itself. */
    method Render()
      modifies this
      ensures selected == SortBy(old(selected), Ascending)
      ensures multiset(selected) == multiset(old(selected))
      ensures open == old(open) && drawDate == old(drawDate)
    {
      AscendingIsStrictWeakOrder();
      SortByCorrect(selected, Ascending);
      selected := SortBy(selected, Ascending);
    }

    /** `handleSubmit`; `ok` says whether the update succeeds. */
    method Submit(db: Database, ok: bool) returns (outcome: Outcome)
      modifies this, db
      ensures outcome == Blocked <==> old(drawDate) == ""
      ensures outcome == WrongSize <==> old(drawDate) != "" && |old(selected)| != DrawSize
      ensures outcome == Updated <==> old(drawDate) != "" && |old(selected)| == DrawSize && ok
      ensures db.draws == if outcome == Updated then SetDraw(old(db.draws), draw.id, old(selected), old(drawDate))
                          else old(db.draws)
      ensures db.rounds == old(db.rounds) && db.players == old(db.players)
      ensures db.bets == old(db.bets) && db.payments == old(db.payments)
      ensures db.results == old(db.results)
      ensures selected == old(selected) && drawDate == old(drawDate)
      ensures open == (old(open) && outcome != Updated)
    {
      if drawDate == "" {
        return Blocked;
      }
      if !Complete(selected, DrawSize) {
        return WrongSize;
      }
      if !ok {
        return UpdateFailed;
      }
      db.draws := SetDraw(db.draws, draw.id, selected, drawDate);
      open := false;
      return Updated;
    }
  }

  /** Opening the dialog on a draw stored in ascending order with a plain
      date and saving it untouched writes the table back as it was. */
  lemma {:induction false} UntouchedEditKeepsDraws(draws: seq<Draw>, draw: Draw)
    requires Increasing(draw.numbers) && 'T' !in draw.drawDate
    requires forall d :: d in draws && d.id == draw.id ==> d == draw
    ensures SetDraw(draws, draw.id, SortBy(draw.numbers, Ascending), DayPart(draw.drawDate)) == draws
  {
    SortIncreasingIsIdentity(draw.numbers);
    if draws != [] {
      assert draws[0] in draws;
      UntouchedEditKeepsDraws(draws[1..], draw);
    }
  }
}
