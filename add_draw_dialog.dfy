/** The "add draw" dialog: a grid of 1..MaxNumber buttons holding a sorted
    selection of at most five numbers, and a submit that records the draw and
    scores every bet of the round against it. */
module AddDrawDialog {
  import opened Lottery
  import opened Sorting
  import opened Selection
  import opened Store

  /** The numbers of a bet that were drawn, in the bet's order. */
  function MatchedNumbers(bet: seq<int>, drawn: seq<int>): (r: seq<int>)
    ensures |r| <= |bet|
    ensures forall x :: x in r <==> x in bet && x in drawn
  {
    if bet == [] then []
    else (if bet[0] in drawn then [bet[0]] else []) + MatchedNumbers(bet[1..], drawn)
  }

  /** The result row written for one bet. */
  function Score(bet: Bet, drawId: Id, drawn: seq<int>): (r: ResultRow)
    ensures r.betId == bet.id && r.drawId == drawId
    ensures r.matchesCount == |r.matchedNumbers| <= |bet.numbers|
    ensures forall x :: x in r.matchedNumbers <==> x in bet.numbers && x in drawn
  {
    var m := MatchedNumbers(bet.numbers, drawn);
    ResultRow(bet.id, drawId, |m|, m)
  }

  /** `bets.map(...)`: one row per bet, in the bets' order. */
  function ResultsFor(bets: seq<Bet>, drawId: Id, drawn: seq<int>): (r: seq<ResultRow>)
    ensures |r| == |bets|
    ensures forall i :: 0 <= i < |bets| ==> r[i] == Score(bets[i], drawId, drawn)
    ensures forall row :: row in r ==> row.drawId == drawId
  {
    seq(|bets|, i requires 0 <= i < |bets| => Score(bets[i], drawId, drawn))
  }

  /** Matching keeps the bet's order: scoring a bet split in two scores each part. */
  lemma {:induction false} MatchedAppend(a: seq<int>, b: seq<int>, drawn: seq<int>)
    ensures MatchedNumbers(a + b, drawn) == MatchedNumbers(a, drawn) + MatchedNumbers(b, drawn)
  {
    if a == [] {
      assert a + b == b;
    } else {
      var rest := a[1..];
      var head := if a[0] in drawn then [a[0]] else [];
      assert a + b != [] && (a + b)[0] == a[0] && (a + b)[1..] == rest + b;
      calc {
        MatchedNumbers(a + b, drawn);
        head + MatchedNumbers(rest + b, drawn);
        { MatchedAppend(rest, b, drawn); }
        head + (MatchedNumbers(rest, drawn) + MatchedNumbers(b, drawn));
        (head + MatchedNumbers(rest, drawn)) + MatchedNumbers(b, drawn);
        MatchedNumbers(a, drawn) + MatchedNumbers(b, drawn);
      }
    }
  }

  /** Every occurrence of a drawn number in the bet is kept, every other number dropped. */
  lemma {:induction false} MatchedMultiplicity(bet: seq<int>, drawn: seq<int>, x: int)
    ensures multiset(MatchedNumbers(bet, drawn))[x] == if x in drawn then multiset(bet)[x] else 0
  {
    if bet != [] {
      MatchedMultiplicity(bet[1..], drawn, x);
      assert bet == [bet[0]] + bet[1..];
    }
  }

  /** For a bet of distinct numbers the count is the size of the intersection,
      hence never more than the numbers drawn. */
  lemma {:induction false} MatchedCount(bet: seq<int>, drawn: seq<int>)
    requires NoDup(bet)
    ensures |MatchedNumbers(bet, drawn)| == |Elems(bet) * Elems(drawn)|
    ensures |MatchedNumbers(bet, drawn)| <= |Elems(drawn)| <= |drawn|
  {
    var m := MatchedNumbers(bet, drawn);
    MatchedNoDup(bet, drawn);
    NoDupCard(m);
    assert Elems(m) == Elems(bet) * Elems(drawn);
    SubsetCard(Elems(bet) * Elems(drawn), Elems(drawn));
    ElemsCard(drawn);
  }

  lemma {:induction false} MatchedNoDup(bet: seq<int>, drawn: seq<int>)
    requires NoDup(bet)
    ensures NoDup(MatchedNumbers(bet, drawn))
  {
    if bet != [] {
      assert NoDup(bet[1..]) by {
        forall i, j | 0 <= i < j < |bet[1..]|
          ensures bet[1..][i] != bet[1..][j]
        {
          assert bet[1..][i] == bet[i + 1] && bet[1..][j] == bet[j + 1];
        }
      }
      MatchedNoDup(bet[1..], drawn);
      forall k | 0 <= k < |bet[1..]|
        ensures bet[1..][k] != bet[0]
      {
        assert bet[1..][k] == bet[k + 1];
      }
    }
  }

  /** A number drawn twice in the same bet scores twice: matching counts
      positions of the bet, not distinct numbers. */
  lemma RepeatedBetNumberScoresTwice()
    ensures MatchedNumbers([7, 7, 9], [7, 1, 2, 3, 4]) == [7, 7]
  {
    assert [7, 7, 9][1..] == [7, 9];
    assert [7, 9][1..] == [9];
    assert [9][1..] == [];
  }

  datatype Outcome =
    | Blocked          // the required date is empty: the browser never runs the handler
    | WrongSize        // fewer or more than five numbers: alert, nothing written
    | DrawFailed       // the draw insert failed: nothing written
    | BetsFailed       // the draw is stored, the bets could not be read, no results
    | NoBets           // the draw is stored and the round has no bets
    | ResultsFailed    // the draw is stored, the result insert failed
    | Scored           // the draw and one result per bet are stored

  class AddDrawForm {
    const roundId: Id
    const lotteryType: LotteryType
    const nextDrawNumber: int
    var open: bool
    var drawDate: Date
    var selected: seq<int>

    /** Distinct grid numbers, at most five, ascending. */
    ghost predicate Valid()
      reads this
    {
      WellFormed(selected, DrawSize, MaxNumber(lotteryType)) && SortedBy(selected, Ascending)
    }

    constructor(roundId: Id, lotteryType: LotteryType, nextDrawNumber: int, today: Date)
      ensures Valid()
      ensures this.roundId == roundId && this.lotteryType == lotteryType
      ensures this.nextDrawNumber == nextDrawNumber
      ensures !open && drawDate == today && selected == []
    {
      this.roundId := roundId;
      this.lotteryType := lotteryType;
      this.nextDrawNumber := nextDrawNumber;
      open := false;
      drawDate := today;
      selected := [];
    }

    /** The date input's `onChange`. */
    method SetDate(d: Date)
      requires Valid()
      modifies this
      ensures Valid()
      ensures drawDate == d && selected == old(selected) && open == old(open)
    {
      drawDate := d;
    }

    /** A press on grid button `n` (the grid offers exactly 1..MaxNumber). */
    method Toggle(n: int)
      requires Valid()
      requires 1 <= n <= MaxNumber(lotteryType)
      modifies this
      ensures Valid()
      ensures selected == Toggled(old(selected), n, DrawSize, true)
      ensures open == old(open) && drawDate == old(drawDate)
    {
      ToggleWellFormed(selected, n, DrawSize, MaxNumber(lotteryType), true);
      ToggleSorted(selected, n, DrawSize);
      if n in selected {
        selected := Without(selected, n);
      } else if |selected| < DrawSize {
        selected := SortBy(selected + [n], Ascending);
      }
    }

    /** `handleSubmit`. `drawId` is the key the store gives the new draw, `today`
        the date the form is reset to, and the three flags say whether the draw
        insert, the bets query and the results insert succeed. The date input
        is `required`, so an empty date stops the submission before the handler. */
    method Submit(db: Database, drawId: Id, today: Date, drawOk: bool, betsOk: bool, resultsOk: bool)
      returns (outcome: Outcome)
      requires Valid()
      modifies this, db
      ensures Valid()
      ensures db.rounds == old(db.rounds) && db.players == old(db.players)
      ensures db.bets == old(db.bets) && db.payments == old(db.payments)
      ensures outcome == Blocked <==> old(drawDate) == ""
      ensures outcome == WrongSize <==> old(drawDate) != "" && |old(selected)| != DrawSize
      ensures outcome == DrawFailed <==> old(drawDate) != "" && |old(selected)| == DrawSize && !drawOk
      ensures outcome in {Blocked, WrongSize, DrawFailed} ==> db.draws == old(db.draws)
      ensures outcome !in {Blocked, WrongSize, DrawFailed} ==>
        db.draws == old(db.draws) + [Draw(drawId, roundId, nextDrawNumber, old(drawDate), old(selected))]
      ensures var bets := BetsOfRound(old(db.bets), roundId);
        db.results == (if outcome == Scored then old(db.results) + ResultsFor(bets, drawId, old(selected))
                       else old(db.results))
      ensures outcome == NoBets <==>
        old(drawDate) != "" && |old(selected)| == DrawSize && drawOk && betsOk
        && BetsOfRound(old(db.bets), roundId) == []
      ensures outcome == Scored <==>
        old(drawDate) != "" && |old(selected)| == DrawSize && drawOk && betsOk
        && BetsOfRound(old(db.bets), roundId) != [] && resultsOk
      ensures outcome in {NoBets, Scored}
        ==> !open && selected == [] && drawDate == today
      ensures outcome !in {NoBets, Scored}
        ==> open == old(open) && selected == old(selected) && drawDate == old(drawDate)
    {
      if drawDate == "" {
        return Blocked;
      }
      if |selected| != DrawSize {
        return WrongSize;
      }
      if !drawOk {
        return DrawFailed;
      }
      db.draws := db.draws + [Draw(drawId, roundId, nextDrawNumber, drawDate, selected)];
      if !betsOk {
        return BetsFailed;
      }
      var bets := BetsOfRound(db.bets, roundId);
      if bets == [] {
        selected, drawDate, open := [], today, false;
        return NoBets;
      }
      var rows := ResultsFor(bets, drawId, selected);
      if !resultsOk {
        return ResultsFailed;
      }
      db.results := db.results + rows;
      selected, drawDate, open := [], today, false;
      return Scored;
    }
  }
}
