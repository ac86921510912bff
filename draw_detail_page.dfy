/** A round's draw page: the round's draws newest first, the number the next
    draw gets, who may add one, and the count line. */
module DrawDetailPage {
  import opened Lottery
  import opened Sorting
  import opened Store

  predicate LaterDraw(a: Draw, b: Draw)
  {
    a.drawNumber > b.drawNumber
  }

  /** `.eq("round_id", id).order("draw_number", { ascending: false })`. */
  function NewestFirst(draws: seq<Draw>, roundId: Id): (r: seq<Draw>)
    ensures |r| == |DrawsOfRound(draws, roundId)|
    ensures forall d :: d in r <==> d in draws && d.roundId == roundId
  {
    SortByPermutes(DrawsOfRound(draws, roundId), LaterDraw);
    SortByMembers(DrawsOfRound(draws, roundId), LaterDraw);
    SortBy(DrawsOfRound(draws, roundId), LaterDraw)
  }

  /** `(draws[0]?.draw_number || 0) + 1`: one past the first listed number,
      1 for an empty list (a first number of 0 also reads as 0, which gives
      the same 1). */
  function NextDrawNumber(listed: seq<Draw>): (r: int)
    ensures listed == [] ==> r == 1
    ensures listed != [] ==> r == listed[0].drawNumber + 1
  {
    (if |listed| > 0 && listed[0].drawNumber != 0 then listed[0].drawNumber else 0) + 1
  }

  /** The listed draws are exactly the round's draws, in descending number. */
  lemma NewestFirstOrdered(draws: seq<Draw>, roundId: Id)
    ensures var l := NewestFirst(draws, roundId);
      && (forall d :: d in l <==> d in draws && d.roundId == roundId)
      && (forall i, j :: 0 <= i < j < |l| ==> l[i].drawNumber >= l[j].drawNumber)
  {
    assert StrictWeakOrder(LaterDraw);
    SortBySorted(DrawsOfRound(draws, roundId), LaterDraw);
    SortByMembers(DrawsOfRound(draws, roundId), LaterDraw);
  }

  /** The next number is above every draw number of the round, 1 for a round
      with no draws, and at least 1 whenever the round's numbers are not
      negative. */
  lemma NextExceedsAll(draws: seq<Draw>, roundId: Id)
    ensures var n := NextDrawNumber(NewestFirst(draws, roundId));
      && (forall d :: d in draws && d.roundId == roundId ==> d.drawNumber < n)
      && ((forall d :: d in draws && d.roundId == roundId ==> d.drawNumber >= 0) ==> n >= 1)
      && ((forall d :: d in draws ==> d.roundId != roundId) ==> n == 1)
  {
    var l := NewestFirst(draws, roundId);
    NewestFirstOrdered(draws, roundId);
    forall d | d in draws && d.roundId == roundId
      ensures d.drawNumber < NextDrawNumber(l)
    {
      var k :| 0 <= k < |l| && l[k] == d;
      if k > 0 {
        assert l[0].drawNumber >= l[k].drawNumber;
      }
    }
    if |l| > 0 {
      assert l[0] in l;
    }
  }

  /** No two draws of the round share a number. */
  ghost predicate DistinctNumbers(draws: seq<Draw>, roundId: Id)
  {
    forall i, j :: 0 <= i < j < |draws| && draws[i].roundId == roundId && draws[j].roundId == roundId
      ==> draws[i].drawNumber != draws[j].drawNumber
  }

  /** Recording a draw under the number this page hands to the add-draw
      dialog keeps the round's draw numbers distinct. */
  lemma AddingNextKeepsNumbersDistinct(draws: seq<Draw>, roundId: Id, drawId: Id, date: Date, numbers: seq<int>)
    requires DistinctNumbers(draws, roundId)
    ensures var d := Draw(drawId, roundId, NextDrawNumber(NewestFirst(draws, roundId)), date, numbers);
      DistinctNumbers(draws + [d], roundId)
  {
    var d := Draw(drawId, roundId, NextDrawNumber(NewestFirst(draws, roundId)), date, numbers);
    NextExceedsAll(draws, roundId);
    var all := draws + [d];
    forall i, j | 0 <= i < j < |all| && all[i].roundId == roundId && all[j].roundId == roundId
      ensures all[i].drawNumber != all[j].drawNumber
    {
      if j == |draws| {
        assert all[i] == draws[i] && draws[i] in draws;
      } else {
        assert all[i] == draws[i] && all[j] == draws[j];
      }
    }
  }

  /** `user && round.status === "active"`. */
  function CanAddDraw(loggedIn: bool, status: RoundStatus): (r: bool)
    ensures r ==> loggedIn
    ensures status != Active ==> !r
    ensures loggedIn && status == Active ==> r
  {
    loggedIn && status == Active
  }

  /** `draws.length === 1 ? "sorteio realizado" : "sorteios realizados"`. */
  function DrawCountLabel(count: nat): (r: string)
    ensures r == "sorteio realizado" <==> count == 1
    ensures r == "sorteio realizado" || r == "sorteios realizados"
  {
    if count == 1 then "sorteio realizado" else "sorteios realizados"
  }
}
