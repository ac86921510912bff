/** The prize page of a round: a per-player leaderboard summed over every
    result row of the round, the four single winners picked from it, and the
    daily bonus over the first seven draws. */
module PrizesDetailPage {
  import opened Lottery
  import opened Sorting
  import opened Grouping
  import opened Store

  /** A result row of the round joined with its bet's player. */
  datatype RoundResult = RoundResult(playerId: Id, playerName: string, drawId: Id, matchesCount: nat)

  datatype Entry = Entry(playerId: Id, playerName: string, accumulatedMatches: nat, totalDraws: nat)

  /** What the page's `Map` holds for one player while rows are folded in. */
  datatype Tally = Tally(name: string, total: nat, draws: set<Id>)

  /** A result of one draw joined with its player's name. */
  datatype DayResult = DayResult(drawId: Id, playerName: string, matchesCount: nat)

  datatype DailyWinner = DailyWinner(drawNumber: int, playerName: string, matches: nat)

  /** Accumulated hits needed for the main prize. */
  const MainPrizeHits: nat := 10

  /** Draws that take part in the daily bonus. */
  const BonusDraws: nat := 7

  // ---------------------------------------------------------------------
  // Leaderboard

  function PlayerIds(rows: seq<RoundResult>): (r: seq<Id>)
    ensures |r| == |rows|
    ensures forall i :: 0 <= i < |rows| ==> r[i] == rows[i].playerId
  {
    seq(|rows|, i requires 0 <= i < |rows| => rows[i].playerId)
  }

  /** The name of the player's first row: the entry is created once and never renamed. */
  function NameOf(rows: seq<RoundResult>, p: Id): string
  {
    if rows == [] then ""
    else
      var init, last := rows[..|rows| - 1], rows[|rows| - 1];
      if p in PlayerIds(init) then NameOf(init, p)
      else if last.playerId == p then last.playerName
      else ""
  }

  /** Sum of `matches_count` over the player's rows. */
  function TotalOf(rows: seq<RoundResult>, p: Id): nat
  {
    if rows == [] then 0
    else
      var last := rows[|rows| - 1];
      TotalOf(rows[..|rows| - 1], p) + (if last.playerId == p then last.matchesCount else 0)
  }

  /** The distinct draws the player has rows in. */
  function DrawsOf(rows: seq<RoundResult>, p: Id): set<Id>
  {
    if rows == [] then {}
    else
      var last := rows[|rows| - 1];
      DrawsOf(rows[..|rows| - 1], p) + (if last.playerId == p then {last.drawId} else {})
  }

  /** Number of the player's rows. */
  function RowCount(rows: seq<RoundResult>, p: Id): nat
  {
    if rows == [] then 0
    else RowCount(rows[..|rows| - 1], p) + (if rows[|rows| - 1].playerId == p then 1 else 0)
  }

  function EntryOf(rows: seq<RoundResult>, p: Id): Entry
  {
    Entry(p, NameOf(rows, p), TotalOf(rows, p), |DrawsOf(rows, p)|)
  }

  /** The entries in the `Map`'s order, i.e. by each player's first row. */
  function Tallies(rows: seq<RoundResult>): (r: seq<Entry>)
    ensures forall i, j :: 0 <= i < j < |r| ==> r[i].playerId != r[j].playerId
    ensures forall i :: 0 <= i < |r| ==> r[i].playerId in PlayerIds(rows)
  {
    var keys := DistinctKeys(PlayerIds(rows));
    DistinctKeysNoDup(PlayerIds(rows));
    DistinctKeysMembers(PlayerIds(rows));
    seq(|keys|, k requires 0 <= k < |keys| => EntryOf(rows, keys[k]))
  }

  lemma PlayerIdsSnoc(rows: seq<RoundResult>, i: nat)
    requires i < |rows|
    ensures rows[..i + 1][..i] == rows[..i]
    ensures PlayerIds(rows[..i + 1]) == PlayerIds(rows[..i]) + [rows[i].playerId]
  {
    assert rows[..i + 1][..i] == rows[..i];
  }

  /** What the `Map` holds for the player once `rows` are folded in. */
  function TallyOf(rows: seq<RoundResult>, p: Id): Tally
  {
    Tally(NameOf(rows, p), TotalOf(rows, p), DrawsOf(rows, p))
  }

  /** The state of the `forEach` after the first `i` rows. */
  ghost predicate Folded(rows: seq<RoundResult>, i: nat, order: seq<Id>, acc: map<Id, Tally>)
    requires i <= |rows|
  {
    && order == DistinctKeys(PlayerIds(rows[..i]))
    && (forall p :: p in acc <==> p in order)
    && (forall p :: p in acc ==> acc[p] == TallyOf(rows[..i], p))
  }

  /** How one more row changes the player's name, total and draws. */
  lemma PrefixStep(rows: seq<RoundResult>, i: nat, p: Id)
    requires i < |rows|
    ensures var pre, r := rows[..i], rows[i];
      && NameOf(rows[..i + 1], p)
         == (if p in PlayerIds(pre) then NameOf(pre, p) else if r.playerId == p then r.playerName else "")
      && TotalOf(rows[..i + 1], p) == TotalOf(pre, p) + (if r.playerId == p then r.matchesCount else 0)
      && DrawsOf(rows[..i + 1], p) == DrawsOf(pre, p) + (if r.playerId == p then {r.drawId} else {})
  {
    assert rows[..i + 1][..i] == rows[..i];
    assert rows[..i + 1][i] == rows[i];
  }

  /** A player without rows has nothing accumulated. */
  lemma {:induction false} AbsentPlayer(rows: seq<RoundResult>, p: Id)
    requires p !in PlayerIds(rows)
    ensures TotalOf(rows, p) == 0 && DrawsOf(rows, p) == {}
  {
    if rows != [] {
      var init := rows[..|rows| - 1];
      assert PlayerIds(rows) == PlayerIds(init) + [rows[|rows| - 1].playerId];
      AbsentPlayer(init, p);
    }
  }

  /** The key order after one more row, and the empty tally a new player starts from. */
  lemma FoldKeys(rows: seq<RoundResult>, i: nat, order: seq<Id>, acc: map<Id, Tally>)
    requires i < |rows| && Folded(rows, i, order, acc)
    ensures var p := rows[i].playerId;
      && (if p in acc then order else order + [p]) == DistinctKeys(PlayerIds(rows[..i + 1]))
      && (p in acc <==> p in PlayerIds(rows[..i]))
      && (p !in acc ==> TotalOf(rows[..i], p) == 0 && DrawsOf(rows[..i], p) == {})
  {
    var p := rows[i].playerId;
    var pre := rows[..i];
    PlayerIdsSnoc(rows, i);
    DistinctKeysMembers(PlayerIds(pre));
    DistinctKeysSnoc(PlayerIds(pre), p);
    if p !in acc {
      AbsentPlayer(pre, p);
    }
  }

  /** One iteration: create the entry on first sight, then add the row to it. */
  lemma FoldStep(rows: seq<RoundResult>, i: nat, order: seq<Id>, acc: map<Id, Tally>,
                 order': seq<Id>, acc': map<Id, Tally>)
    requires i < |rows| && Folded(rows, i, order, acc)
    requires var r := rows[i];
      var created := if r.playerId in acc then acc else acc[r.playerId := Tally(r.playerName, 0, {})];
      var t := created[r.playerId];
      && order' == (if r.playerId in acc then order else order + [r.playerId])
      && acc' == created[r.playerId := Tally(t.name, t.total + r.matchesCount, t.draws + {r.drawId})]
    ensures Folded(rows, i + 1, order', acc')
  {
    FoldKeys(rows, i, order, acc);
    forall p | p in acc'
      ensures acc'[p] == TallyOf(rows[..i + 1], p)
    {
      FoldTally(rows, i, acc, acc', p);
    }
    assert forall p :: p in acc' <==> p in order';
  }

  /** One player's tally after an iteration: the row counts for its own
      player only, and a new entry keeps the name of the row that made it. */
  lemma FoldTally(rows: seq<RoundResult>, i: nat, acc: map<Id, Tally>, acc': map<Id, Tally>, p: Id)
    requires i < |rows|
    requires forall q :: q in acc ==> acc[q] == TallyOf(rows[..i], q)
    requires var q := rows[i].playerId;
      && (q in acc <==> q in PlayerIds(rows[..i]))
      && (q !in acc ==> TotalOf(rows[..i], q) == 0 && DrawsOf(rows[..i], q) == {})
    requires var r := rows[i];
      var created := if r.playerId in acc then acc else acc[r.playerId := Tally(r.playerName, 0, {})];
      var t := created[r.playerId];
      acc' == created[r.playerId := Tally(t.name, t.total + r.matchesCount, t.draws + {r.drawId})]
    requires p in acc'
    ensures acc'[p] == TallyOf(rows[..i + 1], p)
  {
    PrefixStep(rows, i, p);
    if p != rows[i].playerId {
      assert p in acc && acc'[p] == acc[p];
    }
  }

  /** The `forEach` that fills `leaderboardMap`, then its entries in order. */
  method Accumulate(rows: seq<RoundResult>) returns (entries: seq<Entry>)
    ensures entries == Tallies(rows)
  {
    var order: seq<Id> := [];
    var acc: map<Id, Tally> := map[];
    for i := 0 to |rows|
      invariant Folded(rows, i, order, acc)
    {
      var r := rows[i];
      ghost var order0, acc0 := order, acc;
      var created := acc;
      if r.playerId !in acc {
        order := order + [r.playerId];
        created := acc[r.playerId := Tally(r.playerName, 0, {})];
      }
      var t := created[r.playerId];
      acc := created[r.playerId := Tally(t.name, t.total + r.matchesCount, t.draws + {r.drawId})];
      FoldStep(rows, i, order0, acc0, order, acc);
    }
    FoldedAll(rows, order, acc);
    entries := seq(|order|, k requires 0 <= k < |order| =>
      Entry(order[k], acc[order[k]].name, acc[order[k]].total, |acc[order[k]].draws|));
  }

  /** Once every row is folded in, the `Map`'s entries are the tallies. */
  lemma FoldedAll(rows: seq<RoundResult>, order: seq<Id>, acc: map<Id, Tally>)
    requires Folded(rows, |rows|, order, acc)
    ensures |order| == |Tallies(rows)|
    ensures forall k :: 0 <= k < |order| ==> order[k] in acc
    ensures forall k :: 0 <= k < |order| ==>
      Tallies(rows)[k] == Entry(order[k], acc[order[k]].name, acc[order[k]].total, |acc[order[k]].draws|)
  {
    assert rows[..|rows|] == rows;
  }

  /** The comparator `(a, b) => b.accumulated_matches - a.accumulated_matches`. */
  predicate MoreMatches(a: Entry, b: Entry)
  {
    a.accumulatedMatches > b.accumulatedMatches
  }

  ghost predicate Ranked(lb: seq<Entry>)
  {
    forall i, j :: 0 <= i < j < |lb| ==> lb[i].accumulatedMatches >= lb[j].accumulatedMatches
  }

  /** The leaderboard shown on the page. */
  function Leaderboard(rows: seq<RoundResult>): (r: seq<Entry>)
    ensures multiset(r) == multiset(Tallies(rows))
    ensures Ranked(r)
  {
    assert StrictWeakOrder(MoreMatches);
    SortBySorted(Tallies(rows), MoreMatches);
    SortByPermutes(Tallies(rows), MoreMatches);
    SortBy(Tallies(rows), MoreMatches)
  }

  /** One entry per player with a row, and no player twice. */
  lemma TalliesPlayers(rows: seq<RoundResult>)
    ensures var t := Tallies(rows);
      && (forall i, j :: 0 <= i < j < |t| ==> t[i].playerId != t[j].playerId)
      && (forall p :: (exists i :: 0 <= i < |t| && t[i].playerId == p) <==> p in PlayerIds(rows))
      && (forall e :: e in t ==> e == EntryOf(rows, e.playerId))
  {
    var keys := DistinctKeys(PlayerIds(rows));
    DistinctKeysNoDup(PlayerIds(rows));
    DistinctKeysMembers(PlayerIds(rows));
    var t := Tallies(rows);
    forall p
      ensures (exists i :: 0 <= i < |t| && t[i].playerId == p) <==> p in PlayerIds(rows)
    {
      if p in PlayerIds(rows) {
        var k :| 0 <= k < |keys| && keys[k] == p;
        assert t[k].playerId == p;
      }
    }
  }

  /** The leaderboard lists the same entries, by non-increasing total, with
      ties in first-appearance order, and still no player twice. */
  lemma LeaderboardRanked(rows: seq<RoundResult>)
    ensures var lb := Leaderboard(rows);
      && Ranked(lb)
      && multiset(lb) == multiset(Tallies(rows))
      && (forall y :: TiedWith(lb, y, MoreMatches) == TiedWith(Tallies(rows), y, MoreMatches))
      && (forall i, j :: 0 <= i < j < |lb| ==> lb[i].playerId != lb[j].playerId)
  {
    var t := Tallies(rows);
    var lb := Leaderboard(rows);
    assert StrictWeakOrder(MoreMatches);
    SortByCorrect(t, MoreMatches);
    TalliesPlayers(rows);
    PermutationNoDup(t, lb);
    forall i, j | 0 <= i < j < |lb|
      ensures lb[i].playerId != lb[j].playerId
    {
      assert lb[i] in multiset(t) && lb[j] in multiset(t);
      assert lb[i] in t && lb[j] in t;
      assert lb[i] == EntryOf(rows, lb[i].playerId) && lb[j] == EntryOf(rows, lb[j].playerId);
    }
  }

  /** Totals add up row by row: every row counts, so a number hit in two
      draws is counted in both. */
  lemma {:induction false} TotalAdditive(a: seq<RoundResult>, b: seq<RoundResult>, p: Id)
    ensures TotalOf(a + b, p) == TotalOf(a, p) + TotalOf(b, p)
    decreases |b|
  {
    if b == [] {
      assert a + b == a;
    } else {
      var init := b[..|b| - 1];
      TotalAdditive(a, init, p);
      assert (a + b)[..|a + b| - 1] == a + init;
      assert (a + b)[|a + b| - 1] == b[|b| - 1];
    }
  }

  /** A player never has more distinct draws than rows. */
  lemma {:induction false} DrawsAtMostRows(rows: seq<RoundResult>, p: Id)
    ensures |DrawsOf(rows, p)| <= RowCount(rows, p)
  {
    if rows != [] {
      var init, last := rows[..|rows| - 1], rows[|rows| - 1];
      DrawsAtMostRows(init, p);
      if last.playerId == p {
        assert |DrawsOf(init, p) + {last.drawId}| <= |DrawsOf(init, p)| + 1;
      }
    }
  }

  /** The same player scoring in two draws: both rows are summed and both draws counted. */
  lemma TwoDrawsAccumulate()
    ensures Tallies([RoundResult("p", "Ana", "d1", 2), RoundResult("p", "Ana", "d2", 3)])
         == [Entry("p", "Ana", 5, 2)]
  {
    var r1, r2 := RoundResult("p", "Ana", "d1", 2), RoundResult("p", "Ana", "d2", 3);
    var rows := [r1, r2];
    assert rows[..1] == [r1] && [r1][..0] == [];
    assert PlayerIds([r1]) == ["p"] && PlayerIds(rows) == ["p", "p"];
    assert DistinctKeys(PlayerIds(rows)) == ["p"] by {
      assert ["p", "p"][..1] == ["p"] && ["p"][..0] == [];
      assert DistinctKeys(["p"]) == ["p"];
    }
    assert |DrawsOf(rows, "p")| == 2 by {
      assert DrawsOf([r1], "p") == {"d1"};
      assert DrawsOf(rows, "p") == {"d1", "d2"};
      assert "d1"[1] != "d2"[1];
    }
    assert NameOf(rows, "p") == "Ana" by {
      assert "p" in PlayerIds([r1]);
      assert NameOf([r1], "p") == "Ana";
    }
    assert TotalOf(rows, "p") == 5 by {
      assert TotalOf([r1], "p") == 2;
    }
  }

  // ---------------------------------------------------------------------
  // Winners

  predicate ReachesMainPrize(e: Entry)
  {
    e.accumulatedMatches >= MainPrizeHits
  }

  predicate HasNoHits(e: Entry)
  {
    e.accumulatedMatches == 0
  }

  /** `leaderboard.find(e => e.accumulated_matches >= 10)`: the first entry
      with ten or more hits, none when nobody has them. */
  function MainWinner(lb: seq<Entry>): (r: Option<Entry>)
    ensures r.None? <==> forall e :: e in lb ==> e.accumulatedMatches < MainPrizeHits
    ensures r.Some? ==> r.value.accumulatedMatches >= MainPrizeHits
    ensures r.Some? ==> exists k :: 0 <= k < |lb| && lb[k] == r.value && forall j :: 0 <= j < k ==> lb[j].accumulatedMatches < MainPrizeHits
  {
    Find(lb, ReachesMainPrize)
  }

  /** `!mainWinner ? leaderboard[0] : null`. */
  function SecondPlace(lb: seq<Entry>): (r: Option<Entry>)
    ensures r.Some? <==> MainWinner(lb).None? && |lb| > 0
    ensures r.Some? ==> r.value in lb && r.value.accumulatedMatches < MainPrizeHits
  {
    if MainWinner(lb).None? && |lb| > 0 then Some(lb[0]) else None
  }

  /** `leaderboard.find(e => e.accumulated_matches === 0)`: the first entry
      without hits, none when everybody has some. */
  function ZeroHitsWinner(lb: seq<Entry>): (r: Option<Entry>)
    ensures r.None? <==> forall e :: e in lb ==> e.accumulatedMatches != 0
    ensures r.Some? ==> r.value.accumulatedMatches == 0
    ensures r.Some? ==> exists k :: 0 <= k < |lb| && lb[k] == r.value && forall j :: 0 <= j < k ==> lb[j].accumulatedMatches != 0
  {
    Find(lb, HasNoHits)
  }

  /** The last entry, when nobody has zero hits. */
  function LowestHitsWinner(lb: seq<Entry>): (r: Option<Entry>)
    ensures r.Some? <==> ZeroHitsWinner(lb).None? && |lb| > 0
    ensures r.Some? ==> r.value in lb && r.value.accumulatedMatches > 0
  {
    if ZeroHitsWinner(lb).None? && |lb| > 0 then Some(lb[|lb| - 1]) else None
  }

  /** On a ranked leaderboard the main winner is the leader, exactly when the
      leader has at least ten hits. */
  lemma MainWinnerIsLeader(lb: seq<Entry>)
    requires Ranked(lb)
    ensures MainWinner(lb).Some? <==> |lb| > 0 && lb[0].accumulatedMatches >= MainPrizeHits
    ensures MainWinner(lb).Some? ==> MainWinner(lb) == Some(lb[0])
  {
    if |lb| > 0 && lb[0].accumulatedMatches >= MainPrizeHits {
      assert FindIndex(lb, ReachesMainPrize) == Some(0);
    }
  }

  /** The runner-up card goes to the leader when nobody reached ten, and the
      leader then has at least as many hits as anyone. */
  lemma SecondPlaceIsLeader(lb: seq<Entry>)
    requires Ranked(lb)
    ensures SecondPlace(lb).Some? <==> |lb| > 0 && lb[0].accumulatedMatches < MainPrizeHits
    ensures SecondPlace(lb).Some? ==>
      forall e :: e in lb ==> e.accumulatedMatches <= SecondPlace(lb).value.accumulatedMatches
  {
    MainWinnerIsLeader(lb);
    if SecondPlace(lb).Some? {
      forall e | e in lb
        ensures e.accumulatedMatches <= lb[0].accumulatedMatches
      {
        var i :| 0 <= i < |lb| && lb[i] == e;
        if i > 0 {
          assert lb[0].accumulatedMatches >= lb[i].accumulatedMatches;
        }
      }
    }
  }

  /** Exactly one of the zero-hit and the lowest-hit winners exists on a
      non-empty leaderboard; on a ranked one the lowest holds the minimum. */
  lemma LowestHitsIsMinimum(lb: seq<Entry>)
    requires Ranked(lb)
    ensures |lb| > 0 <==> ZeroHitsWinner(lb).Some? || LowestHitsWinner(lb).Some?
    ensures !(ZeroHitsWinner(lb).Some? && LowestHitsWinner(lb).Some?)
    ensures LowestHitsWinner(lb).Some? ==>
      forall e :: e in lb ==> LowestHitsWinner(lb).value.accumulatedMatches <= e.accumulatedMatches
  {
    if LowestHitsWinner(lb).Some? {
      var last := |lb| - 1;
      forall e | e in lb
        ensures lb[last].accumulatedMatches <= e.accumulatedMatches
      {
        var i :| 0 <= i < |lb| && lb[i] == e;
        if i < last {
          assert lb[i].accumulatedMatches >= lb[last].accumulatedMatches;
        }
      }
    }
  }

  // ---------------------------------------------------------------------
  // Daily bonus

  /** The comparator of `.order("draw_number", { ascending: true })`. */
  predicate EarlierDraw(a: Draw, b: Draw)
  {
    a.drawNumber < b.drawNumber
  }

  /** The round's draws in ascending number, cut to the first seven. */
  function BonusDrawsOf(draws: seq<Draw>, roundId: Id): (r: seq<Draw>)
    ensures |r| <= BonusDraws
    ensures forall d :: d in r ==> d in draws && d.roundId == roundId
  {
    var ordered := SortBy(DrawsOfRound(draws, roundId), EarlierDraw);
    SortByMembers(DrawsOfRound(draws, roundId), EarlierDraw);
    if |ordered| <= BonusDraws then ordered
    else
      assert forall d :: d in ordered[..BonusDraws] ==> d in ordered;
      ordered[..BonusDraws]
  }

  /** At most seven draws, all of the round, in ascending number, and no draw
      of the round left out has a smaller number than one taken. */
  lemma BonusDrawsChosen(draws: seq<Draw>, roundId: Id)
    ensures var b := BonusDrawsOf(draws, roundId);
      && |b| <= BonusDraws
      && (forall d :: d in b ==> d in draws && d.roundId == roundId)
      && (forall i, j :: 0 <= i < j < |b| ==> b[i].drawNumber <= b[j].drawNumber)
      && (|b| < BonusDraws ==> forall d :: d in draws && d.roundId == roundId ==> d in b)
      && (forall d, x :: d in draws && d.roundId == roundId && d !in b && x in b ==> x.drawNumber <= d.drawNumber)
  {
    var own := DrawsOfRound(draws, roundId);
    var ordered := SortBy(own, EarlierDraw);
    assert StrictWeakOrder(EarlierDraw);
    SortBySorted(own, EarlierDraw);
    SortByMembers(own, EarlierDraw);
    SortByPermutes(own, EarlierDraw);
    var b := BonusDrawsOf(draws, roundId);
    forall d | d in b
      ensures d in ordered
    {
      if |ordered| > BonusDraws {
        var k :| 0 <= k < |b| && b[k] == d;
        assert ordered[k] == d;
      }
    }
    if |ordered| > BonusDraws {
      CutKeepsLowest(ordered, BonusDraws);
    }
  }

  /** Cutting an ascending list keeps numbers no larger than any it drops. */
  lemma CutKeepsLowest(ordered: seq<Draw>, n: nat)
    requires n <= |ordered|
    requires forall i, j :: 0 <= i < j < |ordered| ==> ordered[i].drawNumber <= ordered[j].drawNumber
    ensures forall d, x :: d in ordered && d !in ordered[..n] && x in ordered[..n] ==> x.drawNumber <= d.drawNumber
  {
    forall d, x | d in ordered && d !in ordered[..n] && x in ordered[..n]
      ensures x.drawNumber <= d.drawNumber
    {
      var m :| 0 <= m < |ordered| && ordered[m] == d;
      var k :| 0 <= k < n && ordered[..n][k] == x;
    }
  }

  /** The largest `matches_count` among the draw's results, 0 when it has none. */
  function BestOfDraw(rows: seq<DayResult>, drawId: Id): (r: nat)
    ensures forall x :: x in rows && x.drawId == drawId ==> x.matchesCount <= r
    ensures r > 0 ==> exists x :: x in rows && x.drawId == drawId && x.matchesCount == r
  {
    if rows == [] then 0
    else
      var b := BestOfDraw(rows[1..], drawId);
      if rows[0].drawId == drawId && rows[0].matchesCount > b then rows[0].matchesCount else b
  }

  /** `.eq("draw_id", id).order("matches_count", { ascending: false }).limit(1)`:
      one best result of the draw (the first in row order among equals), or none. */
  function TopOfDraw(rows: seq<DayResult>, drawId: Id): (r: seq<DayResult>)
    ensures |r| <= 1
    ensures r == [] <==> forall x :: x in rows ==> x.drawId != drawId
    ensures r != [] ==> r[0] in rows && r[0].drawId == drawId
    ensures r != [] ==> r[0].matchesCount == BestOfDraw(rows, drawId)
  {
    if rows == [] then []
    else
      var rest := TopOfDraw(rows[1..], drawId);
      if rows[0].drawId != drawId then rest
      else if rest == [] || rest[0].matchesCount <= rows[0].matchesCount then [rows[0]]
      else rest
  }

  /** The winners the loop pushes, draw by draw. */
  function DailyWinnersOf(draws: seq<Draw>, rows: seq<DayResult>): (r: seq<DailyWinner>)
    ensures |r| <= |draws|
    ensures forall w :: w in r ==> w.matches > 0
  {
    if draws == [] then []
    else
      var w := DailyWinnersOf(draws[..|draws| - 1], rows);
      var d := draws[|draws| - 1];
      var top := TopOfDraw(rows, d.id);
      if |top| > 0 && top[0].matchesCount > 0
      then w + [DailyWinner(d.drawNumber, top[0].playerName, top[0].matchesCount)]
      else w
  }

  /** The draws that have a result with at least one hit, in order. */
  function ScoringDraws(draws: seq<Draw>, rows: seq<DayResult>): seq<Draw>
  {
    if draws == [] then []
    else
      var d := draws[|draws| - 1];
      ScoringDraws(draws[..|draws| - 1], rows) + (if BestOfDraw(rows, d.id) > 0 then [d] else [])
  }

  /** The `for` loop over the bonus draws. `rows` are the round's results. */
  method DailyWinners(allDraws: seq<Draw>, roundId: Id, rows: seq<DayResult>) returns (dw: seq<DailyWinner>)
    ensures dw == DailyWinnersOf(BonusDrawsOf(allDraws, roundId), rows)
  {
    var draws := BonusDrawsOf(allDraws, roundId);
    dw := [];
    for i := 0 to |draws|
      invariant dw == DailyWinnersOf(draws[..i], rows)
    {
      assert draws[..i + 1][..i] == draws[..i];
      var dayResults := TopOfDraw(rows, draws[i].id);
      if |dayResults| > 0 && dayResults[0].matchesCount > 0 {
        dw := dw + [DailyWinner(draws[i].drawNumber, dayResults[0].playerName, dayResults[0].matchesCount)];
      }
    }
    assert draws[..|draws|] == draws;
  }

  /** One winner per draw that has a hit, in draw order, each holding that
      draw's best count; draws whose best is zero give none. */
  lemma {:induction false} DailyWinnersAreBest(draws: seq<Draw>, rows: seq<DayResult>)
    ensures var w, s := DailyWinnersOf(draws, rows), ScoringDraws(draws, rows);
      && |w| == |s| <= |draws|
      && forall k :: 0 <= k < |w| ==>
           && w[k].drawNumber == s[k].drawNumber
           && w[k].matches == BestOfDraw(rows, s[k].id)
           && w[k].matches > 0
  {
    if draws != [] {
      DailyWinnersAreBest(draws[..|draws| - 1], rows);
    }
  }
}
