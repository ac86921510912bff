/** The printable prize report: the prize cards it shows and the overall
    ranking, where a player with several bets gets "(Jogo n)" after the name,
    n counting that player's bets in ranking order. */
module PrizeReportContent {
  import opened Lottery
  import opened Grouping

  datatype BetWithDetails = BetWithDetails(
    betId: Id,
    playerId: Id,
    playerName: string,
    numbers: seq<int>,
    matchedNumbers: seq<int>,
    totalMatches: int)

  /** Hits shown in green in the ranking. */
  const MainPrizeHits: int := 10

  function PlayerIds(bets: seq<BetWithDetails>): (r: seq<Id>)
    ensures |r| == |bets|
    ensures forall i :: 0 <= i < |bets| ==> r[i] == bets[i].playerId
  {
    seq(|bets|, i requires 0 <= i < |bets| => bets[i].playerId)
  }

  /** `map.get(key) || 0`. */
  function CountOr0(m: map<Id, nat>, p: Id): nat
  {
    if p in m then m[p] else 0
  }

  /** `playerBetCount`, filled by `forEach`: each player's number of bets. */
  method CountBets(bets: seq<BetWithDetails>) returns (count: map<Id, nat>)
    ensures forall p :: p in count <==> p in PlayerIds(bets)
    ensures forall p :: CountOr0(count, p) == multiset(PlayerIds(bets))[p]
  {
    count := map[];
    for i := 0 to |bets|
      invariant forall p :: p in count <==> p in PlayerIds(bets)[..i]
      invariant forall p :: CountOr0(count, p) == multiset(PlayerIds(bets)[..i])[p]
    {
      var p := bets[i].playerId;
      assert PlayerIds(bets)[..i + 1] == PlayerIds(bets)[..i] + [p];
      var c := CountOr0(count, p);
      count := count[p := c + 1];
    }
    assert PlayerIds(bets)[..|bets|] == PlayerIds(bets);
  }

  /** The per-player counts add up to the number of bets. */
  lemma CountsCoverAllBets(bets: seq<BetWithDetails>)
    ensures SumCounts(DistinctKeys(PlayerIds(bets)), PlayerIds(bets)) == |bets|
  {
    SumCountsDistinct(PlayerIds(bets));
  }

  /** `playerBetIndex` with `getBetNumber`. `calls` records the players asked
      for so far. */
  class BetNumberer {
    var index: map<Id, nat>
    ghost var calls: seq<Id>

    ghost predicate Valid()
      reads this
    {
      forall p :: CountOr0(index, p) == multiset(calls)[p]
    }

    constructor()
      ensures Valid() && calls == []
    {
      index := map[];
      calls := [];
    }

    /** The k-th call for a player answers k; other players' numbers are untouched. */
    method Next(playerId: Id) returns (n: nat)
      requires Valid()
      modifies this
      ensures Valid()
      ensures calls == old(calls) + [playerId]
      ensures n == multiset(calls)[playerId] && n >= 1
      ensures forall q :: q != playerId ==> CountOr0(index, q) == CountOr0(old(index), q)
    {
      var current := CountOr0(index, playerId) + 1;
      index := index[playerId := current];
      calls := calls + [playerId];
      n := current;
    }
  }

  datatype RankRow = RankRow(
    position: nat,
    playerName: string,
    jogo: Option<nat>,
    highlighted: bool,
    green: bool)

  /** Row `i` of the ranking as the report means it: position, "(Jogo n)"
      only for a player with more than one bet, n counting that player's
      bets up to this row, row 0 highlighted, ten or more hits in green. */
  function RowFor(bets: seq<BetWithDetails>, i: nat): (r: RankRow)
    requires i < |bets|
    ensures r.position == i + 1 && r.playerName == bets[i].playerName
    ensures r.jogo.Some? <==> multiset(PlayerIds(bets))[bets[i].playerId] > 1
    ensures r.jogo.Some? ==> 1 <= r.jogo.value <= multiset(PlayerIds(bets))[bets[i].playerId]
    ensures r.highlighted <==> i == 0
    ensures r.green <==> bets[i].totalMatches >= MainPrizeHits
  {
    var p := bets[i].playerId;
    var ids := PlayerIds(bets);
    assert ids == ids[..i + 1] + ids[i + 1..];
    assert ids[..i + 1][i] == p;
    RankRow(
      i + 1,
      bets[i].playerName,
      if multiset(PlayerIds(bets))[p] > 1 then Some(multiset(PlayerIds(bets)[..i + 1])[p]) else None,
      i == 0,
      bets[i].totalMatches >= MainPrizeHits)
  }

  /** `betsWithDetails.map((entry, index) => ...)`, calling `getBetNumber`
      once per row and reading `playerBetCount`. */
  method RenderRanking(bets: seq<BetWithDetails>) returns (rows: seq<RankRow>)
    ensures |rows| == |bets|
    ensures forall i :: 0 <= i < |rows| ==> rows[i] == RowFor(bets, i)
  {
    var playerBetCount := CountBets(bets);
    var numberer := new BetNumberer();
    ghost var ids := PlayerIds(bets);
    rows := [];
    for i := 0 to |bets|
      invariant numberer.Valid() && numberer.calls == ids[..i]
      invariant |rows| == i
      invariant forall k :: 0 <= k < i ==> rows[k] == RowFor(bets, k)
    {
      var entry := bets[i];
      assert ids[..i + 1] == ids[..i] + [entry.playerId];
      var betNumber := numberer.Next(entry.playerId);
      assert betNumber == multiset(ids[..i + 1])[entry.playerId];
      var hasMultipleBets := CountOr0(playerBetCount, entry.playerId) > 1;
      assert hasMultipleBets == (multiset(ids)[entry.playerId] > 1);
      var row := RankRow(i + 1, entry.playerName, if hasMultipleBets then Some(betNumber) else None,
                         i == 0, entry.totalMatches >= MainPrizeHits);
      assert row == RowFor(bets, i);
      ghost var prev := rows;
      rows := rows + [row];
      forall k | 0 <= k < i + 1
        ensures rows[k] == RowFor(bets, k)
      {
        if k < i {
          assert rows[k] == prev[k];
        }
      }
    }
  }

  /** The k-th of a player's rows is labelled "(Jogo k)", numbering each
      player's bets 1, 2, ... in ranking order; a single bet carries no label. */
  lemma JogoNumbering(bets: seq<BetWithDetails>, i: nat, j: nat)
    requires i < j < |bets| && bets[i].playerId == bets[j].playerId
    ensures RowFor(bets, i).jogo.Some? && RowFor(bets, j).jogo.Some?
    ensures 1 <= RowFor(bets, i).jogo.value < RowFor(bets, j).jogo.value
  {
    var ids := PlayerIds(bets);
    var p := bets[i].playerId;
    assert ids[..j + 1] == ids[..i + 1] + ids[i + 1..j + 1];
    assert ids[j] in ids[i + 1..j + 1] by {
      assert ids[i + 1..j + 1][j - i - 1] == ids[j];
    }
    assert ids == ids[..j + 1] + ids[j + 1..];
    assert ids[..i + 1] == ids[..i] + [p];
  }

  /** A player with a single bet has no "(Jogo n)" label. */
  lemma SingleBetUnlabelled(bets: seq<BetWithDetails>, i: nat)
    requires i < |bets|
    ensures RowFor(bets, i).jogo.None? <==>
      forall j :: 0 <= j < |bets| && j != i ==> bets[j].playerId != bets[i].playerId
  {
    var ids := PlayerIds(bets);
    var p := bets[i].playerId;
    var pre, post := ids[..i], ids[i + 1..];
    assert ids == pre + [p] + post;
    assert multiset(ids)[p] == multiset(pre)[p] + 1 + multiset(post)[p];
    if forall j :: 0 <= j < |bets| && j != i ==> bets[j].playerId != p {
      forall k | 0 <= k < |pre|
        ensures pre[k] != p
      {
        assert pre[k] == ids[k];
      }
      forall k | 0 <= k < |post|
        ensures post[k] != p
      {
        assert post[k] == ids[k + i + 1];
      }
      assert p !in pre && p !in post;
    } else {
      var j :| 0 <= j < |bets| && j != i && bets[j].playerId == p;
      if j < i {
        assert pre[j] == p;
      } else {
        assert post[j - i - 1] == p;
      }
    }
  }

  /** `secondPlace && !mainWinner`. */
  function SecondPlaceCard(mainWinner: Option<BetWithDetails>, secondPlace: Option<BetWithDetails>)
    : (r: Option<BetWithDetails>)
    ensures r.Some? <==> secondPlace.Some? && mainWinner.None?
    ensures r.Some? ==> r == secondPlace
  {
    if secondPlace.Some? && mainWinner.None? then secondPlace else None
  }

  /** The zero-hit card: who it names, whose numbers it shows, and the
      "(n ACERTOS)" suffix that only the fallback carries. */
  datatype ZeroCard = ZeroCard(playerName: string, shown: BetWithDetails, hitsSuffix: Option<int>)

  /** `(zeroHitsWinner || lowestHitsWinner) && ...`. The name is
      `zeroHitsWinner?.player_name || lowestHitsWinner?.player_name`, so an
      empty name on the zero-hit winner falls through to the lowest. */
  function ZeroHitCard(zero: Option<BetWithDetails>, lowest: Option<BetWithDetails>): (r: Option<ZeroCard>)
    ensures r.Some? <==> zero.Some? || lowest.Some?
    ensures r.Some? && zero.Some? ==> r.value.shown == zero.value && r.value.hitsSuffix.None?
    ensures r.Some? && zero.None? ==>
      r.value.shown == lowest.value && r.value.hitsSuffix == Some(lowest.value.totalMatches)
  {
    if zero.Some? then
      var name := if zero.value.playerName != "" then zero.value.playerName
                  else if lowest.Some? then lowest.value.playerName else "";
      Some(ZeroCard(name, zero.value, None))
    else if lowest.Some? then
      Some(ZeroCard(lowest.value.playerName, lowest.value, Some(lowest.value.totalMatches)))
    else None
  }

  /** When only one of the two winners is given, as the prize pages do, the
      card names that winner. */
  lemma ZeroHitCardNamesWinner(zero: Option<BetWithDetails>, lowest: Option<BetWithDetails>)
    requires !(zero.Some? && lowest.Some?)
    ensures var r := ZeroHitCard(zero, lowest);
      && (zero.Some? ==> r.value.playerName == zero.value.playerName)
      && (lowest.Some? ==> r.value.playerName == lowest.value.playerName)
  {
  }
}
