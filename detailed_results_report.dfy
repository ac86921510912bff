/** The detailed result report of one draw: results grouped by player name,
    groups listed by name, each bet labelled "Jogo n" with its hit numbers
    highlighted, and a summary of totals. */
module DetailedResultsReport {
  import opened Lottery
  import opened Sorting
  import opened Grouping
  import opened Selection

  datatype ResultData = ResultData(
    betId: Id,
    playerName: string,
    betNumbers: seq<int>,
    matchedNumbers: seq<int>,
    matchesCount: int)

  /** An entry of `groupedByPlayer`. */
  datatype Group = Group(playerName: string, results: seq<ResultData>)

  function Names(results: seq<ResultData>): (r: seq<string>)
    ensures |r| == |results|
    ensures forall i :: 0 <= i < |results| ==> r[i] == results[i].playerName
  {
    seq(|results|, i requires 0 <= i < |results| => results[i].playerName)
  }

  /** The player's results in input order. */
  function GroupOf(results: seq<ResultData>, name: string): seq<ResultData>
  {
    if results == [] then []
    else
      var init, last := results[..|results| - 1], results[|results| - 1];
      GroupOf(init, name) + (if last.playerName == name then [last] else [])
  }

  /** How one more result changes a player's group. */
  lemma GroupOfSnoc(results: seq<ResultData>, i: nat, name: string)
    requires i < |results|
    ensures GroupOf(results[..i + 1], name)
         == GroupOf(results[..i], name) + (if results[i].playerName == name then [results[i]] else [])
    ensures Names(results[..i + 1]) == Names(results[..i]) + [results[i].playerName]
  {
    assert results[..i + 1][..i] == results[..i];
    assert results[..i + 1][i] == results[i];
  }

  /** The group holds every result of the player, as many as the name occurs. */
  lemma GroupOfComplete(results: seq<ResultData>, name: string)
    ensures forall x :: x in GroupOf(results, name) <==> x in results && x.playerName == name
    ensures |GroupOf(results, name)| == multiset(Names(results))[name]
  {
    GroupOfMembers(results, name);
    GroupOfSize(results, name);
  }

  lemma {:induction false} GroupOfMembers(results: seq<ResultData>, name: string)
    ensures forall x :: x in GroupOf(results, name) <==> x in results && x.playerName == name
  {
    if results != [] {
      var init, last := results[..|results| - 1], results[|results| - 1];
      GroupOfMembers(init, name);
      assert results == init + [last];
    }
  }

  lemma {:induction false} GroupOfSize(results: seq<ResultData>, name: string)
    ensures |GroupOf(results, name)| == multiset(Names(results))[name]
  {
    if results != [] {
      var init, last := results[..|results| - 1], results[|results| - 1];
      GroupOfSize(init, name);
      assert results == init + [last];
      assert Names(results) == Names(init) + [last.playerName];
    }
  }

  /** The `Map`'s entries, in order of each name's first result. */
  function Groups(results: seq<ResultData>): (r: seq<Group>)
    ensures forall i, j :: 0 <= i < j < |r| ==> r[i].playerName != r[j].playerName
    ensures forall i :: 0 <= i < |r| ==> r[i].playerName in Names(results)
  {
    var names := DistinctKeys(Names(results));
    DistinctKeysNoDup(Names(results));
    DistinctKeysMembers(Names(results));
    seq(|names|, k requires 0 <= k < |names| => Group(names[k], GroupOf(results, names[k])))
  }

  /** The state of the `forEach` after the first `i` results. */
  ghost predicate Folded(results: seq<ResultData>, i: nat, order: seq<string>, groups: map<string, seq<ResultData>>)
    requires i <= |results|
  {
    && order == DistinctKeys(Names(results[..i]))
    && (forall n :: n in groups <==> n in order)
    && (forall n :: n in groups ==> groups[n] == GroupOf(results[..i], n))
  }

  /** The key order after one more result, and the empty group a new name starts from. */
  lemma FoldKeys(results: seq<ResultData>, i: nat, order: seq<string>, groups: map<string, seq<ResultData>>)
    requires i < |results| && Folded(results, i, order, groups)
    ensures var name := results[i].playerName;
      && (if name in groups then order else order + [name]) == DistinctKeys(Names(results[..i + 1]))
      && (name !in groups ==> GroupOf(results[..i], name) == [])
  {
    var name := results[i].playerName;
    var pre := results[..i];
    GroupOfSnoc(results, i, name);
    DistinctKeysMembers(Names(pre));
    DistinctKeysSnoc(Names(pre), name);
    if name !in groups {
      GroupOfComplete(pre, name);
      assert multiset(Names(pre))[name] == 0;
    }
  }

  /** One iteration: create the group on first sight, then append the result. */
  lemma FoldStep(results: seq<ResultData>, i: nat, order: seq<string>, groups: map<string, seq<ResultData>>,
                 order': seq<string>, groups': map<string, seq<ResultData>>)
    requires i < |results| && Folded(results, i, order, groups)
    requires var r := results[i];
      var created := if r.playerName in groups then groups else groups[r.playerName := []];
      && order' == (if r.playerName in groups then order else order + [r.playerName])
      && groups' == created[r.playerName := created[r.playerName] + [r]]
    ensures Folded(results, i + 1, order', groups')
  {
    var r := results[i];
    var name := r.playerName;
    FoldKeys(results, i, order, groups);
    FoldGroups(results, i, groups, groups');
    forall n
      ensures n in groups' <==> n in order'
    {
      if n != name {
        assert n in groups' <==> n in groups;
      }
    }
  }

  /** Every group after an iteration. */
  lemma FoldGroups(results: seq<ResultData>, i: nat, groups: map<string, seq<ResultData>>,
                   groups': map<string, seq<ResultData>>)
    requires i < |results|
    requires forall m :: m in groups ==> groups[m] == GroupOf(results[..i], m)
    requires results[i].playerName !in groups ==> GroupOf(results[..i], results[i].playerName) == []
    requires var r := results[i];
      var created := if r.playerName in groups then groups else groups[r.playerName := []];
      groups' == created[r.playerName := created[r.playerName] + [r]]
    ensures forall n :: n in groups' ==> groups'[n] == GroupOf(results[..i + 1], n)
  {
    forall n | n in groups'
      ensures groups'[n] == GroupOf(results[..i + 1], n)
    {
      FoldGroup(results, i, groups, groups', n);
    }
  }

  /** One group after an iteration: the appended result lands in its own
      player's group only. */
  lemma FoldGroup(results: seq<ResultData>, i: nat, groups: map<string, seq<ResultData>>,
                  groups': map<string, seq<ResultData>>, n: string)
    requires i < |results|
    requires forall m :: m in groups ==> groups[m] == GroupOf(results[..i], m)
    requires results[i].playerName !in groups ==> GroupOf(results[..i], results[i].playerName) == []
    requires var r := results[i];
      var created := if r.playerName in groups then groups else groups[r.playerName := []];
      groups' == created[r.playerName := created[r.playerName] + [r]]
    requires n in groups'
    ensures groups'[n] == GroupOf(results[..i + 1], n)
  {
    GroupOfSnoc(results, i, n);
    if n != results[i].playerName {
      assert n in groups && groups'[n] == groups[n];
    }
  }

  /** `groupedByPlayer`, filled by `forEach` and `push`, then its entries. */
  method GroupByPlayer(results: seq<ResultData>) returns (groups: seq<Group>)
    ensures groups == Groups(results)
  {
    var order: seq<string> := [];
    var grouped: map<string, seq<ResultData>> := map[];
    for i := 0 to |results|
      invariant Folded(results, i, order, grouped)
    {
      var r := results[i];
      ghost var order0, grouped0 := order, grouped;
      if r.playerName !in grouped {
        order := order + [r.playerName];
        grouped := grouped[r.playerName := []];
      }
      grouped := grouped[r.playerName := grouped[r.playerName] + [r]];
      FoldStep(results, i, order0, grouped0, order, grouped);
    }
    assert results[..|results|] == results;
    groups := seq(|order|, k requires 0 <= k < |order| => Group(order[k], grouped[order[k]]));
  }

  function GroupNames(groups: seq<Group>): (r: seq<string>)
    ensures |r| == |groups|
    ensures forall i :: 0 <= i < |groups| ==> r[i] == groups[i].playerName
  {
    seq(|groups|, i requires 0 <= i < |groups| => groups[i].playerName)
  }

  function TotalSize(groups: seq<Group>): nat
  {
    if groups == [] then 0 else |groups[0].results| + TotalSize(groups[1..])
  }

  lemma {:induction false} TotalSizeCounts(results: seq<ResultData>, names: seq<string>)
    ensures TotalSize(seq(|names|, k requires 0 <= k < |names| => Group(names[k], GroupOf(results, names[k]))))
         == SumCounts(names, Names(results))
  {
    var gs := seq(|names|, k requires 0 <= k < |names| => Group(names[k], GroupOf(results, names[k])));
    if names != [] {
      var tail := seq(|names[1..]|, k requires 0 <= k < |names[1..]| =>
        Group(names[1..][k], GroupOf(results, names[1..][k])));
      TotalSizeCounts(results, names[1..]);
      GroupOfSize(results, names[0]);
      assert gs[1..] == tail by {
        forall k | 0 <= k < |tail|
          ensures gs[1..][k] == tail[k]
        {
          assert names[1..][k] == names[k + 1];
        }
      }
    }
  }

  /** Every result lands in exactly one group: the group of its player's
      name, whose results are that player's, and the group sizes add up to
      the number of results. */
  lemma GroupsPartition(results: seq<ResultData>)
    ensures var gs := Groups(results);
      && NoDup(GroupNames(gs))
      && (forall n :: n in GroupNames(gs) <==> n in Names(results))
      && (forall g :: g in gs ==> forall x :: x in g.results <==> x in results && x.playerName == g.playerName)
      && TotalSize(gs) == |results|
  {
    var names := DistinctKeys(Names(results));
    var gs := Groups(results);
    DistinctKeysNoDup(Names(results));
    DistinctKeysMembers(Names(results));
    assert GroupNames(gs) == names;
    forall g | g in gs
      ensures forall x :: x in g.results <==> x in results && x.playerName == g.playerName
    {
      var k :| 0 <= k < |gs| && gs[k] == g;
      GroupOfComplete(results, names[k]);
    }
    TotalSizeCounts(results, names);
    SumCountsDistinct(Names(results));
  }

  /** Within a group, results keep their input order. */
  lemma {:induction false} GroupOfAppend(a: seq<ResultData>, b: seq<ResultData>, name: string)
    ensures GroupOf(a + b, name) == GroupOf(a, name) + GroupOf(b, name)
    decreases |b|
  {
    if b == [] {
      assert a + b == a;
    } else {
      var init := b[..|b| - 1];
      GroupOfAppend(a, init, name);
      assert (a + b)[..|a + b| - 1] == a + init;
      assert (a + b)[|a + b| - 1] == b[|b| - 1];
    }
  }

  /** Groups ordered by `localeCompare` on the name, here the order `nameLt`. */
  function ByName(nameLt: (string, string) -> bool): (Group, Group) -> bool
  {
    (a: Group, b: Group) => nameLt(a.playerName, b.playerName)
  }

  lemma ByNameIsStrictWeakOrder(nameLt: (string, string) -> bool)
    requires StrictWeakOrder(nameLt)
    ensures StrictWeakOrder(ByName(nameLt))
  {
    var lt := ByName(nameLt);
    forall a: Group
      ensures !lt(a, a)
    {
      assert !nameLt(a.playerName, a.playerName);
    }
    forall a: Group, b: Group, c: Group
      ensures lt(a, b) && lt(b, c) ==> lt(a, c)
      ensures !lt(a, b) && !lt(b, c) ==> !lt(a, c)
    {
      assert lt(a, b) == nameLt(a.playerName, b.playerName);
      assert lt(b, c) == nameLt(b.playerName, c.playerName);
      assert lt(a, c) == nameLt(a.playerName, c.playerName);
    }
  }

  /** `sortedPlayers`. */
  function SortedPlayers(results: seq<ResultData>, nameLt: (string, string) -> bool): (r: seq<Group>)
    ensures multiset(r) == multiset(Groups(results))
    ensures forall g :: g in r <==> g in Groups(results)
  {
    SortByPermutes(Groups(results), ByName(nameLt));
    SortByMembers(Groups(results), ByName(nameLt));
    SortBy(Groups(results), ByName(nameLt))
  }

  /** The groups are listed by name, and there are as many as distinct names:
      the "Jogadores" figure. */
  lemma SortedPlayersByName(results: seq<ResultData>, nameLt: (string, string) -> bool)
    requires StrictWeakOrder(nameLt)
    ensures var sp := SortedPlayers(results, nameLt);
      && (forall i, j :: 0 <= i < j < |sp| ==> !nameLt(sp[j].playerName, sp[i].playerName))
      && multiset(sp) == multiset(Groups(results))
      && |sp| == |Elems(Names(results))|
  {
    ByNameIsStrictWeakOrder(nameLt);
    SortByCorrect(Groups(results), ByName(nameLt));
    DistinctKeysCount(Names(results));
  }

  // ---------------------------------------------------------------------
  // One bet as rendered

  datatype Badge = Badge(number: int, highlighted: bool)

  datatype BetRow = BetRow(jogo: nat, badges: seq<Badge>, hitsLabel: string)

  /** The hit label: "1 acerto", otherwise "n acertos". */
  function HitsWord(count: int): (r: string)
    ensures r == "acerto" <==> count == 1
  {
    if count == 1 then "acerto" else "acertos"
  }

  /** "1 jogo", otherwise "n jogos", on each group header. */
  function BetsWord(count: nat): (r: string)
    ensures r == "jogo" <==> count == 1
  {
    if count == 1 then "jogo" else "jogos"
  }

  /** The bet numbers sorted ascending, each highlighted when it is in `matchedNumbers`. */
  function Badges(result: ResultData): (r: seq<Badge>)
    ensures |r| == |result.betNumbers|
    ensures forall i :: 0 <= i < |r| ==> (r[i].highlighted <==> r[i].number in result.matchedNumbers)
  {
    var sorted := SortBy(result.betNumbers, Ascending);
    SortByPermutes(result.betNumbers, Ascending);
    seq(|sorted|, i requires 0 <= i < |sorted| => Badge(sorted[i], sorted[i] in result.matchedNumbers))
  }

  /** `playerResults.map((result, index) => ...)`. */
  function RenderGroup(g: Group): (r: seq<BetRow>)
    ensures |r| == |g.results|
    ensures forall i :: 0 <= i < |r| ==> r[i].jogo == i + 1
    ensures forall i :: 0 <= i < |r| ==> r[i].badges == Badges(g.results[i])
    ensures forall i :: 0 <= i < |r| ==> (r[i].hitsLabel == "acerto" <==> g.results[i].matchesCount == 1)
  {
    seq(|g.results|, i requires 0 <= i < |g.results| =>
      BetRow(i + 1, Badges(g.results[i]), HitsWord(g.results[i].matchesCount)))
  }

  /** The badges show the bet's numbers, each once per occurrence, ascending. */
  lemma BadgesAreBetNumbers(result: ResultData)
    ensures var b := Badges(result);
      && (forall i, j :: 0 <= i < j < |b| ==> b[i].number <= b[j].number)
      && (forall n :: (exists i :: 0 <= i < |b| && b[i].number == n) <==> n in result.betNumbers)
      && multiset(seq(|b|, i requires 0 <= i < |b| => b[i].number)) == multiset(result.betNumbers)
  {
    var sorted := SortBy(result.betNumbers, Ascending);
    AscendingIsStrictWeakOrder();
    SortBySorted(result.betNumbers, Ascending);
    SortByMembers(result.betNumbers, Ascending);
    SortByPermutes(result.betNumbers, Ascending);
    var b := Badges(result);
    assert seq(|b|, i requires 0 <= i < |b| => b[i].number) == sorted;
    forall n
      ensures (exists i :: 0 <= i < |b| && b[i].number == n) <==> n in result.betNumbers
    {
      if n in result.betNumbers {
        var i :| 0 <= i < |sorted| && sorted[i] == n;
        assert b[i].number == n;
      }
    }
  }

  // ---------------------------------------------------------------------
  // Summary

  /** `Math.max(...counts)`; an empty list has no maximum (the page would print -Infinity). */
  function MaxOf(counts: seq<int>): (r: Option<int>)
    ensures r.None? <==> counts == []
    ensures r.Some? ==> r.value in counts && forall c :: c in counts ==> c <= r.value
  {
    if counts == [] then None
    else
      assert counts == [counts[0]] + counts[1..];
      match MaxOf(counts[1..])
      case None => Some(counts[0])
      case Some(m) => Some(if counts[0] >= m then counts[0] else m)
  }

  function Counts(results: seq<ResultData>): (r: seq<int>)
    ensures |r| == |results|
    ensures forall i :: 0 <= i < |results| ==> r[i] == results[i].matchesCount
  {
    seq(|results|, i requires 0 <= i < |results| => results[i].matchesCount)
  }

  /** `results.filter((r) => r.matchesCount > 0).length`. */
  function WithHits(results: seq<ResultData>): (r: nat)
    ensures r <= |results|
    ensures r == |results| <==> forall i :: 0 <= i < |results| ==> results[i].matchesCount > 0
  {
    if results == [] then 0
    else (if results[0].matchesCount > 0 then 1 else 0) + WithHits(results[1..])
  }

  datatype Summary = Summary(totalBets: nat, players: nat, topHits: Option<int>, withHits: nat)

  function Summarize(results: seq<ResultData>): (r: Summary)
    ensures r.totalBets == |results|
    ensures r.players == |Elems(Names(results))| <= r.totalBets
    ensures r.withHits <= r.totalBets
  {
    DistinctKeysCount(Names(results));
    ElemsCard(Names(results));
    Summary(|results|, |DistinctKeys(Names(results))|, MaxOf(Counts(results)), WithHits(results))
  }

  /** The figures agree: the top count is positive exactly when some bet
      has a hit, and there are never more players or bets with hits than bets. */
  lemma {:induction false} SummaryConsistent(results: seq<ResultData>)
    ensures var s := Summarize(results);
      && s.withHits <= s.totalBets
      && s.players <= s.totalBets
      && (s.topHits.Some? <==> s.totalBets > 0)
      && (s.withHits > 0 <==> s.topHits.Some? && s.topHits.value > 0)
  {
    DistinctKeysCount(Names(results));
    ElemsCard(Names(results));
    WithHitsPositive(results);
    var counts := Counts(results);
    var m := MaxOf(counts);
    if WithHits(results) > 0 {
      var i :| 0 <= i < |results| && results[i].matchesCount > 0;
      assert counts[i] in counts;
    }
    if m.Some? && m.value > 0 {
      var i :| 0 <= i < |counts| && counts[i] == m.value;
      assert results[i].matchesCount > 0;
    }
  }

  /** The count splits over a concatenation: one per result with a hit. */
  lemma {:induction false} WithHitsAppend(a: seq<ResultData>, b: seq<ResultData>)
    ensures WithHits(a + b) == WithHits(a) + WithHits(b)
  {
    if a != [] {
      WithHitsAppend(a[1..], b);
      assert (a + b)[1..] == a[1..] + b;
    } else {
      assert a + b == b;
    }
  }

  /** One more result adds one exactly when it has a hit. */
  lemma WithHitsSnoc(results: seq<ResultData>, x: ResultData)
    ensures WithHits(results + [x]) == WithHits(results) + (if x.matchesCount > 0 then 1 else 0)
  {
    WithHitsAppend(results, [x]);
    assert [x][1..] == [];
  }

  lemma {:induction false} WithHitsPositive(results: seq<ResultData>)
    ensures WithHits(results) > 0 <==> exists i :: 0 <= i < |results| && results[i].matchesCount > 0
  {
    if results != [] {
      WithHitsPositive(results[1..]);
      if WithHits(results[1..]) > 0 {
        var i :| 0 <= i < |results[1..]| && results[1..][i].matchesCount > 0;
        assert results[i + 1].matchesCount > 0;
      }
      if exists i :: 0 <= i < |results| && results[i].matchesCount > 0 {
        var i :| 0 <= i < |results| && results[i].matchesCount > 0;
        if i > 0 {
          assert results[1..][i - 1].matchesCount > 0;
        }
      }
    }
  }
}
