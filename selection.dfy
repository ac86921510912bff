/** The number grid shared by the four dialogs that pick numbers (add draw,
    edit draw, create bet, edit bet). Each keeps `selectedNumbers` and steps it
    with the same `toggleNumber`: a selected number is removed, an unselected
    one is added only while fewer than `cap` are selected. The add-draw dialog
    re-sorts on insertion; the others append. */
module Selection {
  import opened Lottery
  import opened Sorting

  /** The comparator `(a, b) => a - b`: `a` goes first when it is smaller. */
  predicate Ascending(a: int, b: int)
  {
    a < b
  }

  /** Strictly increasing: sorted ascending with no repeats. */
  ghost predicate Increasing(s: seq<int>)
  {
    forall i, j :: 0 <= i < j < |s| ==> s[i] < s[j]
  }

  /** What a dialog may hold: distinct numbers of the grid, at most `cap` of them. */
  ghost predicate WellFormed(s: seq<int>, cap: nat, maxNumber: nat)
  {
    && NoDup(s)
    && |s| <= cap
    && forall x :: x in s ==> 1 <= x <= maxNumber
  }

  /** `selectedNumbers.filter((n) => n !== num)`. */
  function Without(s: seq<int>, n: int): (r: seq<int>)
    ensures forall x :: x in r <==> x in s && x != n
    ensures n !in s ==> r == s
  {
    if s == [] then []
    else (if s[0] == n then [] else [s[0]]) + Without(s[1..], n)
  }

  lemma {:induction false} WithoutShorter(s: seq<int>, n: int)
    ensures n in s ==> |Without(s, n)| < |s|
    ensures |Without(s, n)| <= |s|
  {
    if s != [] {
      WithoutShorter(s[1..], n);
    }
  }

  /** One press of the grid button `n`. */
  function Toggled(s: seq<int>, n: int, cap: nat, sortOnInsert: bool): (r: seq<int>)
    ensures n in s ==> n !in r && |r| < |s|
    ensures n !in s && |s| < cap ==> multiset(r) == multiset(s) + multiset{n}
    ensures n !in s && |s| >= cap ==> r == s
  {
    SortByPermutes(s + [n], Ascending);
    WithoutShorter(s, n);
    if n in s then Without(s, n)
    else if |s| < cap then (if sortOnInsert then SortBy(s + [n], Ascending) else s + [n])
    else s
  }

  /** The exact-size guard of every submit handler. */
  predicate Complete(s: seq<int>, cap: nat)
  {
    |s| == cap
  }

  lemma AscendingIsStrictWeakOrder()
    ensures StrictWeakOrder(Ascending)
  {
  }

  lemma {:induction false} WithoutNoDup(s: seq<int>, n: int)
    requires NoDup(s)
    ensures NoDup(Without(s, n)) && |Without(s, n)| <= |s|
    ensures n in s ==> |Without(s, n)| == |s| - 1
  {
    if s != [] {
      WithoutNoDup(s[1..], n);
      var t := Without(s[1..], n);
      forall k | 0 <= k < |s[1..]|
        ensures s[1..][k] != s[0]
      {
        assert s[1..][k] == s[k + 1];
      }
      assert s[0] !in t;
      if s[0] == n {
        assert n !in s[1..];
      }
    }
  }

  lemma SortedTail(s: seq<int>)
    requires s != [] && SortedBy(s, Ascending)
    ensures SortedBy(s[1..], Ascending)
    ensures forall x :: x in s[1..] ==> s[0] <= x
  {
    var t := s[1..];
    forall i, j | 0 <= i < j < |t|
      ensures !Ascending(t[j], t[i])
    {
      assert t[i] == s[i + 1] && t[j] == s[j + 1];
    }
    forall x | x in t
      ensures s[0] <= x
    {
      var k :| 0 <= k < |t| && t[k] == x;
      assert !Ascending(s[k + 1], s[0]);
    }
  }

  lemma SortedCons(h: int, t: seq<int>)
    requires SortedBy(t, Ascending)
    requires forall x :: x in t ==> h <= x
    ensures SortedBy([h] + t, Ascending)
  {
    var r := [h] + t;
    forall i, j | 0 <= i < j < |r|
      ensures !Ascending(r[j], r[i])
    {
      assert r[j] == t[j - 1] && r[j] in t;
      if i > 0 {
        assert r[i] == t[i - 1];
      }
    }
  }

  lemma {:induction false} WithoutSorted(s: seq<int>, n: int)
    requires SortedBy(s, Ascending)
    ensures SortedBy(Without(s, n), Ascending)
  {
    if s != [] {
      SortedTail(s);
      WithoutSorted(s[1..], n);
      var t := Without(s[1..], n);
      if s[0] != n {
        SortedCons(s[0], t);
      }
    }
  }

  lemma SortedNoDupIncreasing(s: seq<int>)
    requires SortedBy(s, Ascending) && NoDup(s)
    ensures Increasing(s)
  {
  }

  /** Two increasing sequences with the same members are the same sequence. */
  lemma {:induction false} IncreasingUnique(a: seq<int>, b: seq<int>)
    requires Increasing(a) && Increasing(b)
    requires forall x :: x in a <==> x in b
    ensures a == b
  {
    if a == [] {
      HeadIsMember(b);
    } else {
      assert a[0] in a && a[0] in b;
      assert b[0] in b && b[0] in a;
      var i :| 0 <= i < |a| && a[i] == b[0];
      var j :| 0 <= j < |b| && b[j] == a[0];
      assert a[0] <= a[i] && b[0] <= b[j];
      assert a[0] == b[0];
      IncreasingTail(a);
      IncreasingTail(b);
      IncreasingUnique(a[1..], b[1..]);
      assert a == [a[0]] + a[1..] && b == [b[0]] + b[1..];
    }
  }

  /** The tail of an increasing sequence is increasing and holds every
      member but the head. */
  lemma IncreasingTail(s: seq<int>)
    requires Increasing(s) && s != []
    ensures Increasing(s[1..])
    ensures forall x :: x in s[1..] <==> x in s && x != s[0]
  {
    forall x | x in s && x != s[0]
      ensures x in s[1..]
    {
      var k :| 0 <= k < |s| && s[k] == x;
      assert s[1..][k - 1] == x;
    }
    forall x | x in s[1..]
      ensures x != s[0]
    {
      var k :| 0 <= k < |s[1..]| && s[1..][k] == x;
      assert s[k + 1] == x;
    }
  }

  lemma HeadIsMember(s: seq<int>)
    ensures |s| > 0 ==> s[0] in s
  {
  }

  lemma {:induction false} WithoutAppend(a: seq<int>, b: seq<int>, n: int)
    ensures Without(a + b, n) == Without(a, n) + Without(b, n)
  {
    if a == [] {
      assert a + b == b;
    } else {
      var rest := a[1..];
      var head := if a[0] == n then [] else [a[0]];
      assert a + b != [] && (a + b)[0] == a[0] && (a + b)[1..] == rest + b;
      calc {
        Without(a + b, n);
        head + Without(rest + b, n);
        { WithoutAppend(rest, b, n); }
        head + (Without(rest, n) + Without(b, n));
        (head + Without(rest, n)) + Without(b, n);
        Without(a, n) + Without(b, n);
      }
    }
  }

  /** Appending or inserting `n` keeps the other numbers distinct. */
  lemma AddNoDup(s: seq<int>, n: int)
    requires NoDup(s) && n !in s
    ensures NoDup(s + [n])
    ensures NoDup(SortBy(s + [n], Ascending))
  {
    SortByPermutes(s + [n], Ascending);
    PermutationNoDup(s + [n], SortBy(s + [n], Ascending));
  }

  /** What a press does to the set of selected numbers. */
  lemma ToggleMembers(s: seq<int>, n: int, cap: nat, sortOnInsert: bool)
    ensures var r := Toggled(s, n, cap, sortOnInsert);
      && (n in s ==> forall x :: x in r <==> x in s && x != n)
      && (n !in s && |s| < cap ==> |r| == |s| + 1 && forall x :: x in r <==> x in s || x == n)
      && (n !in s && |s| >= cap ==> r == s)
  {
    SortByMembers(s + [n], Ascending);
    SortByPermutes(s + [n], Ascending);
  }

  /** A press keeps a well-formed selection well formed: never a repeated
      number, never more than `cap` numbers, never a number off the grid. */
  lemma ToggleWellFormed(s: seq<int>, n: int, cap: nat, maxNumber: nat, sortOnInsert: bool)
    requires WellFormed(s, cap, maxNumber)
    requires 1 <= n <= maxNumber
    ensures WellFormed(Toggled(s, n, cap, sortOnInsert), cap, maxNumber)
  {
    ToggleMembers(s, n, cap, sortOnInsert);
    if n in s {
      WithoutNoDup(s, n);
    } else if |s| < cap {
      AddNoDup(s, n);
    }
  }

  /** With insertion re-sorting, the selection stays sorted ascending. */
  lemma ToggleSorted(s: seq<int>, n: int, cap: nat)
    requires SortedBy(s, Ascending)
    ensures SortedBy(Toggled(s, n, cap, true), Ascending)
  {
    AscendingIsStrictWeakOrder();
    WithoutSorted(s, n);
    SortBySorted(s + [n], Ascending);
  }

  /** Pressing the same button twice gives back the same numbers; in the
      appending dialogs the same sequence when the number was absent, in the
      sorting dialog the same sequence always. */
  lemma ToggleTwice(s: seq<int>, n: int, cap: nat, sortOnInsert: bool)
    requires NoDup(s) && |s| <= cap
    ensures var r := Toggled(Toggled(s, n, cap, sortOnInsert), n, cap, sortOnInsert);
      && (forall x :: x in r <==> x in s)
      && (!sortOnInsert && n !in s ==> r == s)
      && (sortOnInsert && Increasing(s) ==> r == s)
  {
    var t := Toggled(s, n, cap, sortOnInsert);
    var r := Toggled(t, n, cap, sortOnInsert);
    ToggleMembers(s, n, cap, sortOnInsert);
    if n in s {
      WithoutNoDup(s, n);
      ToggleMembers(t, n, cap, sortOnInsert);
      if sortOnInsert && Increasing(s) {
        AscendingIsStrictWeakOrder();
        AddNoDup(t, n);
        SortBySorted(t + [n], Ascending);
        SortedNoDupIncreasing(r);
        IncreasingUnique(r, s);
      }
    } else if |s| < cap {
      if sortOnInsert {
        AddNoDup(s, n);
        var u := SortBy(s + [n], Ascending);
        SortByMembers(s + [n], Ascending);
        assert n in u;
        if Increasing(s) {
          AscendingIsStrictWeakOrder();
          SortBySorted(s + [n], Ascending);
          WithoutSorted(u, n);
          WithoutNoDup(u, n);
          SortedNoDupIncreasing(r);
          IncreasingUnique(r, s);
        }
      } else {
        WithoutAppend(s, [n], n);
        assert Without([n], n) == [];
      }
    }
  }

  /** Sorting an already increasing selection leaves it as it is. */
  lemma SortIncreasingIsIdentity(s: seq<int>)
    requires Increasing(s)
    ensures SortBy(s, Ascending) == s
  {
    var t := SortBy(s, Ascending);
    AscendingIsStrictWeakOrder();
    SortByCorrect(s, Ascending);
    SortByMembers(s, Ascending);
    PermutationNoDup(s, t);
    SortedNoDupIncreasing(t);
    IncreasingUnique(t, s);
  }

  /** The dialogs that append and then sort the selection for display
      (`selectedNumbers.sort((a, b) => a - b)` reorders the state itself) end
      every press in the same state as the dialog that sorts on insertion. */
  lemma DisplaySortMatchesSortedInsert(s: seq<int>, n: int, cap: nat)
    requires Increasing(s)
    ensures SortBy(Toggled(s, n, cap, false), Ascending) == Toggled(s, n, cap, true)
  {
    if n in s {
      AscendingIsStrictWeakOrder();
      assert SortedBy(s, Ascending);
      WithoutSorted(s, n);
      assert NoDup(s);
      WithoutNoDup(s, n);
      SortedNoDupIncreasing(Without(s, n));
      SortIncreasingIsIdentity(Without(s, n));
    } else if |s| >= cap {
      SortIncreasingIsIdentity(s);
    }
  }

  /** After the display sort a well-formed selection is strictly increasing. */
  lemma DisplaySortIncreasing(s: seq<int>)
    requires NoDup(s)
    ensures Increasing(SortBy(s, Ascending))
    ensures forall x :: x in SortBy(s, Ascending) <==> x in s
    ensures |SortBy(s, Ascending)| == |s|
  {
    AscendingIsStrictWeakOrder();
    SortByCorrect(s, Ascending);
    SortByMembers(s, Ascending);
    PermutationNoDup(s, SortBy(s, Ascending));
    SortedNoDupIncreasing(SortBy(s, Ascending));
  }
}
