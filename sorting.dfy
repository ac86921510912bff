/** The stable sort used by the pages (`Array.prototype.sort` is stable), as an
    insertion sort over a comparison `lt` where `lt(a, b)` means "a goes
    strictly before b". Comparators such as `b.total - a.total` and
    `localeCompare` are strict weak orders: ties are allowed. */
module Sorting {

  ghost predicate StrictWeakOrder<T(!new)>(lt: (T, T) -> bool)
  {
    && (forall a :: !lt(a, a))
    && (forall a, b, c :: lt(a, b) && lt(b, c) ==> lt(a, c))
    && (forall a, b, c :: !lt(a, b) && !lt(b, c) ==> !lt(a, c))
  }

  /** Nothing is listed after an element that `lt` ranks strictly ahead of it. */
  ghost predicate SortedBy<T>(s: seq<T>, lt: (T, T) -> bool)
  {
    forall i, j :: 0 <= i < j < |s| ==> !lt(s[j], s[i])
  }

  /** Neither ranks ahead of the other. */
  predicate Tied<T>(a: T, b: T, lt: (T, T) -> bool)
  {
    !lt(a, b) && !lt(b, a)
  }

  /** The elements of `s` tied with `x`, in their order in `s`. A sort is
      stable when it leaves every such subsequence as it found it. */
  function TiedWith<T>(s: seq<T>, x: T, lt: (T, T) -> bool): seq<T>
  {
    if s == [] then []
    else (if Tied(s[0], x, lt) then [s[0]] else []) + TiedWith(s[1..], x, lt)
  }

  /** Puts `x` in front of the first element that does not rank strictly ahead of it. */
  function Insert<T>(x: T, s: seq<T>, lt: (T, T) -> bool): seq<T>
  {
    if s == [] then [x]
    else if lt(s[0], x) then [s[0]] + Insert(x, s[1..], lt)
    else [x] + s
  }

  function SortBy<T>(s: seq<T>, lt: (T, T) -> bool): seq<T>
  {
    if s == [] then [] else Insert(s[0], SortBy(s[1..], lt), lt)
  }

  lemma {:induction false} InsertPermutes<T>(x: T, s: seq<T>, lt: (T, T) -> bool)
    ensures multiset(Insert(x, s, lt)) == multiset(s) + multiset{x}
  {
    if s != [] && lt(s[0], x) {
      InsertPermutes(x, s[1..], lt);
      assert s == [s[0]] + s[1..];
    }
  }

  lemma {:induction false} InsertSorted<T(!new)>(x: T, s: seq<T>, lt: (T, T) -> bool)
    requires StrictWeakOrder(lt)
    requires SortedBy(s, lt)
    ensures SortedBy(Insert(x, s, lt), lt)
  {
    if s == [] {
    } else if lt(s[0], x) {
      InsertSorted(x, s[1..], lt);
      var t := Insert(x, s[1..], lt);
      InsertPermutes(x, s[1..], lt);
      forall j | 0 < j < |t| + 1
        ensures !lt(([s[0]] + t)[j], s[0])
      {
        var y := t[j - 1];
        assert y in multiset(t);
        if y != x {
          assert y in multiset(s[1..]);
          var k :| 0 <= k < |s[1..]| && s[1..][k] == y;
          assert s[k + 1] == y;
        }
      }
    } else {
      forall j | 0 < j < |s| + 1
        ensures !lt(([x] + s)[j], x)
      {
        assert !lt(s[j - 1], s[0]);
      }
    }
  }

  lemma {:induction false} InsertTied<T(!new)>(x: T, s: seq<T>, y: T, lt: (T, T) -> bool)
    requires StrictWeakOrder(lt)
    ensures TiedWith(Insert(x, s, lt), y, lt)
         == (if Tied(x, y, lt) then [x] else []) + TiedWith(s, y, lt)
  {
    if s == [] {
      assert TiedWith([x], y, lt) == (if Tied(x, y, lt) then [x] else []) + TiedWith([], y, lt);
    } else if lt(s[0], x) {
      var rest := Insert(x, s[1..], lt);
      InsertTied(x, s[1..], y, lt);
      assert Tied(x, y, lt) ==> !Tied(s[0], y, lt);
      assert ([s[0]] + rest)[1..] == rest;
      assert TiedWith([s[0]] + rest, y, lt)
          == (if Tied(s[0], y, lt) then [s[0]] else []) + TiedWith(rest, y, lt);
      assert TiedWith(s, y, lt)
          == (if Tied(s[0], y, lt) then [s[0]] else []) + TiedWith(s[1..], y, lt);
    } else {
      assert ([x] + s)[1..] == s;
    }
  }

  lemma {:induction false} SortByPermutes<T>(s: seq<T>, lt: (T, T) -> bool)
    ensures multiset(SortBy(s, lt)) == multiset(s)
    ensures |SortBy(s, lt)| == |s|
  {
    if s != [] {
      SortByPermutes(s[1..], lt);
      InsertPermutes(s[0], SortBy(s[1..], lt), lt);
      assert s == [s[0]] + s[1..];
    }
    assert |multiset(SortBy(s, lt))| == |multiset(s)|;
  }

  lemma {:induction false} SortBySorted<T(!new)>(s: seq<T>, lt: (T, T) -> bool)
    requires StrictWeakOrder(lt)
    ensures SortedBy(SortBy(s, lt), lt)
  {
    if s != [] {
      SortBySorted(s[1..], lt);
      InsertSorted(s[0], SortBy(s[1..], lt), lt);
    }
  }

  /** Stability: elements that tie keep their relative input order. */
  lemma {:induction false} SortByStable<T(!new)>(s: seq<T>, y: T, lt: (T, T) -> bool)
    requires StrictWeakOrder(lt)
    ensures TiedWith(SortBy(s, lt), y, lt) == TiedWith(s, y, lt)
  {
    if s != [] {
      SortByStable(s[1..], y, lt);
      InsertTied(s[0], SortBy(s[1..], lt), y, lt);
    }
  }

  /** Everything proved about the sort, in one place. */
  lemma SortByCorrect<T(!new)>(s: seq<T>, lt: (T, T) -> bool)
    requires StrictWeakOrder(lt)
    ensures multiset(SortBy(s, lt)) == multiset(s) && |SortBy(s, lt)| == |s|
    ensures SortedBy(SortBy(s, lt), lt)
    ensures forall y :: TiedWith(SortBy(s, lt), y, lt) == TiedWith(s, y, lt)
  {
    SortByPermutes(s, lt);
    SortBySorted(s, lt);
    forall y ensures TiedWith(SortBy(s, lt), y, lt) == TiedWith(s, y, lt) {
      SortByStable(s, y, lt);
    }
  }

  /** Membership survives the sort. */
  lemma SortByMembers<T>(s: seq<T>, lt: (T, T) -> bool)
    ensures forall x :: x in SortBy(s, lt) <==> x in s
  {
    SortByPermutes(s, lt);
    forall x ensures x in SortBy(s, lt) <==> x in s {
      assert x in SortBy(s, lt) <==> x in multiset(SortBy(s, lt));
      assert x in s <==> x in multiset(s);
    }
  }

  /** A permutation of a duplicate-free sequence is duplicate-free. */
  lemma PermutationNoDup<T>(s: seq<T>, t: seq<T>)
    requires multiset(s) == multiset(t)
    requires forall i, j :: 0 <= i < j < |s| ==> s[i] != s[j]
    ensures forall i, j :: 0 <= i < j < |t| ==> t[i] != t[j]
  {
    forall i, j | 0 <= i < j < |t|
      ensures t[i] != t[j]
    {
      MultisetAtLeastTwo(t, i, j);
      CountAtMostOne(s, t[i]);
    }
  }

  lemma {:induction false} MultisetAtLeastTwo<T>(t: seq<T>, i: nat, j: nat)
    requires i < j < |t|
    ensures t[i] == t[j] ==> multiset(t)[t[i]] >= 2
  {
    var x := t[i];
    if t[j] != x {
      return;
    }
    assert t == t[..i] + [x] + t[i + 1..j] + [x] + t[j + 1..];
    assert multiset(t) == multiset(t[..i]) + multiset{x} + multiset(t[i + 1..j]) + multiset{x} + multiset(t[j + 1..]);
  }

  lemma {:induction false} CountAtMostOne<T>(s: seq<T>, x: T)
    requires forall i, j :: 0 <= i < j < |s| ==> s[i] != s[j]
    ensures multiset(s)[x] <= 1
  {
    if s != [] {
      CountAtMostOne(s[1..], x);
      assert s == [s[0]] + s[1..];
      if s[0] == x {
        forall k | 0 <= k < |s[1..]|
          ensures s[1..][k] != x
        {
          assert s[1..][k] == s[k + 1];
        }
        assert x !in s[1..];
      }
    }
  }
}
