/** Shared vocabulary of the bolão: the two lottery variants, the sizes of a
    draw and of a bet, money, and the small wrapper types used by every page. */
module Lottery {

  datatype Option<+T> = None | Some(value: T)

  /** Identifiers, names, dates and timestamps are opaque strings. */
  type Id = string
  type Date = string

  /** Currency amounts in integer cents (the source holds them as floats). */
  type Cents = int

  datatype LotteryType = Quina | MegaSena

  /** Numbers drawn per draw and numbers chosen per bet, for both variants. */
  const DrawSize: nat := 5
  const BetSize: nat := 10

  /** A bet is worth R$ 5,00 when its round records no value. */
  const DefaultBetValue: Cents := 500

  /** Largest selectable number: quina plays 1..80, every other type 1..60. */
  function MaxNumber(t: LotteryType): nat
  {
    if t == Quina then 80 else 60
  }

  /** The buttons of a number grid: 1, 2, ..., MaxNumber(t). */
  function Universe(t: LotteryType): (r: seq<int>)
    ensures |r| == MaxNumber(t)
    ensures forall i :: 0 <= i < |r| ==> r[i] == i + 1
  {
    seq(MaxNumber(t), i => i + 1)
  }

  lemma UniverseMembers(t: LotteryType, n: int)
    ensures n in Universe(t) <==> 1 <= n <= MaxNumber(t)
    ensures t == Quina ==> (n in Universe(t) <==> 1 <= n <= 80)
    ensures t == MegaSena ==> (n in Universe(t) <==> 1 <= n <= 60)
  {
    var u := Universe(t);
    if 1 <= n <= MaxNumber(t) {
      assert u[n - 1] == n;
    }
  }

  /** The date part of a timestamp, `toISOString().split("T")[0]`: the text
      before the first "T". */
  function DayPart(d: string): (r: string)
    ensures r <= d
    ensures 'T' !in r
    ensures 'T' !in d ==> r == d
  {
    if d == [] || d[0] == 'T' then [] else [d[0]] + DayPart(d[1..])
  }

  /** JavaScript `value || default` on an optional positive amount: a missing
      value and a zero both fall back to the default. */
  function BetValueOr(v: Option<Cents>): (r: Cents)
    ensures v.Some? && v.value != 0 ==> r == v.value
    ensures v.None? || v.value == 0 ==> r == DefaultBetValue
  {
    if v.Some? && v.value != 0 then v.value else DefaultBetValue
  }

  /** Sequences without repeated elements. */
  ghost predicate NoDup<T>(s: seq<T>)
  {
    forall i, j :: 0 <= i < j < |s| ==> s[i] != s[j]
  }

  /** The elements of `s` as a set. */
  function Elems<T>(s: seq<T>): set<T>
  {
    set x | x in s
  }

  /** A duplicate-free sequence has as many elements as its set. */
  lemma {:induction false} NoDupCard<T>(s: seq<T>)
    requires NoDup(s)
    ensures |Elems(s)| == |s|
  {
    if s != [] {
      NoDupCard(s[1..]);
      assert Elems(s) == {s[0]} + Elems(s[1..]);
      forall k | 0 <= k < |s[1..]|
        ensures s[1..][k] != s[0]
      {
        assert s[1..][k] == s[k + 1];
      }
    }
  }

  /** No sequence has more distinct elements than positions. */
  lemma {:induction false} ElemsCard<T>(s: seq<T>)
    ensures |Elems(s)| <= |s|
  {
    if s != [] {
      ElemsCard(s[1..]);
      assert Elems(s) == {s[0]} + Elems(s[1..]);
    }
  }

  /** A subset is no larger than its superset. */
  lemma {:induction false} SubsetCard<T>(a: set<T>, b: set<T>)
    requires a <= b
    ensures |a| <= |b|
    decreases a
  {
    if a != {} {
      var x :| x in a;
      SubsetCard(a - {x}, b - {x});
    }
  }

  /** `Array.prototype.findIndex`: the first position whose element satisfies `p`. */
  function FindIndex<T>(s: seq<T>, p: T -> bool): (r: Option<nat>)
    ensures r.Some? ==> r.value < |s| && p(s[r.value])
    ensures r.Some? ==> forall j :: 0 <= j < r.value ==> !p(s[j])
    ensures r.None? <==> forall j :: 0 <= j < |s| ==> !p(s[j])
  {
    if s == [] then None
    else if p(s[0]) then Some(0)
    else match FindIndex(s[1..], p)
      case None => None
      case Some(k) => Some(k + 1)
  }

  /** `Array.prototype.find`: the first element satisfying `p`, if any. */
  function Find<T>(s: seq<T>, p: T -> bool): (r: Option<T>)
    ensures r.Some? ==> r.value in s && p(r.value)
    ensures r.Some? ==> exists k :: 0 <= k < |s| && s[k] == r.value && forall j :: 0 <= j < k ==> !p(s[j])
    ensures r.None? <==> forall x :: x in s ==> !p(x)
  {
    match FindIndex(s, p)
      case None => None
      case Some(k) => Some(s[k])
  }
}
