/** Sorting rows by a key and a tie-break, and the first rows of the sorted whole. */
module Ranking {

  datatype Entry<T> = Entry(key: real, tie: int, row: T)

  predicate Before<T>(a: Entry<T>, b: Entry<T>) {
    a.key < b.key || (a.key == b.key && a.tie < b.tie)
  }

  ghost predicate Ranked<T>(list: seq<Entry<T>>) {
    forall i, j :: 0 <= i < j < |list| ==> Before(list[i], list[j])
  }

  /** No two rows tie. */
  ghost predicate Distinct<T>(list: seq<Entry<T>>) {
    forall i, j :: 0 <= i < j < |list| ==> list[i].tie != list[j].tie
  }

  function Placed<T>(list: seq<Entry<T>>, e: Entry<T>): seq<Entry<T>> {
    if list == [] || Before(e, list[0]) then [e] + list else [list[0]] + Placed(list[1..], e)
  }

  function Sorted<T>(list: seq<Entry<T>>): seq<Entry<T>> {
    if list == [] then [] else Placed(Sorted(list[1..]), list[0])
  }

  function First<T>(list: seq<T>, count: nat): seq<T> {
    if |list| <= count then list else list[..count]
  }

  /** Every row of the list has another tie-break. */
  ghost predicate Apart<T>(list: seq<Entry<T>>, tie: int) {
    forall i :: 0 <= i < |list| ==> list[i].tie != tie
  }

  /** Every row of the list comes after the row. */
  ghost predicate After<T>(list: seq<Entry<T>>, e: Entry<T>) {
    forall i :: 0 <= i < |list| ==> Before(e, list[i])
  }

  lemma {:induction false} PlacedKeeps<T>(list: seq<Entry<T>>, e: Entry<T>, first: Entry<T>, tie: int)
    ensures After(list, first) && Before(first, e) ==> After(Placed(list, e), first)
    ensures Apart(list, tie) && e.tie != tie ==> Apart(Placed(list, e), tie)
    ensures forall x :: x in Placed(list, e) <==> x in list || x == e
  {
    if list != [] && !Before(e, list[0]) {
      PlacedKeeps(list[1..], e, first, tie);
      assert forall x :: x in list <==> x == list[0] || x in list[1..];
    }
  }

  lemma {:induction false} PlacedIsRanked<T>(list: seq<Entry<T>>, e: Entry<T>)
    requires Ranked(list) && Apart(list, e.tie)
    ensures Ranked(Placed(list, e)) && |Placed(list, e)| == |list| + 1
  {
    if list != [] && !Before(e, list[0]) {
      assert Ranked(list[1..]);
      PlacedIsRanked(list[1..], e);
      PlacedKeeps(list[1..], e, list[0], 0);
    }
  }

  lemma {:induction false} SortedKeeps<T>(list: seq<Entry<T>>, tie: int)
    ensures Apart(list, tie) ==> Apart(Sorted(list), tie)
    ensures forall x :: x in Sorted(list) <==> x in list
  {
    if list != [] {
      SortedKeeps(list[1..], tie);
      PlacedKeeps(Sorted(list[1..]), list[0], list[0], tie);
      assert forall x :: x in list <==> x == list[0] || x in list[1..];
    }
  }

  lemma {:induction false} SortedIsRanked<T>(list: seq<Entry<T>>)
    requires Distinct(list)
    ensures Ranked(Sorted(list)) && |Sorted(list)| == |list|
    ensures forall x :: x in Sorted(list) <==> x in list
  {
    SortedKeeps(list, 0);
    if list != [] {
      assert Distinct(list[1..]);
      SortedIsRanked(list[1..]);
      SortedKeeps(list[1..], list[0].tie);
      PlacedIsRanked(Sorted(list[1..]), list[0]);
    }
  }

  lemma {:induction false} RankedIsUnique<T>(a: seq<Entry<T>>, b: seq<Entry<T>>)
    requires Ranked(a) && Ranked(b) && forall x :: x in a <==> x in b
    ensures a == b
  {
    assert a == [] <==> b == [] by {
      if a != [] {
        assert a[0] in a;
      }
      if b != [] {
        assert b[0] in b;
      }
    }
    if a != [] {
      assert a[0] in a && b[0] in b;
      assert a[0] in b && b[0] in a;
      forall x
        ensures x in a[1..] <==> x in b[1..]
      {
        assert x in a <==> x in [a[0]] + a[1..];
        assert x in b <==> x in [b[0]] + b[1..];
      }
      RankedIsUnique(a[1..], b[1..]);
    }
  }

  /** Sorting depends on which rows there are, not on their order. */
  lemma SortedIgnoresOrder<T>(a: seq<Entry<T>>, b: seq<Entry<T>>)
    requires Distinct(a) && Distinct(b) && forall x :: x in a <==> x in b
    ensures Sorted(a) == Sorted(b)
  {
    SortedIsRanked(a);
    SortedIsRanked(b);
    RankedIsUnique(Sorted(a), Sorted(b));
  }

  // ----- The rows up to a key

  function AtMost<T>(list: seq<Entry<T>>, key: real): seq<Entry<T>> {
    if list == [] then [] else (if list[0].key <= key then [list[0]] else []) + AtMost(list[1..], key)
  }

  lemma {:induction false} AtMostAre<T>(list: seq<Entry<T>>, key: real)
    ensures forall x :: x in AtMost(list, key) <==> x in list && x.key <= key
  {
    if list != [] {
      AtMostAre(list[1..], key);
      assert forall x :: x in list <==> x == list[0] || x in list[1..];
    }
  }

  lemma {:induction false} NoneAtMost<T>(list: seq<Entry<T>>, key: real)
    requires forall i :: 0 <= i < |list| ==> list[i].key > key
    ensures AtMost(list, key) == []
  {
    if list != [] {
      NoneAtMost(list[1..], key);
    }
  }

  /** Of a ranked list, the rows up to a key are a prefix. */
  lemma {:induction false} AtMostIsPrefix<T>(list: seq<Entry<T>>, key: real)
    requires Ranked(list)
    ensures AtMost(list, key) <= list && Ranked(AtMost(list, key))
  {
    if list != [] {
      assert Ranked(list[1..]);
      AtMostIsPrefix(list[1..], key);
      if list[0].key > key {
        NoneAtMost(list[1..], key);
      }
    }
  }

  /** The rows up to a key, sorted, are a prefix of the sorted whole. */
  lemma SortedAtMost<T>(all: seq<Entry<T>>, part: seq<Entry<T>>, key: real)
    requires Distinct(all) && Distinct(part) && (forall x :: x in part <==> x in all && x.key <= key)
    ensures Sorted(part) <= Sorted(all) && |Sorted(part)| == |part| && |Sorted(all)| == |all|
  {
    SortedIsRanked(all);
    SortedIsRanked(part);
    AtMostIsPrefix(Sorted(all), key);
    AtMostAre(Sorted(all), key);
    RankedIsUnique(Sorted(part), AtMost(Sorted(all), key));
  }

  /** Sorting only the rows up to a key, when they are enough, gives the first rows of the sorted whole. */
  lemma FirstOfAtMost<T>(all: seq<Entry<T>>, part: seq<Entry<T>>, key: real, count: nat)
    requires Distinct(all) && Distinct(part) && (forall x :: x in part <==> x in all && x.key <= key)
    requires |part| >= count
    ensures First(Sorted(part), count) == First(Sorted(all), count)
  {
    SortedAtMost(all, part, key);
  }
}
