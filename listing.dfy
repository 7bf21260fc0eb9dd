/**
 Sorted snapshots of an id-keyed store. A listing copies every stored
 record out of the map, in whatever order the map yields them, and then
 sorts the copies by id. Records and the id they are sorted by are generic:
 `key` reads the id of a listed item and `entry` turns a stored record into
 the item that is listed for it.
 */
module Listing {

  /** Keys never decrease from left to right. */
  ghost predicate Ascending<T>(s: seq<T>, key: T -> int)
  {
    forall i, j :: 0 <= i < j < |s| ==> key(s[i]) <= key(s[j])
  }

  /** Keys strictly increase from left to right, so no key occurs twice. */
  ghost predicate StrictlyAscending<T>(s: seq<T>, key: T -> int)
  {
    forall i, j :: 0 <= i < j < |s| ==> key(s[i]) < key(s[j])
  }

  ghost predicate DistinctKeys<T>(s: seq<T>, key: T -> int)
  {
    forall i, j :: 0 <= i < j < |s| ==> key(s[i]) != key(s[j])
  }

  /** Every record is stored under the id its listed item carries. */
  ghost predicate KeyedBy<V, T>(m: map<int, V>, key: T -> int, entry: V -> T)
  {
    forall id :: id in m ==> key(entry(m[id])) == id
  }

  /**
   `items` is the listing of `m`: sorted strictly ascending by id, every item
   is the entry of the record stored under its id, and every stored id is
   listed.
   */
  ghost predicate IsListing<V, T>(items: seq<T>, m: map<int, V>, key: T -> int, entry: V -> T)
  {
    && StrictlyAscending(items, key)
    && (forall i :: 0 <= i < |items| ==> key(items[i]) in m && items[i] == entry(m[key(items[i])]))
    && (forall id :: id in m ==> exists i :: 0 <= i < |items| && key(items[i]) == id)
  }

  /** Inserts `x` before the first element whose key is larger than its own. */
  function InsertSorted<T>(s: seq<T>, x: T, key: T -> int): (r: seq<T>)
    requires Ascending(s, key)
    ensures |r| == |s| + 1
    ensures r[0] == x || (|s| > 0 && r[0] == s[0])
    ensures Ascending(r, key)
    ensures multiset(r) == multiset(s) + multiset{x}
    decreases |s|
  {
    if |s| == 0 || key(x) <= key(s[0]) then
      [x] + s
    else
      var tail := s[1..];
      assert Ascending(tail, key);
      var rest := InsertSorted(tail, x, key);
      assert forall j :: 0 <= j < |rest| ==> key(s[0]) <= key(rest[j]);
      assert s == [s[0]] + tail;
      [s[0]] + rest
  }

  /** Inserting an element whose key is new keeps a strictly ascending sequence strict. */
  lemma {:induction false} InsertSortedStrict<T>(s: seq<T>, x: T, key: T -> int)
    requires StrictlyAscending(s, key)
    requires forall y :: y in s ==> key(y) != key(x)
    ensures Ascending(s, key) && StrictlyAscending(InsertSorted(s, x, key), key)
    decreases |s|
  {
    if |s| > 0 && key(x) > key(s[0]) {
      var tail := s[1..];
      assert forall y :: y in tail ==> y in s;
      InsertSortedStrict(tail, x, key);
      var rest := InsertSorted(tail, x, key);
      assert InsertSorted(s, x, key) == [s[0]] + rest;
      assert forall j :: 0 <= j < |rest| ==> key(s[0]) < key(rest[j]);
    }
  }

  /**
   Sorts by key (the model of std::sort with a "less by id" comparison): the
   result is ordered and is a permutation of the input; when no two inputs
   share a key, the order is strict.
   */
  method SortByKey<T>(s: seq<T>, key: T -> int) returns (r: seq<T>)
    ensures Ascending(r, key)
    ensures multiset(r) == multiset(s)
    ensures DistinctKeys(s, key) ==> StrictlyAscending(r, key)
  {
    r := [];
    for i := 0 to |s|
      invariant Ascending(r, key)
      invariant multiset(r) == multiset(s[..i])
      invariant DistinctKeys(s, key) ==> StrictlyAscending(r, key)
    {
      if DistinctKeys(s, key) {
        forall y | y in r
          ensures key(y) != key(s[i])
        {
          assert y in multiset(s[..i]);
          var k :| 0 <= k < i && s[k] == y;
        }
      }
      assert s[..i + 1] == s[..i] + [s[i]];
      if DistinctKeys(s, key) {
        InsertSortedStrict(r, s[i], key);
      }
      r := InsertSorted(r, s[i], key);
    }
    assert s[..|s|] == s;
  }

  /**
   Builds the listing of `m`: copies each stored record once, in an
   arbitrary order (the map's own iteration order is unspecified), then
   sorts the copies by id.
   */
  method SortedSnapshot<V, T>(m: map<int, V>, key: T -> int, entry: V -> T) returns (items: seq<T>)
    requires KeyedBy(m, key, entry)
    ensures IsListing(items, m, key, entry)
  {
    var copied: seq<T> := [];
    var pending := m.Keys;
    while pending != {}
      invariant pending <= m.Keys
      invariant forall i :: 0 <= i < |copied| ==> key(copied[i]) in m.Keys - pending && copied[i] == entry(m[key(copied[i])])
      invariant forall id :: id in m.Keys - pending ==> exists i :: 0 <= i < |copied| && key(copied[i]) == id
      invariant DistinctKeys(copied, key)
      decreases pending
    {
      assert (forall k :: k !in pending) ==> pending == {};
      var id :| id in pending;
      ghost var before, pendingBefore := copied, pending;
      copied := copied + [entry(m[id])];
      pending := pending - {id};
      forall done | done in m.Keys - pending
        ensures exists i :: 0 <= i < |copied| && key(copied[i]) == done
      {
        if done == id {
          assert key(copied[|before|]) == done;
        } else {
          assert done in m.Keys - pendingBefore;
          var i :| 0 <= i < |before| && key(before[i]) == done;
          assert copied[i] == before[i];
        }
      }
    }
    assert m.Keys - pending == m.Keys;
    items := SortByKey(copied, key);
    forall i | 0 <= i < |items|
      ensures key(items[i]) in m && items[i] == entry(m[key(items[i])])
    {
      assert items[i] in multiset(copied);
    }
    forall id | id in m
      ensures exists i :: 0 <= i < |items| && key(items[i]) == id
    {
      var k :| 0 <= k < |copied| && key(copied[k]) == id;
      assert copied[k] in multiset(items);
      var i :| 0 <= i < |items| && items[i] == copied[k];
    }
  }

  /** Two strictly ascending sequences with the same elements are equal. */
  lemma {:induction false} StrictlySortedUnique<T>(a: seq<T>, b: seq<T>, key: T -> int)
    requires StrictlyAscending(a, key) && StrictlyAscending(b, key)
    requires forall x :: x in a <==> x in b
    ensures a == b
    decreases |a|
  {
    assert a != [] ==> a[0] in a;
    assert b != [] ==> b[0] in b;
    if a != [] && b != [] {
      assert b[0] in a;
      assert a[0] in b;
      var i :| 0 <= i < |a| && a[i] == b[0];
      var j :| 0 <= j < |b| && b[j] == a[0];
      assert i == 0 && j == 0;
      forall x
        ensures x in a[1..] <==> x in b[1..]
      {
        if x in a[1..] {
          var k :| 1 <= k < |a| && a[k] == x;
          assert x in b;
          var k' :| 0 <= k' < |b| && b[k'] == x;
          assert key(a[0]) < key(x);
          assert k' != 0;
          assert b[1..][k' - 1] == x;
        }
        if x in b[1..] {
          var k :| 1 <= k < |b| && b[k] == x;
          assert x in a;
          var k' :| 0 <= k' < |a| && a[k'] == x;
          assert key(b[0]) < key(x);
          assert k' != 0;
          assert a[1..][k' - 1] == x;
        }
      }
      StrictlySortedUnique(a[1..], b[1..], key);
      assert a == [a[0]] + a[1..] && b == [b[0]] + b[1..];
    }
  }

  /**
   A store has exactly one listing: however the copies were gathered, the
   listing is the same, so two listings of an unchanged store are equal.
   */
  lemma ListingUnique<V, T>(a: seq<T>, b: seq<T>, m: map<int, V>, key: T -> int, entry: V -> T)
    requires IsListing(a, m, key, entry) && IsListing(b, m, key, entry)
    ensures a == b
  {
    forall x
      ensures x in a <==> x in b
    {
      if x in a {
        var i :| 0 <= i < |a| && a[i] == x;
        var k :| 0 <= k < |b| && key(b[k]) == key(x);
      }
      if x in b {
        var i :| 0 <= i < |b| && b[i] == x;
        var k :| 0 <= k < |a| && key(a[k]) == key(x);
      }
    }
    StrictlySortedUnique(a, b, key);
  }

  /** Without its first item, a listing is the listing of the store without that item's record. */
  lemma ListingTail<V, T>(items: seq<T>, m: map<int, V>, key: T -> int, entry: V -> T)
    requires IsListing(items, m, key, entry) && items != []
    ensures IsListing(items[1..], m - {key(items[0])}, key, entry)
  {
    var rest := m - {key(items[0])};
    var tail := items[1..];
    forall id | id in rest
      ensures exists i :: 0 <= i < |tail| && key(tail[i]) == id
    {
      var i :| 0 <= i < |items| && key(items[i]) == id;
      assert key(tail[i - 1]) == id;
    }
    forall i | 0 <= i < |tail|
      ensures key(tail[i]) in rest && tail[i] == entry(rest[key(tail[i])])
    {
      assert key(items[0]) < key(items[i + 1]);
    }
  }

  /** A listing holds exactly one item per stored record. */
  lemma {:induction false} ListingSize<V, T>(items: seq<T>, m: map<int, V>, key: T -> int, entry: V -> T)
    requires IsListing(items, m, key, entry)
    ensures |items| == |m|
    decreases |items|
  {
    if items == [] {
      assert forall id :: id !in m;
      assert m.Keys == {};
    } else {
      var first := key(items[0]);
      ListingTail(items, m, key, entry);
      ListingSize(items[1..], m - {first}, key, entry);
      assert (m - {first}).Keys == m.Keys - {first};
    }
  }
}
