/** `Array.prototype.sort` with a numeric comparator `(a, b) => key(a) - key(b)`,
    as an insertion sort on sequences: the result is ordered by the key and
    is a permutation of the input, and an input already in order is
    returned as it is. */
module Sorting {

  ghost predicate SortedBy<T>(s: seq<T>, key: T -> int) {
    forall i, j :: 0 <= i < j < |s| ==> key(s[i]) <= key(s[j])
  }

  /** Inserts `x` after every element whose key is at most `key(x)`. */
  function InsertBy<T>(x: T, s: seq<T>, key: T -> int): (r: seq<T>)
    requires SortedBy(s, key)
    ensures SortedBy(r, key)
    ensures multiset(r) == multiset(s) + multiset{x}
    ensures |r| == |s| + 1
    ensures forall k :: 0 <= k < |r| ==> r[k] == x || r[k] in s
  {
    if s == [] then [x]
    else if key(x) < key(s[0]) then [x] + s
    else
      var rest := InsertBy(x, s[1..], key);
      assert s == [s[0]] + s[1..];
      InsertedAfterHead(x, s[0], s[1..], rest, key);
      [s[0]] + rest
  }

  /** Putting `head` back in front of `x` inserted into the tail keeps the order. */
  lemma InsertedAfterHead<T>(x: T, head: T, tail: seq<T>, rest: seq<T>, key: T -> int)
    requires SortedBy([head] + tail, key) && SortedBy(rest, key)
    requires key(head) <= key(x)
    requires forall k :: 0 <= k < |rest| ==> rest[k] == x || rest[k] in tail
    ensures SortedBy([head] + rest, key)
    ensures forall k :: 0 <= k < |[head] + rest| ==> ([head] + rest)[k] == x || ([head] + rest)[k] in [head] + tail
  {
    forall k | 0 <= k < |rest| ensures key(head) <= key(rest[k]) {
      if rest[k] != x {
        var i :| 0 <= i < |tail| && tail[i] == rest[k];
        assert ([head] + tail)[0] == head && ([head] + tail)[i + 1] == rest[k];
      }
    }
  }

  /** The elements of `s` ordered by `key`; each element is inserted after
      the ones before it with an equal key. */
  function SortBy<T>(s: seq<T>, key: T -> int): (r: seq<T>)
    ensures SortedBy(r, key)
    ensures multiset(r) == multiset(s)
    ensures |r| == |s|
  {
    if s == [] then []
    else
      assert s == s[..|s| - 1] + [s[|s| - 1]];
      InsertBy(s[|s| - 1], SortBy(s[..|s| - 1], key), key)
  }

  /** An element whose key is at least every key of `s` goes at the end. */
  lemma {:induction false} InsertAtEnd<T>(x: T, s: seq<T>, key: T -> int)
    requires SortedBy(s, key)
    requires forall k :: 0 <= k < |s| ==> key(s[k]) <= key(x)
    ensures InsertBy(x, s, key) == s + [x]
    decreases |s|
  {
    if s != [] {
      InsertAtEnd(x, s[1..], key);
      assert s == [s[0]] + s[1..];
    }
  }

  /** Sorting a sequence that is already ordered by the key changes
      nothing, so equal keys keep their order there. */
  lemma {:induction false} SortByOrdered<T>(s: seq<T>, key: T -> int)
    requires SortedBy(s, key)
    ensures SortBy(s, key) == s
    decreases |s|
  {
    if s != [] {
      var init, x := s[..|s| - 1], s[|s| - 1];
      assert init + [x] == s;
      assert forall k :: 0 <= k < |init| ==> init[k] == s[k];
      assert forall k :: 0 <= k < |init| ==> key(init[k]) <= key(x);
      SortByOrdered(init, key);
      InsertAtEnd(x, init, key);
      calc {
        SortBy(s, key);
        InsertBy(x, SortBy(init, key), key);
        InsertBy(x, init, key);
        init + [x];
      }
    }
  }

  predicate Ascending(s: seq<int>) {
    forall i, j :: 0 <= i < j < |s| ==> s[i] <= s[j]
  }

  /** `numbers.sort((a, b) => a - b)` */
  function SortAscending(s: seq<int>): (r: seq<int>)
    ensures Ascending(r)
    ensures multiset(r) == multiset(s)
  {
    var r := SortBy(s, d => d);
    assert forall i, j :: 0 <= i < j < |r| ==> (d => d)(r[i]) <= (d => d)(r[j]);
    r
  }

  /** Sequences with the same multiset of elements have the same elements. */
  lemma SameElements<T>(a: seq<T>, b: seq<T>)
    requires multiset(a) == multiset(b)
    ensures forall x :: x in a <==> x in b
  {
    forall x ensures x in a <==> x in b {
      assert x in a <==> x in multiset(a);
      assert x in b <==> x in multiset(b);
    }
  }
}
