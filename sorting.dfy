/**
 * `Array.prototype.sort` with a comparator that orders by one numeric key,
 * as the sweeps call it. The builtin's algorithm is not part of the source;
 * it is modelled by a stable insertion sort, which is what the comparator
 * asks for (ties keep their order).
 */
module Sorting {

  /** Non-decreasing by `key`. */
  ghost predicate SortedBy<T>(s: seq<T>, key: T -> real)
  {
    forall i, j :: 0 <= i < j < |s| ==> key(s[i]) <= key(s[j])
  }

  /** Put `c` in front of the first element whose key is not smaller. */
  function InsertBy<T>(c: T, s: seq<T>, key: T -> real): (r: seq<T>)
    requires SortedBy(s, key)
    ensures SortedBy(r, key)
    ensures multiset(r) == multiset(s) + multiset{c}
    ensures |r| == |s| + 1
    ensures forall j :: 0 <= j < |r| ==> r[j] == c || r[j] in s
  {
    if s == [] || key(c) <= key(s[0]) then
      [c] + s
    else
      var rest := InsertBy(c, s[1..], key);
      assert forall j :: 0 <= j < |rest| ==> key(s[0]) <= key(rest[j]);
      assert s == [s[0]] + s[1..];
      [s[0]] + rest
  }

  /** A stable sort by `key`: sorted, and a permutation of its input. */
  function SortBy<T>(s: seq<T>, key: T -> real): (r: seq<T>)
    ensures SortedBy(r, key)
    ensures multiset(r) == multiset(s)
    ensures |r| == |s|
  {
    if s == [] then []
    else
      assert s == [s[0]] + s[1..];
      InsertBy(s[0], SortBy(s[1..], key), key)
  }

  /** Membership survives sorting. */
  lemma SortByMembers<T>(s: seq<T>, key: T -> real)
    ensures forall c :: c in SortBy(s, key) <==> c in s
  {
    var r := SortBy(s, key);
    forall c ensures c in r <==> c in s {
      calc {
        c in r;
        c in multiset(r);
        c in multiset(s);
        c in s;
      }
    }
  }
}
