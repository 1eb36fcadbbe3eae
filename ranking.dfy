/**
 * `items.sort((a, b) => b.votes - a.votes)`: `Array.prototype.sort` is stable,
 * so items are put in non-increasing order of their key and items with equal
 * keys keep their relative order. Modelled as an insertion sort.
 */
module Ranking {
  import opened Seqs

  ghost predicate SortedDesc<T>(key: T -> int, s: seq<T>) {
    forall i, j :: 0 <= i < j < |s| ==> key(s[i]) >= key(s[j])
  }

  function KeyIs<T>(key: T -> int, k: int): T -> bool { (x: T) => key(x) == k }

  /** `x` placed after every element with a larger key and before all the others. */
  function Insert<T>(key: T -> int, x: T, s: seq<T>): (r: seq<T>)
    ensures |r| == |s| + 1
    ensures multiset(r) == multiset{x} + multiset(s)
    ensures forall y :: y in r ==> y == x || y in s
    ensures SortedDesc(key, s) ==> SortedDesc(key, r)
  {
    if s == [] || key(s[0]) <= key(x) then
      assert SortedDesc(key, s) ==> SortedDesc(key, [x] + s) by {
        if SortedDesc(key, s) {
          ConsSorted(key, x, s);
        }
      }
      [x] + s
    else
      var rest := Insert(key, x, s[1..]);
      assert s == [s[0]] + s[1..];
      assert SortedDesc(key, s) ==> SortedDesc(key, [s[0]] + rest) by {
        if SortedDesc(key, s) {
          SortedTail(key, s);
          forall y | y in rest ensures key(s[0]) >= key(y) {
            if y != x {
              var k :| 0 <= k < |s[1..]| && s[1..][k] == y;
              assert s[k + 1] == y;
            }
          }
          ConsSortedAll(key, s[0], rest);
        }
      }
      [s[0]] + rest
  }

  /** A sorted list stays sorted under a head whose key is at least its first key. */
  lemma ConsSorted<T>(key: T -> int, x: T, s: seq<T>)
    requires SortedDesc(key, s) && (s == [] || key(s[0]) <= key(x))
    ensures SortedDesc(key, [x] + s)
  {
    var r := [x] + s;
    forall i, j | 0 <= i < j < |r| ensures key(r[i]) >= key(r[j]) {
      if i == 0 {
        assert r[j] == s[j - 1];
        if j > 1 {
          assert key(s[0]) >= key(s[j - 1]);
        }
      } else {
        assert r[i] == s[i - 1] && r[j] == s[j - 1];
      }
    }
  }

  /** A sorted list stays sorted under a head whose key is at least all of its keys. */
  lemma ConsSortedAll<T>(key: T -> int, x: T, s: seq<T>)
    requires SortedDesc(key, s) && forall y :: y in s ==> key(x) >= key(y)
    ensures SortedDesc(key, [x] + s)
  {
    var r := [x] + s;
    forall i, j | 0 <= i < j < |r| ensures key(r[i]) >= key(r[j]) {
      if i == 0 {
        assert r[j] == s[j - 1] && s[j - 1] in s;
      } else {
        assert r[i] == s[i - 1] && r[j] == s[j - 1];
      }
    }
  }

  /** The stable sort by non-increasing key. */
  function SortDesc<T>(key: T -> int, s: seq<T>): (r: seq<T>)
    ensures |r| == |s|
    ensures multiset(r) == multiset(s)
    ensures SortedDesc(key, r)
  {
    if s == [] then []
    else
      assert s == [s[0]] + s[1..];
      Insert(key, s[0], SortDesc(key, s[1..]))
  }

  /** Inserting `x` puts it in front of the elements that share its key, and disturbs no other key's order. */
  lemma {:induction false} InsertKeepsKeyOrder<T(!new)>(key: T -> int, x: T, s: seq<T>, k: int)
    ensures Filter(KeyIs(key, k), Insert(key, x, s)) ==
            (if key(x) == k then [x] else []) + Filter(KeyIs(key, k), s)
  {
    var p := KeyIs(key, k);
    if s == [] || key(s[0]) <= key(x) {
      assert Insert(key, x, s) == [x] + s;
      FilterCons(p, x, s);
    } else {
      var rest := Insert(key, x, s[1..]);
      InsertKeepsKeyOrder(key, x, s[1..], k);
      PassOver(p, s[0], x, rest, Filter(p, s[1..]));
      assert Insert(key, x, s) == [s[0]] + rest;
      assert s == [s[0]] + s[1..];
      FilterCons(p, s[0], s[1..]);
    }
  }

  /** Filtering is unaffected by `x` overtaking an element `y` that does not share its key. */
  lemma PassOver<T(!new)>(p: T -> bool, y: T, x: T, rest: seq<T>, tail: seq<T>)
    requires !(p(y) && p(x))
    requires Filter(p, rest) == (if p(x) then [x] else []) + tail
    ensures Filter(p, [y] + rest) == (if p(x) then [x] else []) + ((if p(y) then [y] else []) + tail)
  {
    FilterCons(p, y, rest);
    if p(x) {
      assert Filter(p, [y] + rest) == [] + ([x] + tail);
      assert [] + ([x] + tail) == [x] + ([] + tail);
    } else {
      assert [] + tail == tail;
    }
  }

  /** Stability: for every key value, the elements with that key appear in their original order. */
  lemma {:induction false} SortDescStable<T(!new)>(key: T -> int, s: seq<T>, k: int)
    ensures Filter(KeyIs(key, k), SortDesc(key, s)) == Filter(KeyIs(key, k), s)
  {
    if s != [] {
      SortDescStable(key, s[1..], k);
      InsertKeepsKeyOrder(key, s[0], SortDesc(key, s[1..]), k);
    }
  }

  /** A list already in order is left as it is. */
  lemma {:induction false} SortDescOfSorted<T>(key: T -> int, s: seq<T>)
    requires SortedDesc(key, s)
    ensures SortDesc(key, s) == s
  {
    if s != [] {
      var t := s[1..];
      SortedTail(key, s);
      SortDescOfSorted(key, t);
      InsertAtFront(key, s[0], t);
      assert s == [s[0]] + t;
    }
  }

  lemma SortedTail<T>(key: T -> int, s: seq<T>)
    requires s != [] && SortedDesc(key, s)
    ensures SortedDesc(key, s[1..])
    ensures |s| > 1 ==> key(s[1]) <= key(s[0])
  {
    var t := s[1..];
    forall i, j | 0 <= i < j < |t| ensures key(t[i]) >= key(t[j]) {
      assert t[i] == s[i + 1] && t[j] == s[j + 1];
    }
  }

  /** An element with a key at least the head's goes in front. */
  lemma InsertAtFront<T>(key: T -> int, x: T, s: seq<T>)
    requires s == [] || key(s[0]) <= key(x)
    ensures Insert(key, x, s) == [x] + s
  {
  }
}
