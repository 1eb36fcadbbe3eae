/**
 * Order-preserving list operations the source uses everywhere: `filter`, `map`,
 * and "no two rows share a key" (the PRIMARY KEY / UNIQUE constraints).
 */
module Seqs {

  /** The elements of `s` that satisfy `p`, in their original order (`Array.prototype.filter`). */
  function Filter<T(!new)>(p: T -> bool, s: seq<T>): (r: seq<T>)
    ensures |r| <= |s|
    ensures forall x :: x in r <==> x in s && p(x)
  {
    if s == [] then [] else (if p(s[0]) then [s[0]] else []) + Filter(p, s[1..])
  }

  /** `f` applied to every element of `s` (`Array.prototype.map`). */
  function Map<T, U>(f: T -> U, s: seq<T>): (r: seq<U>)
    ensures |r| == |s|
    ensures forall i :: 0 <= i < |s| ==> r[i] == f(s[i])
  {
    seq(|s|, i requires 0 <= i < |s| => f(s[i]))
  }

  /** The number of elements of `s` that satisfy `p` (`s.filter(p).length`, or SQL `COUNT(*) ... WHERE p`). */
  function Count<T(!new)>(p: T -> bool, s: seq<T>): nat {
    |Filter(p, s)|
  }

  /** No two positions of `s` carry the same key. */
  ghost predicate DistinctBy<T, K>(key: T -> K, s: seq<T>) {
    forall i, j :: 0 <= i < j < |s| ==> key(s[i]) != key(s[j])
  }

  lemma {:induction false} FilterAppend<T(!new)>(p: T -> bool, a: seq<T>, b: seq<T>)
    ensures Filter(p, a + b) == Filter(p, a) + Filter(p, b)
  {
    if a == [] {
      assert a + b == b;
    } else {
      assert (a + b)[1..] == a[1..] + b;
      FilterAppend(p, a[1..], b);
    }
  }

  /** Filtering a list with a known head. */
  lemma FilterCons<T(!new)>(p: T -> bool, x: T, s: seq<T>)
    ensures Filter(p, [x] + s) == (if p(x) then [x] else []) + Filter(p, s)
  {
    assert ([x] + s)[1..] == s;
  }

  /** Appending one element extends the filtered list by that element exactly when it qualifies. */
  lemma FilterSnoc<T(!new)>(p: T -> bool, s: seq<T>, x: T)
    ensures Filter(p, s + [x]) == Filter(p, s) + (if p(x) then [x] else [])
    ensures Count(p, s + [x]) == Count(p, s) + (if p(x) then 1 else 0)
  {
    FilterAppend(p, s, [x]);
    assert Filter(p, [x]) == (if p(x) then [x] else []) + Filter(p, []);
  }

  /** Filtering by a predicate every element satisfies changes nothing. */
  lemma {:induction false} FilterKeepsAll<T(!new)>(p: T -> bool, s: seq<T>)
    requires forall x :: x in s ==> p(x)
    ensures Filter(p, s) == s
  {
    if s != [] {
      assert s[0] in s;
      FilterKeepsAll(p, s[1..]);
      assert [s[0]] + s[1..] == s;
    }
  }

  /** Narrowing a list first can only lower a count taken over it. */
  lemma {:induction false} CountOfFilterLe<T(!new)>(p: T -> bool, q: T -> bool, s: seq<T>)
    ensures Count(p, Filter(q, s)) <= Count(p, s)
  {
    if s != [] {
      CountOfFilterLe(p, q, s[1..]);
      assert Filter(q, s) == (if q(s[0]) then [s[0]] else []) + Filter(q, s[1..]);
      FilterAppend(p, if q(s[0]) then [s[0]] else [], Filter(q, s[1..]));
      assert Filter(p, if q(s[0]) then [s[0]] else []) ==
        (if q(s[0]) && p(s[0]) then [s[0]] else []) + Filter(p, []);
    }
  }

  /** A count under a weaker predicate is at least the count under a stronger one. */
  lemma {:induction false} CountMonotone<T(!new)>(p: T -> bool, q: T -> bool, s: seq<T>)
    requires forall x :: p(x) ==> q(x)
    ensures Count(p, s) <= Count(q, s)
  {
    if s != [] {
      CountMonotone(p, q, s[1..]);
    }
  }

  /** Filtering keeps distinct keys distinct. */
  lemma {:induction false} FilterKeepsDistinct<T(!new), K>(p: T -> bool, key: T -> K, s: seq<T>)
    requires DistinctBy(key, s)
    ensures DistinctBy(key, Filter(p, s))
  {
    if s != [] {
      var rest := Filter(p, s[1..]);
      FilterKeepsDistinct(p, key, s[1..]);
      if p(s[0]) {
        var r := [s[0]] + rest;
        forall i, j | 0 <= i < j < |r| ensures key(r[i]) != key(r[j]) {
          if i == 0 {
            assert r[j] in s[1..];
            var k :| 0 <= k < |s[1..]| && s[1..][k] == r[j];
            assert s[k + 1] == r[j];
          } else {
            assert r[i] == rest[i - 1] && r[j] == rest[j - 1];
          }
        }
      }
    }
  }

  /** Appending an element whose key is new keeps keys distinct. */
  lemma AppendKeepsDistinct<T, K>(key: T -> K, s: seq<T>, x: T)
    requires DistinctBy(key, s)
    requires forall y :: y in s ==> key(y) != key(x)
    ensures DistinctBy(key, s + [x])
  {
    var r := s + [x];
    forall i, j | 0 <= i < j < |r| ensures key(r[i]) != key(r[j]) {
      if j == |s| {
        assert r[i] in s;
      } else {
        assert r[i] == s[i] && r[j] == s[j];
      }
    }
  }

  /** Counting by `p` among the elements that pass `q` is counting by their conjunction. */
  lemma {:induction false} CountOfFilter<T(!new)>(p: T -> bool, q: T -> bool, both: T -> bool, s: seq<T>)
    requires forall x :: both(x) <==> p(x) && q(x)
    ensures Count(p, Filter(q, s)) == Count(both, s)
  {
    if s != [] {
      CountOfFilter(p, q, both, s[1..]);
      var head := if q(s[0]) then [s[0]] else [];
      FilterAppend(p, head, Filter(q, s[1..]));
      assert Filter(p, head) == (if q(s[0]) && p(s[0]) then [s[0]] else []) + Filter(p, []);
    }
  }

  /** Counting over a mapped list is counting by the composed predicate. */
  lemma {:induction false} CountOfMap<T(!new), U(!new)>(p: U -> bool, f: T -> U, pf: T -> bool, s: seq<T>)
    requires forall x :: pf(x) <==> p(f(x))
    ensures Count(p, Map(f, s)) == |Filter(pf, s)|
  {
    if s != [] {
      CountOfMap(p, f, pf, s[1..]);
      assert Map(f, s) == [f(s[0])] + Map(f, s[1..]);
      assert Filter(p, Map(f, s)) == (if p(f(s[0])) then [f(s[0])] else []) + Filter(p, Map(f, s[1..]));
    }
  }

  /** Nothing passes a predicate no element satisfies. */
  lemma {:induction false} FilterNone<T(!new)>(p: T -> bool, s: seq<T>)
    requires forall x :: x in s ==> !p(x)
    ensures Filter(p, s) == []
  {
    if s != [] {
      assert s[0] in s;
      FilterNone(p, s[1..]);
    }
  }

  /** Filtering after a map is mapping after the filter, when the map never changes the predicate. */
  lemma {:induction false} FilterMapCommute<T(!new)>(p: T -> bool, f: T -> T, s: seq<T>)
    requires forall x :: p(f(x)) == p(x)
    ensures Filter(p, Map(f, s)) == Map(f, Filter(p, s))
  {
    if s != [] {
      var x := s[0];
      var rest := s[1..];
      FilterMapCommute(p, f, rest);
      var m := Map(f, s);
      assert m[0] == f(x) && m[1..] == Map(f, rest);
      assert Filter(p, m) == (if p(x) then [f(x)] else []) + Filter(p, Map(f, rest));
      var head := if p(x) then [x] else [];
      assert Filter(p, s) == head + Filter(p, rest);
      MapAppend(f, head, Filter(p, rest));
      assert Map(f, head) == (if p(x) then [f(x)] else []);
    }
  }

  /** A position where `x` occurs in `s`. */
  function IndexOf<T(==)>(s: seq<T>, x: T): (k: nat)
    requires x in s
    ensures k < |s| && s[k] == x
  {
    if s[0] == x then 0 else 1 + IndexOf(s[1..], x)
  }

  /** Mapping one more element of a prefix extends the mapped prefix by its image. */
  lemma MapPrefixStep<T, U>(f: T -> U, s: seq<T>, i: nat)
    requires i < |s|
    ensures Map(f, s[..i + 1]) == Map(f, s[..i]) + [f(s[i])]
  {
  }

  /** The image of a suffix that starts with a known element. */
  lemma MapSuffixCons<T, U>(f: T -> U, s: seq<T>, n: nat, rest: seq<U>)
    requires n < |s| && Map(f, s[n + 1..]) == rest
    ensures Map(f, s[n..]) == [f(s[n])] + rest
  {
    assert s[n..][1..] == s[n + 1..];
  }

  lemma AppendAssoc<T>(a: seq<T>, b: seq<T>, c: seq<T>)
    ensures a + b + c == a + (b + c)
  {
  }

  lemma MapAppend<T, U>(f: T -> U, a: seq<T>, b: seq<T>)
    ensures Map(f, a + b) == Map(f, a) + Map(f, b)
  {
  }
}
