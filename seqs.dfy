/** `Array.prototype.filter` and `map` over sequences, and the subsequence order they keep. */
module Seqs {

  /** `s.filter(p)`: the elements of `s` satisfying `p`, in their order. */
  function Filter<T>(p: T -> bool, s: seq<T>): (r: seq<T>)
    ensures |r| <= |s|
    ensures forall i :: 0 <= i < |r| ==> r[i] in s && p(r[i])
    ensures forall i :: 0 <= i < |s| && p(s[i]) ==> s[i] in r
  {
    if s == [] then [] else (if p(s[0]) then [s[0]] else []) + Filter(p, s[1..])
  }

  /** `s.map(f)`. */
  function Map<T, U>(f: T -> U, s: seq<T>): (r: seq<U>)
    ensures |r| == |s|
    ensures forall i :: 0 <= i < |s| ==> r[i] == f(s[i])
  {
    if s == [] then [] else [f(s[0])] + Map(f, s[1..])
  }

  /** `a` is obtained from `b` by deleting elements, keeping the order of the rest. */
  ghost predicate IsSubsequence<T>(a: seq<T>, b: seq<T>)
    decreases |b|
  {
    if a == [] then true
    else if b == [] then false
    else (a[0] == b[0] && IsSubsequence(a[1..], b[1..])) || IsSubsequence(a, b[1..])
  }

  /** A value is kept by the filter exactly when it is in the list and passes the test. */
  lemma FilterMembership<T>(p: T -> bool, s: seq<T>, x: T)
    ensures x in Filter(p, s) <==> x in s && p(x)
  {
    var r := Filter(p, s);
    if x in r {
      var k :| 0 <= k < |r| && r[k] == x;
    }
    if x in s {
      var k :| 0 <= k < |s| && s[k] == x;
    }
  }

  lemma {:induction false} FilterIsSubsequence<T>(p: T -> bool, s: seq<T>)
    ensures IsSubsequence(Filter(p, s), s)
    decreases |s|
  {
    if s != [] {
      FilterIsSubsequence(p, s[1..]);
      var rest := Filter(p, s[1..]);
      if p(s[0]) {
        assert Filter(p, s) == [s[0]] + rest;
        assert ([s[0]] + rest)[1..] == rest;
      } else {
        assert Filter(p, s) == rest;
        if rest != [] {
          assert IsSubsequence(rest, s[1..]);
        }
      }
    }
  }

  lemma {:induction false} FilterAll<T>(p: T -> bool, s: seq<T>)
    requires forall i :: 0 <= i < |s| ==> p(s[i])
    ensures Filter(p, s) == s
    decreases |s|
  {
    if s != [] {
      assert p(s[0]);
      FilterAll(p, s[1..]);
    }
  }

  /** The filter keeps every occurrence of a value that passes the test and none of one that fails it. */
  lemma {:induction false} FilterCount<T>(p: T -> bool, s: seq<T>, x: T)
    ensures multiset(Filter(p, s))[x] == if p(x) then multiset(s)[x] else 0
    decreases |s|
  {
    if s != [] {
      FilterCount(p, s[1..], x);
      assert s == [s[0]] + s[1..];
    }
  }

  /** When `x` is the only element of `s` that `f` sends to `f(x)`, the map lists `f(x)` as often as `s` lists `x`. */
  lemma {:induction false} MapCount<T, U>(f: T -> U, s: seq<T>, x: T)
    requires forall i :: 0 <= i < |s| && f(s[i]) == f(x) ==> s[i] == x
    ensures multiset(Map(f, s))[f(x)] == multiset(s)[x]
    decreases |s|
  {
    if s != [] {
      forall i | 0 <= i < |s[1..]| && f(s[1..][i]) == f(x) ensures s[1..][i] == x {
        assert s[1..][i] == s[i + 1];
      }
      MapCount(f, s[1..], x);
      assert s == [s[0]] + s[1..];
      assert Map(f, s) == [f(s[0])] + Map(f, s[1..]);
      assert multiset(s) == multiset([s[0]]) + multiset(s[1..]);
      assert multiset(Map(f, s)) == multiset([f(s[0])]) + multiset(Map(f, s[1..]));
    }
  }

  /** A subsequence holds no element more often than the sequence it is taken from. */
  lemma {:induction false} SubsequenceMultiset<T>(a: seq<T>, s: seq<T>)
    requires IsSubsequence(a, s)
    ensures multiset(a) <= multiset(s)
    decreases |s|
  {
    if a != [] {
      assert s == [s[0]] + s[1..];
      if a[0] == s[0] && IsSubsequence(a[1..], s[1..]) {
        SubsequenceMultiset(a[1..], s[1..]);
        assert a == [a[0]] + a[1..];
      } else {
        SubsequenceMultiset(a, s[1..]);
      }
    }
  }

  /**
   * The filter is the only subsequence of `s` that keeps every occurrence of
   * the values passing `p` and none of the others.
   */
  lemma {:induction false} FilterUnique<T>(p: T -> bool, a: seq<T>, s: seq<T>)
    requires IsSubsequence(a, s)
    requires forall x :: multiset(a)[x] == if p(x) then multiset(s)[x] else 0
    ensures a == Filter(p, s)
    decreases |s|
  {
    if s != [] {
      var rest := s[1..];
      assert s == [s[0]] + rest;
      if p(s[0]) {
        assert multiset(a)[s[0]] == multiset(rest)[s[0]] + 1;
        if !(a != [] && a[0] == s[0] && IsSubsequence(a[1..], rest)) {
          SubsequenceMultiset(a, rest);
          assert false;
        }
        assert a == [a[0]] + a[1..];
        forall x ensures multiset(a[1..])[x] == if p(x) then multiset(rest)[x] else 0 {
          assert multiset(a)[x] == multiset(a[1..])[x] + (if x == s[0] then 1 else 0);
        }
        FilterUnique(p, a[1..], rest);
      } else {
        if a != [] && a[0] == s[0] {
          assert false;
        }
        forall x ensures multiset(a)[x] == if p(x) then multiset(rest)[x] else 0 {
          if p(x) {
            assert x != s[0];
          }
        }
        FilterUnique(p, a, rest);
      }
    }
  }

  /** Filtering with two predicates that agree on the elements present gives the same result. */
  lemma {:induction false} FilterCongruent<T>(p: T -> bool, q: T -> bool, s: seq<T>)
    requires forall i :: 0 <= i < |s| ==> p(s[i]) == q(s[i])
    ensures Filter(p, s) == Filter(q, s)
    decreases |s|
  {
    if s != [] {
      assert p(s[0]) == q(s[0]);
      forall i | 0 <= i < |s[1..]| ensures p(s[1..][i]) == q(s[1..][i]) {
        assert s[1..][i] == s[i + 1];
      }
      FilterCongruent(p, q, s[1..]);
    }
  }

  lemma {:induction false} FilterLengthSplit<T>(p: T -> bool, q: T -> bool, s: seq<T>)
    requires forall i :: 0 <= i < |s| ==> !(p(s[i]) && q(s[i]))
    ensures |Filter(p, s)| + |Filter(q, s)| <= |s|
    ensures |Filter(p, s)| + |Filter(q, s)| == |s| <==> forall i :: 0 <= i < |s| ==> p(s[i]) || q(s[i])
    decreases |s|
  {
    if s != [] {
      FilterLengthSplit(p, q, s[1..]);
      if forall i :: 0 <= i < |s| ==> p(s[i]) || q(s[i]) {
        forall i | 0 <= i < |s[1..]| ensures p(s[1..][i]) || q(s[1..][i]) {
          assert s[1..][i] == s[i + 1];
        }
      }
      if forall i :: 0 <= i < |s[1..]| ==> p(s[1..][i]) || q(s[1..][i]) {
        if p(s[0]) || q(s[0]) {
          forall i | 0 <= i < |s| ensures p(s[i]) || q(s[i]) {
            if i > 0 { assert s[i] == s[1..][i - 1]; }
          }
        }
      }
    }
  }
}
