/** Longest suffixes of mutually related items, and how one more item changes them. */
module Streaks {

  /** Symmetric and transitive; items unrelated to themselves never take part in a run. */
  ghost predicate PartialEquivalence<T(!new)>(r: (T, T) -> bool) {
    && (forall a, b :: r(a, b) ==> r(b, a))
    && (forall a, b, c :: r(a, b) && r(b, c) ==> r(a, c))
  }

  ghost predicate Run<T>(r: (T, T) -> bool, s: seq<T>) {
    forall i, j {:trigger r(s[i], s[j])} :: 0 <= i < |s| && 0 <= j < |s| ==> r(s[i], s[j])
  }

  function Suffix<T>(s: seq<T>, n: nat): seq<T>
    requires n <= |s|
  {
    s[|s| - n..]
  }

  /** `n` is the length of the longest suffix of `s` whose items are all related. */
  ghost predicate LongestRun<T>(r: (T, T) -> bool, s: seq<T>, n: nat) {
    && n <= |s|
    && Run(r, Suffix(s, n))
    && forall m: nat :: n < m <= |s| ==> !Run(r, Suffix(s, m))
  }

  /** The suffixes that are runs are equally long in both sequences. */
  ghost predicate SameRuns<A, B>(r: (A, A) -> bool, s: seq<A>, q: (B, B) -> bool, t: seq<B>) {
    && |s| == |t|
    && forall m: nat :: m <= |s| ==> (Run(r, Suffix(s, m)) <==> Run(q, Suffix(t, m)))
  }

  lemma {:induction false} SameRunsSameLongest<A, B>(r: (A, A) -> bool, s: seq<A>, n: nat,
                                                     q: (B, B) -> bool, t: seq<B>, m: nat)
    requires SameRuns(r, s, q, t) && LongestRun(r, s, n) && LongestRun(q, t, m)
    ensures n == m
  {
    assert Run(q, Suffix(t, n)) && Run(r, Suffix(s, m));
  }

  /** Items related alike, pair by pair, form runs alike. */
  lemma {:induction false} RunsMatch<A, B>(r: (A, A) -> bool, s: seq<A>, q: (B, B) -> bool, t: seq<B>)
    requires |s| == |t|
    requires forall i, j {:trigger r(s[i], s[j])} {:trigger q(t[i], t[j])} ::
               0 <= i < |s| && 0 <= j < |s| ==> (r(s[i], s[j]) <==> q(t[i], t[j]))
    ensures Run(r, s) <==> Run(q, t)
  {
  }

  /** The length a streak takes when `x` arrives. */
  ghost function NextStreak<T>(r: (T, T) -> bool, s: seq<T>, n: nat, x: T): nat {
    if !r(x, x) then 0
    else if s != [] && r(s[|s| - 1], x) then n + 1
    else 1
  }

  lemma LongestRunExtends<T(!new)>(r: (T, T) -> bool, s: seq<T>, n: nat, x: T)
    requires PartialEquivalence(r) && LongestRun(r, s, n)
    ensures LongestRun(r, s + [x], NextStreak(r, s, n, x))
  {
    var t := s + [x];
    var k := NextStreak(r, s, n, x);
    if s != [] && r(x, x) && r(s[|s| - 1], x) {
      var last := s[|s| - 1];
      assert r(x, last) && r(last, last);
      assert Run(r, Suffix(s, 1));
      assert n > 0;
      assert Suffix(s, n)[n - 1] == last;
      forall i | 0 <= i < n ensures r(Suffix(s, n)[i], x) && r(x, Suffix(s, n)[i]) {
        assert r(Suffix(s, n)[i], last);
      }
      assert Suffix(t, k) == Suffix(s, n) + [x];
    }
    assert Run(r, Suffix(t, k));
    forall m: nat | k < m <= |t| ensures !Run(r, Suffix(t, m)) {
      var w := Suffix(t, m);
      assert w[m - 1] == x;
      if r(x, x) {
        assert w[m - 2] == s[|s| - 1];
        if r(s[|s| - 1], x) {
          assert w == Suffix(s, m - 1) + [x];
          assert !Run(r, Suffix(s, m - 1));
          if Run(r, w) {
            RunPrefix(r, Suffix(s, m - 1), x);
          }
        } else {
          assert !r(w[m - 2], w[m - 1]);
        }
      } else {
        assert !r(w[m - 1], w[m - 1]);
      }
    }
  }

  lemma RunPrefix<T>(r: (T, T) -> bool, w: seq<T>, x: T)
    requires Run(r, w + [x])
    ensures Run(r, w)
  {
    assert forall i :: 0 <= i < |w| ==> w[i] == (w + [x])[i];
  }

  lemma {:induction false} EqualPatternsEqualCounts<K, I>(k: seq<K>, i: seq<I>, x: K, y: I)
    requires |k| == |i|
    requires forall b :: 0 <= b < |k| ==> (k[b] == x <==> i[b] == y)
    ensures multiset(k)[x] == multiset(i)[y]
  {
    if k != [] {
      assert k == [k[0]] + k[1..] && i == [i[0]] + i[1..];
      EqualPatternsEqualCounts(k[1..], i[1..], x, y);
    }
  }

  /** Names that are equal exactly when the things they name are equal: permutations correspond. */
  lemma PermutationThroughNames<K, I>(k1: seq<K>, i1: seq<I>, k2: seq<K>, i2: seq<I>)
    requires |k1| == |i1| && |k2| == |i2|
    requires forall a, b :: 0 <= a < |k1| && 0 <= b < |k1| ==> (k1[a] == k1[b] <==> i1[a] == i1[b])
    requires forall a, b :: 0 <= a < |k1| && 0 <= b < |k2| ==> (k1[a] == k2[b] <==> i1[a] == i2[b])
    requires forall a, b :: 0 <= a < |k2| && 0 <= b < |k2| ==> (k2[a] == k2[b] <==> i2[a] == i2[b])
    requires multiset(k1) == multiset(k2)
    ensures multiset(i1) == multiset(i2)
  {
    forall b | 0 <= b < |i2| ensures i2[b] in i1 {
      assert k2[b] in multiset(k2) && k2[b] in k1;
      var a :| 0 <= a < |k1| && k1[a] == k2[b];
      assert i1[a] == i2[b];
    }
    forall y ensures multiset(i1)[y] == multiset(i2)[y] {
      if y in i1 {
        var a :| 0 <= a < |i1| && i1[a] == y;
        EqualPatternsEqualCounts(k1, i1, k1[a], y);
        EqualPatternsEqualCounts(k2, i2, k1[a], y);
      } else {
        assert y !in i2;
      }
    }
  }
}
