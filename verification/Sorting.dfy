/** Insertion sort over a caller-supplied total order, and why its result is canonical. */
module Sorting {

  ghost predicate TotalOrder<T(!new)>(le: (T, T) -> bool) {
    && (forall a, b :: le(a, b) || le(b, a))
    && (forall a, b :: le(a, b) && le(b, a) ==> a == b)
    && (forall a, b, c :: le(a, b) && le(b, c) ==> le(a, c))
  }

  ghost predicate Sorted<T>(le: (T, T) -> bool, s: seq<T>) {
    forall i, j :: 0 <= i < j < |s| ==> le(s[i], s[j])
  }

  ghost predicate Distinct<T>(s: seq<T>) {
    forall i, j :: 0 <= i < j < |s| ==> s[i] != s[j]
  }

  function Insert<T>(le: (T, T) -> bool, x: T, s: seq<T>): seq<T> {
    if s == [] then [x]
    else if le(x, s[0]) then [x] + s
    else [s[0]] + Insert(le, x, s[1..])
  }

  function Sort<T>(le: (T, T) -> bool, s: seq<T>): seq<T> {
    if s == [] then [] else Insert(le, s[0], Sort(le, s[1..]))
  }

  lemma {:induction false} InsertKeepsContents<T>(le: (T, T) -> bool, x: T, s: seq<T>)
    ensures multiset(Insert(le, x, s)) == multiset(s) + multiset{x}
  {
    if s != [] {
      assert s == [s[0]] + s[1..];
      InsertKeepsContents(le, x, s[1..]);
    }
  }

  lemma InsertedIsOneOf<T>(le: (T, T) -> bool, x: T, s: seq<T>, k: nat)
    requires k < |Insert(le, x, s)|
    ensures Insert(le, x, s)[k] == x || Insert(le, x, s)[k] in s
  {
    InsertKeepsContents(le, x, s);
    assert Insert(le, x, s)[k] in multiset(s) + multiset{x};
  }

  lemma SortedPrepend<T>(le: (T, T) -> bool, x: T, s: seq<T>)
    requires Sorted(le, s) && forall k :: 0 <= k < |s| ==> le(x, s[k])
    ensures Sorted(le, [x] + s)
  {
  }

  lemma {:induction false} InsertSorts<T(!new)>(le: (T, T) -> bool, x: T, s: seq<T>)
    requires TotalOrder(le) && Sorted(le, s)
    ensures Sorted(le, Insert(le, x, s))
    ensures multiset(Insert(le, x, s)) == multiset(s) + multiset{x}
  {
    InsertKeepsContents(le, x, s);
    if s != [] {
      if le(x, s[0]) {
        assert forall k :: 0 <= k < |s| ==> k == 0 || le(s[0], s[k]);
        SortedPrepend(le, x, s);
      } else {
        InsertSorts(le, x, s[1..]);
        var r := Insert(le, x, s[1..]);
        forall k | 0 <= k < |r| ensures le(s[0], r[k]) {
          InsertedIsOneOf(le, x, s[1..], k);
        }
        SortedPrepend(le, s[0], r);
      }
    }
  }

  lemma {:induction false} SortSorts<T(!new)>(le: (T, T) -> bool, s: seq<T>)
    requires TotalOrder(le)
    ensures Sorted(le, Sort(le, s)) && multiset(Sort(le, s)) == multiset(s)
    ensures |Sort(le, s)| == |s|
  {
    if s != [] {
      SortSorts(le, s[1..]);
      InsertSorts(le, s[0], Sort(le, s[1..]));
      assert s == [s[0]] + s[1..];
    }
    assert |multiset(Sort(le, s))| == |Sort(le, s)|;
    assert |multiset(s)| == |s|;
  }

  lemma {:induction false} SortedIsUnique<T(!new)>(le: (T, T) -> bool, a: seq<T>, b: seq<T>)
    requires TotalOrder(le) && Sorted(le, a) && Sorted(le, b)
    requires multiset(a) == multiset(b)
    ensures a == b
  {
    assert |multiset(a)| == |a| && |multiset(b)| == |b|;
    if a != [] {
      assert a[0] in multiset(b) && b[0] in multiset(a);
      assert a[0] in b && b[0] in a;
      assert le(a[0], a[0]) && le(b[0], b[0]);
      assert le(a[0], b[0]) && le(b[0], a[0]);
      assert a == [a[0]] + a[1..] && b == [b[0]] + b[1..];
      assert multiset(a[1..]) == multiset(a) - multiset{a[0]};
      assert multiset(b[1..]) == multiset(b) - multiset{b[0]};
      SortedIsUnique(le, a[1..], b[1..]);
    }
  }

  /** Two lists sort to the same list exactly when they hold the same elements equally often. */
  lemma SortEqualIffPermutation<T(!new)>(le: (T, T) -> bool, a: seq<T>, b: seq<T>)
    requires TotalOrder(le)
    ensures Sort(le, a) == Sort(le, b) <==> multiset(a) == multiset(b)
  {
    SortSorts(le, a);
    SortSorts(le, b);
    if multiset(a) == multiset(b) {
      SortedIsUnique(le, Sort(le, a), Sort(le, b));
    }
  }

  lemma MembershipOfSort<T(!new)>(le: (T, T) -> bool, s: seq<T>, x: T)
    requires TotalOrder(le)
    ensures x in Sort(le, s) <==> x in s
  {
    SortSorts(le, s);
    assert x in Sort(le, s) <==> x in multiset(Sort(le, s));
    assert x in s <==> x in multiset(s);
  }

  lemma {:induction false} DistinctMultiplicity<T>(s: seq<T>)
    requires Distinct(s)
    ensures forall x :: multiset(s)[x] == if x in s then 1 else 0
  {
    if s != [] {
      assert s == [s[0]] + s[1..];
      DistinctMultiplicity(s[1..]);
      assert s[0] !in s[1..];
    }
  }

  /** Without repetition, a multiset is no more than a set. */
  lemma DistinctPermutation<T>(a: seq<T>, b: seq<T>)
    requires Distinct(a) && Distinct(b)
    requires forall x :: x in a <==> x in b
    ensures multiset(a) == multiset(b)
  {
    DistinctMultiplicity(a);
    DistinctMultiplicity(b);
  }

  lemma RepeatCountsTwice<T>(s: seq<T>, i: nat, j: nat)
    requires i < j < |s| && s[i] == s[j]
    ensures multiset(s)[s[i]] >= 2
  {
    assert s == s[..j] + [s[j]] + s[j + 1..];
    assert s[..j][i] == s[i];
    assert s[i] in s[..j];
  }

  lemma DistinctSort<T(!new)>(le: (T, T) -> bool, s: seq<T>)
    requires TotalOrder(le) && Distinct(s)
    ensures Distinct(Sort(le, s))
  {
    SortSorts(le, s);
    DistinctMultiplicity(s);
    var r := Sort(le, s);
    forall i, j | 0 <= i < j < |r| && r[i] == r[j] ensures multiset(r)[r[i]] >= 2 {
      RepeatCountsTwice(r, i, j);
    }
  }

  /** Lexicographic order through an injective rank of the elements. */
  predicate LexLe<T(==)>(rank: T -> int, a: seq<T>, b: seq<T>) {
    a == [] ||
    (b != [] &&
     (rank(a[0]) < rank(b[0]) || (a[0] == b[0] && LexLe(rank, a[1..], b[1..]))))
  }

  lemma {:induction false} LexTotal<T>(rank: T -> int, a: seq<T>, b: seq<T>)
    requires forall x, y :: rank(x) == rank(y) ==> x == y
    ensures LexLe(rank, a, b) || LexLe(rank, b, a)
  {
    if a != [] && b != [] {
      LexTotal(rank, a[1..], b[1..]);
    }
  }

  lemma {:induction false} LexAntisymmetric<T>(rank: T -> int, a: seq<T>, b: seq<T>)
    requires LexLe(rank, a, b) && LexLe(rank, b, a)
    ensures a == b
  {
    if a != [] && b != [] {
      LexAntisymmetric(rank, a[1..], b[1..]);
      assert a == [a[0]] + a[1..] && b == [b[0]] + b[1..];
    }
  }

  lemma {:induction false} LexTransitive<T>(rank: T -> int, a: seq<T>, b: seq<T>, c: seq<T>)
    requires LexLe(rank, a, b) && LexLe(rank, b, c)
    ensures LexLe(rank, a, c)
  {
    if a != [] && a[0] == b[0] && b[0] == c[0] {
      LexTransitive(rank, a[1..], b[1..], c[1..]);
    }
  }

  lemma LexIsTotalOrder<T(!new)>(rank: T -> int, le: (seq<T>, seq<T>) -> bool)
    requires forall x, y :: rank(x) == rank(y) ==> x == y
    requires forall a, b :: le(a, b) == LexLe(rank, a, b)
    ensures TotalOrder(le)
  {
    forall a, b ensures le(a, b) || le(b, a) {
      LexTotal(rank, a, b);
    }
    forall a, b | le(a, b) && le(b, a) ensures a == b {
      LexAntisymmetric(rank, a, b);
    }
    forall a, b, c | le(a, b) && le(b, c) ensures le(a, c) {
      LexTransitive(rank, a, b, c);
    }
  }
}
