/** Types shared by every module: optional values, results, bytes. */
module Common {

  datatype Option<+T> = None | Some(value: T)

  datatype Result<+T, +E> = Ok(value: T) | Err(error: E)

  /** One octet of a file, a path or a hash preimage. */
  type byte = b: int | 0 <= b < 256

  function Min(a: int, b: int): int {
    if a <= b then a else b
  }

  /** The concatenation of a list of sequences. */
  function Concat<T>(parts: seq<seq<T>>): seq<T> {
    if parts == [] then [] else parts[0] + Concat(parts[1..])
  }

  lemma ConcatAppend<T>(parts: seq<seq<T>>, more: seq<seq<T>>)
    ensures Concat(parts + more) == Concat(parts) + Concat(more)
  {
    if parts == [] {
      assert parts + more == more;
    } else {
      assert (parts + more)[1..] == parts[1..] + more;
    }
  }

  /** Equal concatenations whose first parts have equal lengths split at the same place. */
  lemma SplitEqual<T>(a: seq<T>, x: seq<T>, b: seq<T>, y: seq<T>)
    requires a + x == b + y && |a| == |b|
    ensures a == b && x == y
  {
    assert a == (a + x)[..|a|] == (b + y)[..|b|] == b;
    assert x == (a + x)[|a|..] == (b + y)[|b|..] == y;
  }

  lemma Associate<T>(a: seq<T>, b: seq<T>, c: seq<T>)
    ensures a + b + c == a + (b + c)
  {
  }

  lemma Reassociate<T>(a: seq<T>, b: seq<T>, c: seq<T>, x: seq<T>)
    ensures a + b + c + x == a + (b + (c + x))
  {
  }

  /** An item, a separator and what follows, up to a closing mark and the rest. */
  lemma Separated<T>(item: seq<T>, separator: seq<T>, more: seq<T>, close: seq<T>, rest: seq<T>)
    ensures item + separator + more + close + rest == item + (separator + (more + close + rest))
  {
    Associate(item, separator, more);
    Associate(item + separator, more, close);
    Associate(item + separator, more + close, rest);
    Associate(item, separator, more + close + rest);
  }

  /** With no separator in the last parts, the last separator of the whole is the one before them. */
  lemma LastSeparatorSplits<T>(separator: T, a: seq<T>, x: seq<T>, b: seq<T>, y: seq<T>)
    requires separator !in x && separator !in y
    requires a + [separator] + x == b + [separator] + y
    ensures a == b && x == y
  {
    var k := a + [separator] + x;
    assert k[|a|] == separator && k[|b|] == separator;
    assert forall i :: |a| < i < |k| ==> k[i] == x[i - |a| - 1];
    assert forall i :: |b| < i < |k| ==> k[i] == y[i - |b| - 1];
    assert |a| == |b|;
    assert a + ([separator] + x) == k == b + ([separator] + y);
    SplitEqual(a, [separator] + x, b, [separator] + y);
    SplitEqual([separator], x, [separator], y);
  }
}
