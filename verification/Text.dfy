/** String helpers shared by the loop contract and the settlement record. */
module Text {

  /** The Unicode White_Space property, which `str::trim` strips. */
  predicate IsWhitespace(c: char) {
    var n := c as int;
    9 <= n <= 13 || n == 0x20 || n == 0x85 || n == 0xA0 || n == 0x1680 || 0x2000 <= n <= 0x200A
    || n == 0x2028 || n == 0x2029 || n == 0x202F || n == 0x205F || n == 0x3000
  }

  function TrimStart(s: string): string {
    if s != "" && IsWhitespace(s[0]) then TrimStart(s[1..]) else s
  }

  function TrimEnd(s: string): string {
    if s != "" && IsWhitespace(s[|s| - 1]) then TrimEnd(s[..|s| - 1]) else s
  }

  function Trim(s: string): string {
    TrimEnd(TrimStart(s))
  }

  predicate Blank(s: string) {
    forall i :: 0 <= i < |s| ==> IsWhitespace(s[i])
  }

  /** Trimming drops the whitespace around a text and nothing else. */
  lemma {:induction false} TrimDropsBlanks(left: string, s: string, right: string)
    requires Blank(left) && Blank(right) && (s != "" ==> !IsWhitespace(s[0]) && !IsWhitespace(s[|s| - 1]))
    ensures Trim(left + (s + right)) == s
    decreases |left|, |right|
  {
    if left != "" {
      assert (left + (s + right))[1..] == left[1..] + (s + right);
      TrimDropsBlanks(left[1..], s, right);
    } else {
      assert left + (s + right) == s + right;
      if s == "" {
        assert s + right == right;
        if right != "" {
          assert right[1..] == [] + ([] + right[1..]);
          TrimDropsBlanks([], [], right[1..]);
        }
      } else {
        TrimEndDropsBlank(s, right);
        assert TrimEnd(s) == s;
      }
    }
  }

  lemma {:induction false} TrimEndDropsBlank(s: string, right: string)
    requires Blank(right)
    ensures TrimEnd(s + right) == TrimEnd(s)
    decreases |right|
  {
    if right == "" {
      assert s + right == s;
    } else {
      assert (s + right)[..|s + right| - 1] == s + right[..|right| - 1];
      TrimEndDropsBlank(s, right[..|right| - 1]);
    }
  }

  /** Bytes of a string in UTF-8. */
  function Utf8Length(s: string): nat {
    if s == "" then 0
    else
      var n := s[0] as int;
      (if n < 0x80 then 1 else if n < 0x800 then 2 else if n < 0x10000 then 3 else 4)
      + Utf8Length(s[1..])
  }

  function SplitLines(s: string): (lines: seq<string>)
    ensures lines != []
  {
    if s == "" then [""]
    else if s[0] == '\n' then [""] + SplitLines(s[1..])
    else
      var rest := SplitLines(s[1..]);
      [[s[0]] + rest[0]] + rest[1..]
  }

  lemma {:induction false} SplitLinesAppend(a: string, b: string)
    ensures SplitLines(a + "\n" + b) == SplitLines(a) + SplitLines(b)
  {
    var s := a + "\n" + b;
    if a == "" {
      assert s == "\n" + b && s[1..] == b;
    } else {
      assert s[1..] == a[1..] + "\n" + b;
      SplitLinesAppend(a[1..], b);
    }
  }
}
