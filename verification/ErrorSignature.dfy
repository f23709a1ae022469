/** The bounded first informative line that identifies a failure. */
module ErrorSignature {
  import opened Common
  import opened Text

  const ERROR_SIGNATURE_MAX_CHARS: nat := 120

  /** Unicode's letter-or-digit property, left to the caller: no result here depends on the table. */
  type Alphanumeric = char -> bool

  predicate Informative(alnum: Alphanumeric, line: string) {
    exists i :: 0 <= i < |line| && alnum(line[i])
  }

  function FirstInformative(alnum: Alphanumeric, lines: seq<string>): Option<string> {
    if lines == [] then None
    else if Informative(alnum, Trim(lines[0])) then Some(Trim(lines[0]))
    else FirstInformative(alnum, lines[1..])
  }

  function Signature(alnum: Alphanumeric, content: string): string {
    var line := match FirstInformative(alnum, SplitLines(content))
                case Some(found) => found
                case None => Trim(content);
    line[..Min(|line|, ERROR_SIGNATURE_MAX_CHARS)]
  }

  lemma {:induction false} FirstInformativeAppend(alnum: Alphanumeric, a: seq<string>, b: seq<string>)
    ensures FirstInformative(alnum, a + b)
         == if FirstInformative(alnum, a).Some? then FirstInformative(alnum, a)
            else FirstInformative(alnum, b)
  {
    if a == [] {
      assert a + b == b;
    } else {
      assert (a + b)[1..] == a[1..] + b;
      FirstInformativeAppend(alnum, a[1..], b);
    }
  }

  lemma {:induction false} FirstInformativeIsFirst(alnum: Alphanumeric, lines: seq<string>)
    ensures match FirstInformative(alnum, lines)
            case Some(line) =>
              exists i :: 0 <= i < |lines| && line == Trim(lines[i]) && Informative(alnum, line)
                          && forall j :: 0 <= j < i ==> !Informative(alnum, Trim(lines[j]))
            case None => forall i :: 0 <= i < |lines| ==> !Informative(alnum, Trim(lines[i]))
  {
    if lines != [] {
      var rest := lines[1..];
      FirstInformativeIsFirst(alnum, rest);
      if Informative(alnum, Trim(lines[0])) {
        assert Trim(lines[0]) == FirstInformative(alnum, lines).value;
      } else if FirstInformative(alnum, rest).Some? {
        var line := FirstInformative(alnum, rest).value;
        var i :| 0 <= i < |rest| && line == Trim(rest[i]) && forall j :: 0 <= j < i ==> !Informative(alnum, Trim(rest[j]));
        assert line == Trim(lines[i + 1]);
        assert forall j :: 0 < j < i + 1 ==> lines[j] == rest[j - 1];
      }
    }
  }

  /** A signature is bounded, and starts the first informative line, or the whole when there is none. */
  lemma SignatureIsBounded(alnum: Alphanumeric, content: string)
    ensures |Signature(alnum, content)| <= ERROR_SIGNATURE_MAX_CHARS
    ensures exists line :: Signature(alnum, content) <= line
              && |Signature(alnum, content)| == Min(|line|, ERROR_SIGNATURE_MAX_CHARS)
              && if exists l :: l in SplitLines(content) && Informative(alnum, Trim(l))
                 then Informative(alnum, line) && exists l :: l in SplitLines(content) && line == Trim(l)
                 else line == Trim(content)
  {
    FirstInformativeIsFirst(alnum, SplitLines(content));
    var found := FirstInformative(alnum, SplitLines(content));
    var line := if found.Some? then found.value else Trim(content);
    assert Signature(alnum, content) <= line;
  }

  /** Detail after the informative line never changes the signature; an opener before it never is one. */
  lemma SignatureNamesTheFailure(alnum: Alphanumeric, opener: string, content: string, detail: string)
    requires FirstInformative(alnum, SplitLines(opener)).None?
    requires FirstInformative(alnum, SplitLines(content)).Some?
    ensures Signature(alnum, opener + "\n" + (content + "\n" + detail)) == Signature(alnum, content)
  {
    SplitLinesAppend(content, detail);
    SplitLinesAppend(opener, content + "\n" + detail);
    FirstInformativeAppend(alnum, SplitLines(content), SplitLines(detail));
    FirstInformativeAppend(alnum, SplitLines(opener), SplitLines(content + "\n" + detail));
  }
}
