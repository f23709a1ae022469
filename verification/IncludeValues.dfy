/** The include values a file names: always values a rendered file can name, so every file has a normal form. */
module IncludeValues {
  import opened Common
  import opened ConfigParser
  import opened IncludeRoundTrip

  function ValuesFrom(section: Bytes, lines: seq<Bytes>): seq<Bytes>
    decreases |lines|
  {
    if lines == [] then []
    else
      var (inside, rest) := AfterHeader(section, lines[0]);
      Flush(IncludeValue(inside, rest)) + ValuesFrom(inside, lines[1..])
  }

  /** The include values of a file, before they are resolved against a directory. */
  function ValuesIn(s: Bytes): seq<Bytes> {
    ValuesFrom([], JoinLines(s))
  }

  lemma {:induction false} ResolveValues(section: Bytes, lines: seq<Bytes>, base: Path, home: Option<Path>)
    ensures IncludesFrom(section, lines, base, home) == Resolve(ValuesFrom(section, lines), base, home)
    decreases |lines|
  {
    if lines != [] {
      var (inside, rest) := AfterHeader(section, lines[0]);
      ResolveValues(inside, lines[1..], base, home);
      var named := Flush(IncludeValue(inside, rest));
      if named != [] {
        assert (named + ValuesFrom(inside, lines[1..]))[1..] == ValuesFrom(inside, lines[1..]);
      } else {
        assert named + ValuesFrom(inside, lines[1..]) == ValuesFrom(inside, lines[1..]);
      }
    }
  }

  // ------------------------------------------------------ values are renderable

  predicate OneLine(s: Bytes) {
    NEWLINE !in s
  }

  lemma {:induction false} TrimStartOneLine(s: Bytes)
    ensures OneLine(s) ==> OneLine(TrimStart(s))
    ensures TrimStart(s) != [] ==> !IsWhitespace(TrimStart(s)[0])
  {
    if s != [] && IsWhitespace(s[0]) {
      TrimStartOneLine(s[1..]);
    }
  }

  lemma {:induction false} TrimEndOneLine(s: Bytes)
    ensures OneLine(s) ==> OneLine(TrimEnd(s))
    ensures TrimEnd(s) <= s
    ensures TrimEnd(s) != [] ==> !IsWhitespace(TrimEnd(s)[|TrimEnd(s)| - 1])
  {
    if s != [] && IsWhitespace(s[|s| - 1]) {
      TrimEndOneLine(s[..|s| - 1]);
    }
  }

  lemma TrimOneLine(s: Bytes)
    ensures OneLine(s) ==> OneLine(Trim(s))
    ensures OneLine(s) && Trim(s) != [] ==> Renderable(Trim(s))
  {
    TrimStartOneLine(s);
    TrimEndOneLine(TrimStart(s));
  }

  lemma {:induction false} ValueFromOneLine(raw: Bytes, value: Bytes, quoted: bool, escaped: bool)
    requires OneLine(raw) && OneLine(value)
    ensures OneLine(ValueFrom(raw, value, quoted, escaped))
  {
    if raw != [] {
      ValueFromOneLine(raw[1..], value + [raw[0]], quoted, false);
      ValueFromOneLine(raw[1..], value, quoted, true);
      ValueFromOneLine(raw[1..], value, !quoted, false);
    }
  }

  lemma ValueRenderable(section: Bytes, line: Bytes)
    requires OneLine(line)
    ensures var (inside, rest) := AfterHeader(section, line);
            IncludeValue(inside, rest).Some? ==> Renderable(IncludeValue(inside, rest).value)
  {
    var (inside, rest) := AfterHeader(section, line);
    RestOneLine(section, line);
    var separator := FirstIndex(rest, EQUALS);
    if separator < |rest| {
      var raw := rest[separator + 1..];
      TrimStartOneLine(raw);
      ValueFromOneLine(TrimStart(raw), [], false, false);
      TrimOneLine(ValueFrom(TrimStart(raw), [], false, false));
    }
  }

  lemma RestOneLine(section: Bytes, line: Bytes)
    requires OneLine(line)
    ensures OneLine(AfterHeader(section, line).1)
  {
    TrimOneLine(line);
    var t := Trim(line);
    if t != [] {
      var end := FirstIndex(t[1..], CLOSE_BRACKET);
      if end < |t[1..]| {
        TrimOneLine(t[1..][end + 1..]);
      }
    }
  }

  lemma {:induction false} ValuesRenderable(section: Bytes, lines: seq<Bytes>)
    requires forall l :: l in lines ==> OneLine(l)
    ensures forall v :: v in ValuesFrom(section, lines) ==> Renderable(v)
    decreases |lines|
  {
    if lines != [] {
      ValueRenderable(section, lines[0]);
      ValuesRenderable(AfterHeader(section, lines[0]).0, lines[1..]);
    }
  }

  lemma {:induction false} SplitOneLine(s: Bytes)
    ensures forall l :: l in SplitNewlines(s) ==> OneLine(l)
  {
    if s != [] {
      SplitOneLine(s[1..]);
      assert SplitNewlines(s[1..])[0] in SplitNewlines(s[1..]);
    }
  }

  lemma LinesOneLine(s: Bytes)
    ensures forall l :: l in Lines(s) ==> OneLine(l)
  {
    SplitOneLine(s);
    forall l | l in Lines(s) ensures OneLine(l) {
      var i :| 0 <= i < |Lines(s)| && Lines(s)[i] == l;
      assert SplitNewlines(s)[i] in SplitNewlines(s);
    }
  }

  lemma {:induction false} JoinOneLine(pending: Option<Bytes>, lines: seq<Bytes>)
    requires OneLine(Buffered(pending)) && forall l :: l in lines ==> OneLine(l)
    ensures forall l :: l in JoinFrom(pending, lines) ==> OneLine(l)
    decreases |lines|
  {
    if lines == [] {
      assert forall l :: l in Flush(pending) ==> l == Buffered(pending);
    } else {
      assert OneLine(lines[0]) && OneLine(Piece(lines[0]));
      assert forall l :: l in Emitted(pending, lines[0]) ==> OneLine(l);
      JoinOneLine(Waiting(pending, lines[0]), lines[1..]);
    }
  }

  /** Every value a file names is nonempty, on one line and trimmed: exactly what can be rendered. */
  lemma ValuesInRenderable(s: Bytes)
    ensures forall v :: v in ValuesIn(s) ==> Renderable(v)
  {
    LinesOneLine(s);
    JoinOneLine(None, Lines(s));
    ValuesRenderable([], JoinLines(s));
  }

  /**
   * Every file names what its normal form names: the rendered file of its own values, whatever
   * the directory and home it is resolved against.
   */
  lemma {:induction false} NormalForm(s: Bytes, base: Path, home: Option<Path>)
    ensures IncludePaths(s, base, home) == Resolve(ValuesIn(s), base, home)
    ensures IncludePaths(Render(ValuesIn(s)), base, home) == IncludePaths(s, base, home)
  {
    ResolveValues([], JoinLines(s), base, home);
    ValuesInRenderable(s);
    RenderedIncludesReadBack(ValuesIn(s), base, home);
  }
}
