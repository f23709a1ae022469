/** Rendering include paths as quoted, escaped values, and reading exactly those paths back. */
module IncludeRoundTrip {
  import opened Common
  import opened ConfigParser
  import opened IncludeLines

  /** `path = `. */
  const ASSIGN: Bytes := PATH + [SPACE, EQUALS, SPACE]

  function EscapeByte(b: byte): Bytes {
    if b == QUOTE || b == BACKSLASH then [BACKSLASH, b] else [b]
  }

  function EscapeValue(v: Bytes): Bytes {
    if v == [] then [] else EscapeByte(v[0]) + EscapeValue(v[1..])
  }

  function Quoted(v: Bytes): Bytes {
    [QUOTE] + EscapeValue(v) + [QUOTE]
  }

  function ValueLine(v: Bytes): Bytes {
    ASSIGN + Quoted(v)
  }

  function ValueLines(values: seq<Bytes>): (lines: seq<Bytes>)
    ensures |lines| == |values|
    ensures forall i :: 0 <= i < |values| ==> lines[i] == ValueLine(values[i])
  {
    if values == [] then [] else [ValueLine(values[0])] + ValueLines(values[1..])
  }

  /** A configuration file naming `values` as include paths. */
  function Render(values: seq<Bytes>): Bytes {
    FileUnder(INCLUDE, ValueLines(values))
  }

  /** A value the unquoted, trimmed result can equal. */
  predicate Renderable(v: Bytes) {
    v != [] && NEWLINE !in v && !IsWhitespace(v[0]) && !IsWhitespace(v[|v| - 1])
  }

  function Resolve(values: seq<Bytes>, base: Path, home: Option<Path>): (paths: seq<Path>)
    ensures |paths| == |values|
    ensures forall i :: 0 <= i < |values| ==> paths[i] == ExpandConfigPath(values[i], base, home)
  {
    if values == [] then [] else [ExpandConfigPath(values[0], base, home)] + Resolve(values[1..], base, home)
  }

  // -------------------------------------------------------------- one value

  /** Unquoting one escaped byte inside quotes gives that byte. */
  lemma UnescapeByte(b: byte, rest: Bytes, value: Bytes)
    ensures ValueFrom(EscapeByte(b) + rest, value, true, false) == ValueFrom(rest, value + [b], true, false)
  {
    var text := EscapeByte(b) + rest;
    if b == QUOTE || b == BACKSLASH {
      assert text[1..] == [b] + rest && text[1..][1..] == rest;
    } else {
      assert text[1..] == rest;
    }
  }

  lemma {:induction false} UnescapeValue(v: Bytes, tail: Bytes, value: Bytes)
    ensures ValueFrom(EscapeValue(v) + tail, value, true, false) == ValueFrom(tail, value + v, true, false)
  {
    if v == [] {
      assert EscapeValue(v) + tail == tail && value + v == value;
    } else {
      Associate(EscapeByte(v[0]), EscapeValue(v[1..]), tail);
      UnescapeByte(v[0], EscapeValue(v[1..]) + tail, value);
      UnescapeValue(v[1..], tail, value + [v[0]]);
      HeadThenTail(value, v);
    }
  }

  lemma HeadThenTail(value: Bytes, v: Bytes)
    requires v != []
    ensures value + [v[0]] + v[1..] == value + v
  {
  }

  lemma UnquoteQuoted(v: Bytes)
    ensures ValueFrom(Quoted(v), [], false, false) == v
  {
    var inner := EscapeValue(v) + [QUOTE];
    assert Quoted(v)[0] == QUOTE && Quoted(v)[1..] == inner;
    UnescapeValue(v, [QUOTE], []);
    assert [] + v == v && [QUOTE][1..] == [];
  }

  lemma ReadQuoted(v: Bytes)
    requires Renderable(v)
    ensures ValueOf([SPACE] + Quoted(v)) == Some(v)
  {
    var raw := [SPACE] + Quoted(v);
    assert raw[1..] == Quoted(v) && Quoted(v)[0] == QUOTE;
    assert TrimStart(raw) == TrimStart(Quoted(v)) == Quoted(v);
    UnquoteQuoted(v);
    TrimNothing(v);
  }

  // --------------------------------------------------------------- one line

  lemma {:induction false} EscapeHasNoNewline(v: Bytes)
    requires NEWLINE !in v
    ensures NEWLINE !in EscapeValue(v)
  {
    if v != [] {
      EscapeHasNoNewline(v[1..]);
    }
  }

  lemma LineShape(v: Bytes)
    ensures |ValueLine(v)| > 7 && ValueLine(v)[0] == 112 && ValueLine(v)[|ValueLine(v)| - 1] == QUOTE
    ensures ValueLine(v) == PATH + [SPACE] + [EQUALS] + ([SPACE] + Quoted(v))
  {
    assert Quoted(v)[|Quoted(v)| - 1] == QUOTE;
    assert ASSIGN == PATH + [SPACE] + [EQUALS] + [SPACE];
  }

  lemma LineHasNoNewline(v: Bytes)
    requires NEWLINE !in v
    ensures NEWLINE !in ValueLine(v)
  {
    EscapeHasNoNewline(v);
    assert NEWLINE !in ASSIGN;
  }

  lemma ValueLineIsItsOwn(v: Bytes)
    requires Renderable(v)
    ensures OwnLine(ValueLine(v)) && Trim(ValueLine(v)) == ValueLine(v)
  {
    LineShape(v);
    LineHasNoNewline(v);
    TrimNothing(ValueLine(v));
  }

  /** A value line names its value exactly in an include section. */
  lemma NamedByLine(section: Bytes, v: Bytes, base: Path, home: Option<Path>)
    requires Renderable(v)
    ensures Named(section, ValueLine(v), base, home)
         == if IncludeSection(section) then [ExpandConfigPath(v, base, home)] else []
  {
    LineShape(v);
    ValueLineIsItsOwn(v);
    KeyDecides(section, PATH + [SPACE], [SPACE] + Quoted(v));
    assert [] + PATH + [SPACE] == PATH + [SPACE];
    TrimDropsBlanks([], PATH, [SPACE]);
    ReadQuoted(v);
  }

  // --------------------------------------------------------------- the file

  lemma {:induction false} NamedByValues(section: Bytes, values: seq<Bytes>, base: Path, home: Option<Path>)
    requires forall v :: v in values ==> Renderable(v)
    ensures forall l :: l in ValueLines(values) ==> OwnLine(l)
    ensures NamedBy(section, ValueLines(values), base, home)
         == if IncludeSection(section) then Resolve(values, base, home) else []
  {
    if values != [] {
      assert Renderable(values[0]);
      ValueLineIsItsOwn(values[0]);
      NamedByLine(section, values[0], base, home);
      NamedByValues(section, values[1..], base, home);
      assert ValueLines(values)[1..] == ValueLines(values[1..]);
    }
  }

  lemma IncludeIsItsOwnName()
    ensures SectionName(INCLUDE) && Lower(Trim(INCLUDE)) == INCLUDE
  {
    TrimNothing(INCLUDE);
    assert Lower(INCLUDE) == INCLUDE;
  }

  /** Every rendered path is found, resolved, once and in order, and nothing else is. */
  lemma RenderedIncludesReadBack(values: seq<Bytes>, base: Path, home: Option<Path>)
    requires forall v :: v in values ==> Renderable(v)
    ensures IncludePaths(Render(values), base, home) == Resolve(values, base, home)
  {
    IncludeIsItsOwnName();
    NamedByValues(INCLUDE, values, base, home);
    FileReadsLineByLine(INCLUDE, ValueLines(values), base, home);
  }
}
