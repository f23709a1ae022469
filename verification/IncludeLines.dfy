/** A configuration file read line by line: what trimming, letter case, keys and comments do to each. */
module IncludeLines {
  import opened Common
  import opened ConfigParser
  import opened JoinLaws

  // ---------------------------------------------------------------- trimming

  predicate Blank(s: Bytes) {
    forall i :: 0 <= i < |s| ==> IsWhitespace(s[i])
  }

  /** Neither end is whitespace. */
  predicate Trimmed(s: Bytes) {
    s != [] ==> !IsWhitespace(s[0]) && !IsWhitespace(s[|s| - 1])
  }

  lemma TrimNothing(s: Bytes)
    requires Trimmed(s)
    ensures Trim(s) == s && TrimStart(s) == s
  {
  }

  lemma {:induction false} TrimStartDropsBlank(blank: Bytes, s: Bytes)
    requires Blank(blank)
    ensures TrimStart(blank + s) == TrimStart(s)
  {
    if blank == [] {
      assert blank + s == s;
    } else {
      assert (blank + s)[1..] == blank[1..] + s;
      TrimStartDropsBlank(blank[1..], s);
    }
  }

  lemma {:induction false} TrimEndDropsBlank(s: Bytes, blank: Bytes)
    requires Blank(blank)
    ensures TrimEnd(s + blank) == TrimEnd(s)
    decreases |blank|
  {
    if blank == [] {
      assert s + blank == s;
    } else {
      assert (s + blank)[..|s + blank| - 1] == s + blank[..|blank| - 1];
      TrimEndDropsBlank(s, blank[..|blank| - 1]);
    }
  }

  /** Trimming drops the whitespace around a text and nothing else. */
  lemma {:induction false} TrimDropsBlanks(left: Bytes, s: Bytes, right: Bytes)
    requires Blank(left) && Blank(right) && Trimmed(s)
    ensures Trim(left + s + right) == s
  {
    Associate(left, s, right);
    TrimStartDropsBlank(left, s + right);
    if s == [] {
      assert s + right == right && right + [] == right;
      TrimStartDropsBlank(right, []);
    } else {
      TrimEndDropsBlank(s, right);
      TrimNothing(s);
    }
  }

  /** Every text is some trimmed text between whitespace. */
  lemma {:induction false} TextAroundTrim(s: Bytes) returns (left: Bytes, right: Bytes)
    ensures s == left + Trim(s) + right && Blank(left) && Blank(right) && Trimmed(Trim(s))
  {
    left := LeftBlank(s);
    right := RightBlank(TrimStart(s));
    Associate(left, Trim(s), right);
    assert Trim(s) != [] ==> Trim(s)[0] == TrimStart(s)[0];
  }

  lemma {:induction false} LeftBlank(s: Bytes) returns (left: Bytes)
    ensures s == left + TrimStart(s) && Blank(left)
    ensures TrimStart(s) != [] ==> !IsWhitespace(TrimStart(s)[0])
  {
    left := [];
    if s != [] && IsWhitespace(s[0]) {
      var more := LeftBlank(s[1..]);
      left := [s[0]] + more;
    }
  }

  lemma {:induction false} RightBlank(s: Bytes) returns (right: Bytes)
    ensures s == TrimEnd(s) + right && Blank(right)
    ensures TrimEnd(s) != [] ==> !IsWhitespace(TrimEnd(s)[|TrimEnd(s)| - 1])
  {
    right := [];
    if s != [] && IsWhitespace(s[|s| - 1]) {
      var more := RightBlank(s[..|s| - 1]);
      right := more + [s[|s| - 1]];
    }
  }

  // -------------------------------------------------------------- letter case

  /** The same byte, or the same ASCII letter in another case. */
  predicate SameLetter(a: byte, b: byte) {
    a == b || (65 <= a <= 90 && b == a + 32) || (65 <= b <= 90 && a == b + 32)
  }

  predicate SameLetters(a: Bytes, b: Bytes) {
    |a| == |b| && forall i :: 0 <= i < |a| ==> SameLetter(a[i], b[i])
  }

  /** Lowering identifies exactly the texts that differ in letter case. */
  lemma {:induction false} LowerIgnoresCase(a: Bytes, b: Bytes)
    ensures Lower(a) == Lower(b) <==> SameLetters(a, b)
  {
    if SameLetters(a, b) {
      forall i | 0 <= i < |a| ensures Lower(a)[i] == Lower(b)[i] {
        assert SameLetter(a[i], b[i]);
      }
    }
    if Lower(a) == Lower(b) {
      forall i | 0 <= i < |a| ensures SameLetter(a[i], b[i]) {
        assert Lower(a)[i] == Lower(b)[i];
      }
    }
  }

  /** The section is spelled `include`, or starts with `includeif`, in any letter case. */
  predicate SpellsInclude(name: Bytes) {
    SameLetters(name, INCLUDE) || (|name| >= |INCLUDEIF| && SameLetters(name[..|INCLUDEIF|], INCLUDEIF))
  }

  lemma {:induction false} IncludeInAnyCase(name: Bytes)
    ensures IncludeSection(Lower(name)) <==> SpellsInclude(name)
  {
    assert Lower(INCLUDE) == INCLUDE && Lower(INCLUDEIF) == INCLUDEIF;
    LowerIgnoresCase(name, INCLUDE);
    if |name| >= |INCLUDEIF| {
      LowerIgnoresCase(name[..|INCLUDEIF|], INCLUDEIF);
      assert Lower(name)[..|INCLUDEIF|] == Lower(name[..|INCLUDEIF|]);
    }
  }

  // ------------------------------------------------------------- assignments

  lemma FirstIndexAt(a: Bytes, b: byte, rest: Bytes)
    requires b !in a
    ensures FirstIndex(a + [b] + rest, b) == |a|
  {
    var s := a + [b] + rest;
    var i := FirstIndex(s, b);
    assert s[|a|] == b;
    assert forall j :: 0 <= j < |a| ==> s[j] == a[j];
  }

  /** A line that does not open a section stays in the one it stands in. */
  lemma {:induction false} StaysInSection(section: Bytes, line: Bytes)
    requires Trim(line) == [] || Trim(line)[0] != OPEN_BRACKET
    ensures AfterHeader(section, line) == (section, Trim(line))
  {
  }

  /** What an assignment in a section names. */
  function AssignedPath(section: Bytes, key: Bytes, raw: Bytes): Option<Bytes> {
    if IncludeSection(section) && SameLetters(Trim(key), PATH) then ValueOf(raw) else None
  }

  /** An assignment names its value exactly in an include section and under the key `path`, in any case. */
  lemma {:induction false} KeyDecides(section: Bytes, key: Bytes, raw: Bytes)
    requires EQUALS !in key
    ensures IncludeValue(section, key + [EQUALS] + raw) == AssignedPath(section, key, raw)
  {
    var line := key + [EQUALS] + raw;
    FirstIndexAt(key, EQUALS, raw);
    assert line[..|key|] == key && line[|key| + 1..] == raw;
    assert Lower(PATH) == PATH;
    LowerIgnoresCase(Trim(key), PATH);
  }

  // ------------------------------------------------------------------- a file

  /** A line that stands for itself: not continued, opening no section, with no stray carriage return. */
  predicate OwnLine(line: Bytes) {
    && NEWLINE !in line && StripCr(line) == line && !Continues(line)
    && (Trim(line) == [] || Trim(line)[0] != OPEN_BRACKET)
  }

  /** Lines each closed by a newline. */
  function Closed(lines: seq<Bytes>): Bytes {
    if lines == [] then [] else lines[0] + [NEWLINE] + Closed(lines[1..])
  }

  lemma {:induction false} LinesOfClosed(lines: seq<Bytes>)
    requires forall l :: l in lines ==> OwnLine(l)
    ensures Lines(Closed(lines)) == lines + [[]]
  {
    if lines != [] {
      assert OwnLine(lines[0]);
      LinesAtNewline(lines[0], Closed(lines[1..]));
      LinesOfClosed(lines[1..]);
      assert lines == [lines[0]] + lines[1..];
    }
  }

  /** A section name that survives its header: on one line, without a closing bracket. */
  predicate SectionName(name: Bytes) {
    NEWLINE !in name && CLOSE_BRACKET !in name
  }

  function Header(name: Bytes): Bytes {
    [OPEN_BRACKET] + name + [CLOSE_BRACKET]
  }

  /** A header that is never closed names nothing and leaves the section as it is. */
  lemma {:induction false} OpenHeaderIsIgnored(section: Bytes, name: Bytes, base: Path, home: Option<Path>)
    requires CLOSE_BRACKET !in name && Trimmed([OPEN_BRACKET] + name)
    ensures AfterHeader(section, [OPEN_BRACKET] + name) == (section, [])
    ensures Named(section, [OPEN_BRACKET] + name, base, home) == []
  {
    TrimNothing([OPEN_BRACKET] + name);
    assert ([OPEN_BRACKET] + name)[1..] == name;
  }

  /** What follows a header on its line is read in the section the header opens. */
  lemma {:induction false} HeaderOpensSection(section: Bytes, name: Bytes, rest: Bytes)
    requires SectionName(name) && Trimmed(rest)
    ensures AfterHeader(section, Header(name) + rest) == (Lower(Trim(name)), rest)
  {
    var line := Header(name) + rest;
    TrimNothing(line);
    var inner := name + [CLOSE_BRACKET] + rest;
    assert line[1..] == inner;
    FirstIndexAt(name, CLOSE_BRACKET, rest);
    assert inner[..|name|] == name && inner[|name| + 1..] == rest;
    TrimNothing(rest);
  }

  function FileUnder(name: Bytes, lines: seq<Bytes>): Bytes {
    Header(name) + [NEWLINE] + Closed(lines)
  }

  /** The values of assignments, line by line. */
  function NamedBy(section: Bytes, lines: seq<Bytes>, base: Path, home: Option<Path>): seq<Path> {
    if lines == [] then [] else Named(section, lines[0], base, home) + NamedBy(section, lines[1..], base, home)
  }

  lemma {:induction false} IncludesOfLines(section: Bytes, lines: seq<Bytes>, base: Path, home: Option<Path>)
    requires forall l :: l in lines ==> OwnLine(l)
    ensures IncludesFrom(section, lines + [[]], base, home) == NamedBy(section, lines, base, home)
  {
    var all := lines + [[]];
    if lines == [] {
      assert all == [[]] && all[1..] == [];
    } else {
      assert OwnLine(lines[0]);
      StaysInSection(section, lines[0]);
      IncludesOfLines(section, lines[1..], base, home);
      assert all[0] == lines[0] && all[1..] == lines[1..] + [[]];
    }
  }

  lemma {:induction false} JoinedFile(name: Bytes, lines: seq<Bytes>)
    requires SectionName(name) && forall l :: l in lines ==> OwnLine(l)
    ensures JoinLines(FileUnder(name, lines)) == [Header(name)] + (lines + [[]])
  {
    var all := [Header(name)] + (lines + [[]]);
    LinesAtNewline(Header(name), Closed(lines));
    LinesOfClosed(lines);
    assert Header(name)[|Header(name)| - 1] == CLOSE_BRACKET;
    forall i | 0 <= i < |all| ensures !Continues(all[i]) {
      assert 0 < i <= |lines| ==> all[i] == lines[i - 1] && lines[i - 1] in lines;
    }
    CompleteLinesUnchanged(all);
  }

  /** Below a header, a file names what each of its lines names in the section, in order. */
  lemma {:induction false} FileReadsLineByLine(name: Bytes, lines: seq<Bytes>, base: Path, home: Option<Path>)
    requires SectionName(name) && forall l :: l in lines ==> OwnLine(l)
    ensures IncludePaths(FileUnder(name, lines), base, home) == NamedBy(Lower(Trim(name)), lines, base, home)
  {
    JoinedFile(name, lines);
    assert Header(name) + [] == Header(name);
    HeaderOpensSection([], name, []);
    IncludesOfLines(Lower(Trim(name)), lines, base, home);
    var all := [Header(name)] + (lines + [[]]);
    assert all[0] == Header(name) && all[1..] == lines + [[]];
    assert Named([], Header(name), base, home) == [];
  }

  /** A carriage return before a newline is no part of the line, wherever the line stands. */
  lemma {:induction false} CarriageReturnIsDropped(text: Bytes, line: Bytes, rest: Bytes)
    requires WholeLines(text) && NEWLINE !in line && StripCr(line) == line
    ensures JoinLines(text + (line + [CARRIAGE_RETURN] + [NEWLINE] + rest)) == JoinLines(text + (line + [NEWLINE] + rest))
  {
    LinesAfterWholeLines(text, line + [CARRIAGE_RETURN] + [NEWLINE] + rest);
    LinesAfterWholeLines(text, line + [NEWLINE] + rest);
    LinesAtNewline(line + [CARRIAGE_RETURN], rest);
    LinesAtNewline(line, rest);
    assert (line + [CARRIAGE_RETURN])[..|line|] == line;
  }

  // --------------------------------------------------------------- comments

  /** A comment line: its mark comes after nothing but whitespace. */
  function CommentLine(blank: Bytes, mark: byte, note: Bytes): Bytes {
    blank + [mark] + note
  }

  lemma {:induction false} CommentIsNoAssignment(section: Bytes, blank: Bytes, mark: byte, note: Bytes)
    requires Blank(blank) && (mark == HASH || mark == SEMICOLON)
    ensures var line := CommentLine(blank, mark, note);
            LooksLikeComment(line) && !Continues(line) && AfterHeader(section, line).0 == section
            && forall base: Path, home: Option<Path> :: Named(section, line, base, home) == []
  {
    var line, marked := CommentLine(blank, mark, note), [mark] + note;
    Associate(blank, [mark], note);
    TrimStartDropsBlank(blank, marked);
    assert TrimStart(line) == marked;
    var _ := RightBlank(marked);
    MarkedStaysMarked(marked);
    var t := Trim(line);
    StaysInSection(section, line);
    var separator := FirstIndex(t, EQUALS);
    if separator < |t| {
      var key := t[..separator];
      MarkedStaysMarked(key);
      assert Trim(key)[0] == mark;
      LowerIgnoresCase(Trim(key), PATH);
      assert Lower(PATH) == PATH;
      assert !SameLetter(mark, PATH[0]);
    }
  }

  /** Trimming keeps a comment's mark. */
  lemma {:induction false} MarkedStaysMarked(s: Bytes)
    requires s != [] && (s[0] == HASH || s[0] == SEMICOLON)
    ensures TrimStart(s) == s && Trim(s) != [] && Trim(s)[0] == s[0]
    decreases |s|
  {
    if IsWhitespace(s[|s| - 1]) {
      MarkedStaysMarked(s[..|s| - 1]);
    }
  }

  /**
   * A comment line names nothing, opens no section and hides nothing that follows it, even when
   * it ends in a backslash: the file reads as if the line were not there.
   */
  lemma {:induction false} CommentHidesNothing(blank: Bytes, mark: byte, note: Bytes, rest: Bytes,
                                               base: Path, home: Option<Path>)
    requires Blank(blank) && NEWLINE !in blank && (mark == HASH || mark == SEMICOLON) && NEWLINE !in note
    ensures IncludePaths(CommentLine(blank, mark, note) + [NEWLINE] + rest, base, home) == IncludePaths(rest, base, home)
  {
    var line := CommentLine(blank, mark, note);
    LinesAtNewline(line, rest);
    StrippedComment(blank, mark, note);
    var shorter := if StripCr(line) == line then note else note[..|note| - 1];
    CommentIsNoAssignment([], blank, mark, shorter);
    var c := CommentLine(blank, mark, shorter);
    JoinStopsAtCompleteLine(None, [c], Lines(rest));
    var none: seq<Bytes> := [];
    assert [c][1..] == none && JoinFrom(None, [c]) == [c];
    assert ([c] + JoinLines(rest))[1..] == JoinLines(rest);
  }

  lemma {:induction false} StrippedComment(blank: Bytes, mark: byte, note: Bytes)
    requires mark == HASH || mark == SEMICOLON
    ensures var line := CommentLine(blank, mark, note);
            if StripCr(line) == line then true
            else note != [] && StripCr(line) == CommentLine(blank, mark, note[..|note| - 1])
  {
    var line := CommentLine(blank, mark, note);
    if note == [] {
      assert line[|line| - 1] == mark;
    } else if StripCr(line) != line {
      assert line[..|line| - 1] == CommentLine(blank, mark, note[..|note| - 1]);
    }
  }
}
