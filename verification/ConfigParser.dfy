/** The byte-level Git configuration reader: joined lines, unquoted values, include paths. */
module ConfigParser {
  import opened Common

  type Bytes = seq<byte>
  type Path = seq<byte>

  const NEWLINE: byte := 10
  const CARRIAGE_RETURN: byte := 13
  const SPACE: byte := 32
  const QUOTE: byte := 34
  const HASH: byte := 35
  const SLASH: byte := 47
  const SEMICOLON: byte := 59
  const EQUALS: byte := 61
  const OPEN_BRACKET: byte := 91
  const BACKSLASH: byte := 92
  const CLOSE_BRACKET: byte := 93

  // ------------------------------------------------------------ byte strings

  predicate IsWhitespace(b: byte) {
    b == 9 || b == 10 || b == 12 || b == 13 || b == 32
  }

  function TrimStart(s: Bytes): Bytes {
    if s != [] && IsWhitespace(s[0]) then TrimStart(s[1..]) else s
  }

  function TrimEnd(s: Bytes): Bytes {
    if s != [] && IsWhitespace(s[|s| - 1]) then TrimEnd(s[..|s| - 1]) else s
  }

  function Trim(s: Bytes): Bytes {
    TrimEnd(TrimStart(s))
  }

  function Lower(s: Bytes): (r: Bytes)
    ensures |r| == |s|
  {
    seq(|s|, i requires 0 <= i < |s| => if 65 <= s[i] <= 90 then s[i] + 32 else s[i])
  }

  /** Index of the first `b`, or the length when there is none. */
  function FirstIndex(s: Bytes, b: byte): (i: nat)
    ensures i <= |s| && (i < |s| ==> s[i] == b) && forall j :: 0 <= j < i ==> s[j] != b
  {
    if s == [] || s[0] == b then 0 else 1 + FirstIndex(s[1..], b)
  }

  /** The pieces between newlines; always at least one. */
  function SplitNewlines(s: Bytes): (lines: seq<Bytes>)
    ensures lines != []
  {
    if s == [] then [[]]
    else
      var rest := SplitNewlines(s[1..]);
      if s[0] == NEWLINE then [[]] + rest else [[s[0]] + rest[0]] + rest[1..]
  }

  function StripCr(line: Bytes): Bytes {
    if line != [] && line[|line| - 1] == CARRIAGE_RETURN then line[..|line| - 1] else line
  }

  function StripAll(lines: seq<Bytes>): (r: seq<Bytes>)
    ensures |r| == |lines| && forall i :: 0 <= i < |r| ==> r[i] == StripCr(lines[i])
  {
    seq(|lines|, i requires 0 <= i < |lines| => StripCr(lines[i]))
  }

  /** A file's physical lines, each without its trailing carriage return. */
  function Lines(s: Bytes): seq<Bytes> {
    StripAll(SplitNewlines(s))
  }

  // ------------------------------------------------------------ continuation

  predicate LooksLikeComment(line: Bytes) {
    var t := TrimStart(line);
    t != [] && (t[0] == HASH || t[0] == SEMICOLON)
  }

  function TrailingBackslashes(line: Bytes): nat {
    if line != [] && line[|line| - 1] == BACKSLASH then 1 + TrailingBackslashes(line[..|line| - 1])
    else 0
  }

  /** A value line ending in an odd run of backslashes goes on; a comment never does. */
  predicate Continues(line: Bytes) {
    !LooksLikeComment(line) && TrailingBackslashes(line) % 2 == 1
  }

  /** What a physical line contributes: all of it, less a continuation backslash. */
  function Piece(line: Bytes): Bytes {
    if Continues(line) then line[..|line| - 1] else line
  }

  function Flush(pending: Option<Bytes>): seq<Bytes> {
    match pending
    case Some(buffer) => [buffer]
    case None => []
  }

  function Buffered(pending: Option<Bytes>): Bytes {
    match pending
    case Some(buffer) => buffer
    case None => []
  }

  /** The logical lines one more physical line completes. */
  function Emitted(pending: Option<Bytes>, line: Bytes): seq<Bytes> {
    if LooksLikeComment(line) then Flush(pending) + [line]
    else if Continues(line) then []
    else [Buffered(pending) + line]
  }

  /** What still waits for a continuation after it. */
  function Waiting(pending: Option<Bytes>, line: Bytes): Option<Bytes> {
    if Continues(line) then Some(Buffered(pending) + Piece(line)) else None
  }

  /** The logical lines of `lines`, with `pending` still waiting for its continuation. */
  function JoinFrom(pending: Option<Bytes>, lines: seq<Bytes>): seq<Bytes>
    decreases |lines|
  {
    if lines == [] then Flush(pending)
    else Emitted(pending, lines[0]) + JoinFrom(Waiting(pending, lines[0]), lines[1..])
  }

  function JoinLines(s: Bytes): seq<Bytes> {
    JoinFrom(None, Lines(s))
  }

  /** One line of the loop below. */
  method JoinOne(pending: Option<Bytes>, line: Bytes)
    returns (emitted: seq<Bytes>, waiting: Option<Bytes>)
    ensures emitted == Emitted(pending, line) && waiting == Waiting(pending, line)
  {
    if LooksLikeComment(line) {
      return Flush(pending) + [line], None;
    }
    var continues := TrailingBackslashes(line) % 2 == 1;
    var body := if continues then line[..|line| - 1] else line;
    var buffer := Buffered(pending) + body;
    if continues {
      return [], Some(buffer);
    }
    return [buffer], None;
  }

  method JoinContinuedLines(s: Bytes) returns (joined: seq<Bytes>)
    ensures joined == JoinLines(s)
  {
    joined := [];
    var pending: Option<Bytes> := None;
    var raw := SplitNewlines(s);
    ghost var lines := Lines(s);
    assert lines[0..] == lines;
    for i := 0 to |raw|
      invariant joined + JoinFrom(pending, lines[i..]) == JoinLines(s)
    {
      assert lines[i..][0] == lines[i] && lines[i..][1..] == lines[i + 1..];
      var emitted, waiting := JoinOne(pending, StripCr(raw[i]));
      Associate(joined, emitted, JoinFrom(waiting, lines[i + 1..]));
      joined, pending := joined + emitted, waiting;
    }
    assert lines[|raw|..] == [];
    joined := joined + Flush(pending);
  }

  // ------------------------------------------------------------------ values

  /** Unquotes what is left of a value, given what was read and whether it is quoted or escaped. */
  function ValueFrom(raw: Bytes, value: Bytes, quoted: bool, escaped: bool): Bytes {
    if raw == [] then value
    else if escaped then ValueFrom(raw[1..], value + [raw[0]], quoted, false)
    else if raw[0] == BACKSLASH then ValueFrom(raw[1..], value, quoted, true)
    else if raw[0] == QUOTE then ValueFrom(raw[1..], value, !quoted, false)
    else if (raw[0] == HASH || raw[0] == SEMICOLON) && !quoted then value
    else ValueFrom(raw[1..], value + [raw[0]], quoted, false)
  }

  function ValueOf(raw: Bytes): Option<Bytes> {
    var value := Trim(ValueFrom(TrimStart(raw), [], false, false));
    if value == [] then None else Some(value)
  }

  method ConfigValue(raw: Bytes) returns (r: Option<Bytes>)
    ensures r == ValueOf(raw)
  {
    var value, quoted, escaped := [], false, false;
    var text := TrimStart(raw);
    assert text[0..] == text;
    for i := 0 to |text|
      invariant ValueFrom(text[i..], value, quoted, escaped) == ValueFrom(text, [], false, false)
    {
      assert text[i..][0] == text[i] && text[i..][1..] == text[i + 1..];
      var b := text[i];
      if escaped {
        value, escaped := value + [b], false;
        continue;
      }
      if b == BACKSLASH {
        escaped := true;
      } else if b == QUOTE {
        quoted := !quoted;
      } else if (b == HASH || b == SEMICOLON) && !quoted {
        break;
      } else {
        value := value + [b];
      }
    }
    value := Trim(value);
    r := if value == [] then None else Some(value);
  }

  // ---------------------------------------------------------------- includes

  /** `include`, `includeif` and `path`. */
  const INCLUDE: Bytes := [105, 110, 99, 108, 117, 100, 101]
  const INCLUDEIF: Bytes := [105, 110, 99, 108, 117, 100, 101, 105, 102]
  const PATH: Bytes := [112, 97, 116, 104]
  const HOME_PREFIX: Bytes := [126, 47]

  /** `PathBuf::join` on Unix. */
  function JoinPath(base: Path, target: Path): Path {
    if target != [] && target[0] == SLASH then target
    else if base == [] || base[|base| - 1] == SLASH then base + target
    else base + [SLASH] + target
  }

  /** `~/` against the home directory, anything else against the including file's directory. */
  function ExpandConfigPath(value: Bytes, base: Path, home: Option<Path>): Path {
    if HOME_PREFIX <= value && home.Some? then JoinPath(home.value, value[2..])
    else JoinPath(base, value)
  }

  /** The section a logical line leaves us in, and what of the line follows its header. */
  function AfterHeader(section: Bytes, line: Bytes): (Bytes, Bytes) {
    var t := Trim(line);
    if t == [] || t[0] != OPEN_BRACKET then (section, t)
    else
      var end := FirstIndex(t[1..], CLOSE_BRACKET);
      if end == |t[1..]| then (section, [])
      else (Lower(Trim(t[1..][..end])), Trim(t[1..][end + 1..]))
  }

  predicate IncludeSection(section: Bytes) {
    section == INCLUDE || INCLUDEIF <= section
  }

  /** The value a line names as an include path, if it names one. */
  function IncludeValue(section: Bytes, line: Bytes): Option<Bytes> {
    var separator := FirstIndex(line, EQUALS);
    if !IncludeSection(section) || separator == |line| then None
    else if Lower(Trim(line[..separator])) != PATH then None
    else ValueOf(line[separator + 1..])
  }

  /** The include paths one logical line adds: one or none. */
  function Named(section: Bytes, line: Bytes, base: Path, home: Option<Path>): seq<Path> {
    var (inside, rest) := AfterHeader(section, line);
    match IncludeValue(inside, rest)
    case Some(value) => [ExpandConfigPath(value, base, home)]
    case None => []
  }

  function IncludesFrom(section: Bytes, lines: seq<Bytes>, base: Path, home: Option<Path>): seq<Path>
    decreases |lines|
  {
    if lines == [] then []
    else
      Named(section, lines[0], base, home)
      + IncludesFrom(AfterHeader(section, lines[0]).0, lines[1..], base, home)
  }

  function IncludePaths(s: Bytes, base: Path, home: Option<Path>): seq<Path> {
    IncludesFrom([], JoinLines(s), base, home)
  }

  /** One line of the loop below. */
  method IncludeOne(section: Bytes, raw: Bytes, base: Path, home: Option<Path>)
    returns (named: seq<Path>, inside: Bytes)
    ensures named == Named(section, raw, base, home) && inside == AfterHeader(section, raw).0
  {
    named, inside := [], section;
    var line := Trim(raw);
    if line != [] && line[0] == OPEN_BRACKET {
      var rest := line[1..];
      var end := FirstIndex(rest, CLOSE_BRACKET);
      if end == |rest| {
        return;
      }
      inside := Lower(Trim(rest[..end]));
      line := Trim(rest[end + 1..]);
      if line == [] {
        return;
      }
    }
    if !IncludeSection(inside) {
      return;
    }
    var separator := FirstIndex(line, EQUALS);
    if separator == |line| || Lower(Trim(line[..separator])) != PATH {
      return;
    }
    var value := ConfigValue(line[separator + 1..]);
    if value.Some? {
      named := [ExpandConfigPath(value.value, base, home)];
    }
  }

  method ConfigIncludePaths(s: Bytes, base: Path, home: Option<Path>) returns (includes: seq<Path>)
    ensures includes == IncludePaths(s, base, home)
  {
    includes := [];
    var section: Bytes := [];
    var lines := JoinContinuedLines(s);
    assert lines[0..] == lines;
    for i := 0 to |lines|
      invariant includes + IncludesFrom(section, lines[i..], base, home) == IncludePaths(s, base, home)
    {
      assert lines[i..][0] == lines[i] && lines[i..][1..] == lines[i + 1..];
      var named, inside := IncludeOne(section, lines[i], base, home);
      Associate(includes, named, IncludesFrom(inside, lines[i + 1..], base, home));
      includes, section := includes + named, inside;
    }
  }
}
