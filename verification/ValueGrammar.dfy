/** The grammar of configuration values, stated apart from the reader, and that the reader follows it. */
module ValueGrammar {
  import opened Common
  import opened ConfigParser
  import opened JoinLaws
  import opened IncludeLines
  import opened IncludeRoundTrip

  /** What a value's text is made of: a byte that stands for itself, an escaped byte, a quote. */
  datatype Token = Plain(b: byte) | Escaped(b: byte) | Toggle

  function Spell(t: Token): Bytes {
    match t
    case Plain(b) => [b]
    case Escaped(b) => [BACKSLASH, b]
    case Toggle => [QUOTE]
  }

  function Spelled(tokens: seq<Token>): Bytes {
    if tokens == [] then [] else Spell(tokens[0]) + Spelled(tokens[1..])
  }

  /** What the tokens say: quotes are dropped, an escaped byte stands for itself. */
  function Meaning(tokens: seq<Token>): Bytes {
    if tokens == [] then []
    else
      match tokens[0]
      case Plain(b) => [b] + Meaning(tokens[1..])
      case Escaped(b) => [b] + Meaning(tokens[1..])
      case Toggle => Meaning(tokens[1..])
  }

  predicate CommentMark(b: byte) {
    b == HASH || b == SEMICOLON
  }

  /** Whether the text is inside quotes after the tokens. */
  function QuotedAfter(tokens: seq<Token>, quoted: bool): bool {
    if tokens == [] then quoted
    else QuotedAfter(tokens[1..], if tokens[0].Toggle? then !quoted else quoted)
  }

  /** Quotes and backslashes never stand for themselves, and comment marks only inside quotes. */
  predicate Spellable(tokens: seq<Token>, quoted: bool) {
    tokens != [] ==>
      && (tokens[0].Plain? ==>
            tokens[0].b != QUOTE && tokens[0].b != BACKSLASH && (CommentMark(tokens[0].b) ==> quoted))
      && Spellable(tokens[1..], if tokens[0].Toggle? then !quoted else quoted)
  }

  /** What may follow the value: nothing, a backslash that escapes nothing, or, unquoted, a comment. */
  predicate Leftover(rest: Bytes, quoted: bool) {
    rest == [] || rest == [BACKSLASH] || (CommentMark(rest[0]) && !quoted)
  }

  /** The reader gives what the tokens say, whatever comment follows them. */
  lemma {:induction false} ReadsTheTokens(tokens: seq<Token>, rest: Bytes, value: Bytes, quoted: bool)
    requires Spellable(tokens, quoted) && Leftover(rest, QuotedAfter(tokens, quoted))
    ensures ValueFrom(Spelled(tokens) + rest, value, quoted, false) == value + Meaning(tokens)
    decreases |tokens|
  {
    if tokens == [] {
      assert Spelled(tokens) + rest == rest && value + [] == value;
    } else {
      var t, more := tokens[0], Spelled(tokens[1..]) + rest;
      Associate(Spell(t), Spelled(tokens[1..]), rest);
      TokenRead(t, more, value, quoted);
      ReadsTheTokens(tokens[1..], rest, value + Says(t), if t.Toggle? then !quoted else quoted);
      Associate(value, Says(t), Meaning(tokens[1..]));
    }
  }

  function Says(t: Token): Bytes {
    if t.Toggle? then [] else [t.b]
  }

  lemma {:induction false} TokenRead(t: Token, more: Bytes, value: Bytes, quoted: bool)
    requires Spellable([t], quoted)
    ensures ValueFrom(Spell(t) + more, value, quoted, false)
         == ValueFrom(more, value + Says(t), if t.Toggle? then !quoted else quoted, false)
  {
    var text := Spell(t) + more;
    assert t.Toggle? ==> value + Says(t) == value;
    if t.Escaped? {
      assert text[1..] == [t.b] + more && text[1..][1..] == more;
    } else {
      assert text[1..] == more;
    }
  }

  /** The tokens of any text, and what is left of it. */
  function Tokens(text: Bytes, quoted: bool): (seq<Token>, Bytes) {
    if Leftover(text, quoted) then ([], text)
    else if text[0] == BACKSLASH then Prepended(Escaped(text[1]), Tokens(text[2..], quoted))
    else if text[0] == QUOTE then Prepended(Toggle, Tokens(text[1..], !quoted))
    else Prepended(Plain(text[0]), Tokens(text[1..], quoted))
  }

  function Prepended(t: Token, rest: (seq<Token>, Bytes)): (seq<Token>, Bytes) {
    ([t] + rest.0, rest.1)
  }

  /** Every text is the spelling of some tokens and a leftover, so the grammar says what any text means. */
  lemma {:induction false} EveryTextIsSpelled(text: Bytes, quoted: bool)
    ensures var (tokens, rest) := Tokens(text, quoted);
            && text == Spelled(tokens) + rest
            && Spellable(tokens, quoted) && Leftover(rest, QuotedAfter(tokens, quoted))
    decreases |text|
  {
    if !Leftover(text, quoted) {
      if text[0] == BACKSLASH {
        EveryTextIsSpelled(text[2..], quoted);
        assert text == [text[0], text[1]] + text[2..];
      } else {
        EveryTextIsSpelled(text[1..], if text[0] == QUOTE then !quoted else quoted);
        assert text == [text[0]] + text[1..];
      }
      var (tokens, rest) := Tokens(text, quoted);
      assert tokens[1..] == Tokens(if text[0] == BACKSLASH then text[2..] else text[1..],
                                   if text[0] == QUOTE then !quoted else quoted).0;
      Associate(Spell(tokens[0]), Spelled(tokens[1..]), rest);
    }
  }

  /**
   * A text is read as a value exactly when what its tokens say is not blank, and then as that,
   * trimmed: for any spelling of the text as tokens and a leftover.
   */
  lemma {:induction false} ValueIsTheMeaning(raw: Bytes, tokens: seq<Token>, rest: Bytes)
    requires TrimStart(raw) == Spelled(tokens) + rest
    requires Spellable(tokens, false) && Leftover(rest, QuotedAfter(tokens, false))
    ensures ValueOf(raw) == if Trim(Meaning(tokens)) == [] then None else Some(Trim(Meaning(tokens)))
  {
    ReadsTheTokens(tokens, rest, [], false);
    assert [] + Meaning(tokens) == Meaning(tokens);
  }

  // ------------------------------------------------------------ unquoted text

  /** Text in which every byte stands for itself outside quotes. */
  predicate Bare(text: Bytes) {
    forall i :: 0 <= i < |text| ==> text[i] != QUOTE && text[i] != BACKSLASH && !CommentMark(text[i])
  }

  function Plains(text: Bytes): seq<Token> {
    if text == [] then [] else [Plain(text[0])] + Plains(text[1..])
  }

  lemma {:induction false} BareIsPlain(text: Bytes)
    requires Bare(text)
    ensures Spelled(Plains(text)) == text == Meaning(Plains(text))
    ensures Spellable(Plains(text), false) && !QuotedAfter(Plains(text), false)
  {
    if text != [] {
      BareIsPlain(text[1..]);
      assert Plains(text)[1..] == Plains(text[1..]);
    }
  }

  predicate Comment(text: Bytes) {
    text == [] || CommentMark(text[0])
  }

  /** Unquoted text ends at the first `#` or `;`, and is its own value, trimmed. */
  lemma {:induction false} BareValue(text: Bytes, comment: Bytes)
    requires Bare(text) && Comment(comment)
    ensures ValueOf(text + comment) == if Trim(text) == [] then None else Some(Trim(text))
  {
    var left := LeftBlank(text);
    var start := TrimStart(text);
    assert forall i :: 0 <= i < |start| ==> start[i] == text[|left| + i];
    CommentStartAppend(text, comment);
    assert start == [] ==> start + comment == comment;
    BareIsPlain(start);
    ValueIsTheMeaning(text + comment, Plains(start), comment);
  }

  /** One assignment: its key, its unquoted value and the comment after it. */
  datatype Assignment = Assignment(key: Bytes, text: Bytes, comment: Bytes)

  function Line(x: Assignment): Bytes {
    x.key + [EQUALS] + (x.text + x.comment)
  }

  /** It assigns something to `path`, in any letter case, unquoted, on a line of its own. */
  predicate AssignsPath(x: Assignment) {
    && EQUALS !in x.key && SameLetters(Trim(x.key), PATH)
    && Bare(x.text) && Trim(x.text) != [] && Comment(x.comment)
    && OwnLine(Line(x)) && Trimmed(Line(x))
  }

  function LinesOf(xs: seq<Assignment>): seq<Bytes> {
    if xs == [] then [] else [Line(xs[0])] + LinesOf(xs[1..])
  }

  function ValuesOf(xs: seq<Assignment>): seq<Bytes> {
    if xs == [] then [] else [Trim(xs[0].text)] + ValuesOf(xs[1..])
  }

  lemma {:induction false} AssignmentNames(section: Bytes, x: Assignment, base: Path, home: Option<Path>)
    requires AssignsPath(x)
    ensures Named(section, Line(x), base, home)
         == if IncludeSection(section) then [ExpandConfigPath(Trim(x.text), base, home)] else []
  {
    TrimNothing(Line(x));
    StaysInSection(section, Line(x));
    KeyDecides(section, x.key, x.text + x.comment);
    BareValue(x.text, x.comment);
  }

  lemma {:induction false} AssignmentsName(section: Bytes, xs: seq<Assignment>, base: Path, home: Option<Path>)
    requires forall x :: x in xs ==> AssignsPath(x)
    ensures forall l :: l in LinesOf(xs) ==> OwnLine(l)
    ensures NamedBy(section, LinesOf(xs), base, home)
         == if IncludeSection(section) then Resolve(ValuesOf(xs), base, home) else []
  {
    if xs != [] {
      assert AssignsPath(xs[0]);
      AssignmentNames(section, xs[0], base, home);
      AssignmentsName(section, xs[1..], base, home);
      assert LinesOf(xs)[1..] == LinesOf(xs[1..]) && ValuesOf(xs)[1..] == ValuesOf(xs[1..]);
    }
  }

  /**
   * Unquoted includes, each with whatever comment after it, read back as exactly the texts before
   * the comments, resolved and in order, under a header that is spelled `include` or starts with
   * `includeif`, in any letter case, and under no other.
   */
  lemma {:induction false} BareIncludesReadBack(name: Bytes, xs: seq<Assignment>, base: Path, home: Option<Path>)
    requires SectionName(name) && forall x :: x in xs ==> AssignsPath(x)
    ensures IncludePaths(FileUnder(name, LinesOf(xs)), base, home)
         == if SpellsInclude(Trim(name)) then Resolve(ValuesOf(xs), base, home) else []
  {
    IncludeInAnyCase(Trim(name));
    AssignmentsName(Lower(Trim(name)), xs, base, home);
    FileReadsLineByLine(name, LinesOf(xs), base, home);
  }
}
