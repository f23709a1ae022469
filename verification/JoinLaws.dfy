/** What joining continued lines keeps, what it merges, and where it always stops. */
module JoinLaws {
  import opened Common
  import opened ConfigParser

  // ---------------------------------------------------------- every byte kept

  function Pieces(lines: seq<Bytes>): (r: seq<Bytes>)
    ensures |r| == |lines| && forall i :: 0 <= i < |r| ==> r[i] == Piece(lines[i])
  {
    seq(|lines|, i requires 0 <= i < |lines| => Piece(lines[i]))
  }

  /** The outputs concatenate to the inputs less continuation backslashes, newlines and trailing CRs. */
  lemma {:induction false} JoinKeepsContent(pending: Option<Bytes>, lines: seq<Bytes>)
    ensures Concat(JoinFrom(pending, lines)) == Buffered(pending) + Concat(Pieces(lines))
    decreases |lines|
  {
    if lines != [] {
      var emitted, waiting := Emitted(pending, lines[0]), Waiting(pending, lines[0]);
      JoinKeepsContent(waiting, lines[1..]);
      ConcatAppend(emitted, JoinFrom(waiting, lines[1..]));
      assert Pieces(lines)[1..] == Pieces(lines[1..]);
      EmittedContent(pending, lines[0]);
      Associate(Concat(emitted), Buffered(waiting), Concat(Pieces(lines[1..])));
      Associate(Buffered(pending), Piece(lines[0]), Concat(Pieces(lines[1..])));
    }
  }

  lemma EmittedContent(pending: Option<Bytes>, line: Bytes)
    ensures Concat(Emitted(pending, line)) + Buffered(Waiting(pending, line))
         == Buffered(pending) + Piece(line)
  {
    var e := Emitted(pending, line);
    if e != [] {
      assert Concat(e) == e[0] + Concat(e[1..]);
      if |e| > 1 {
        assert Concat(e[1..]) == e[1] + Concat(e[2..]);
      }
    }
  }

  // ------------------------------------------------------- comments survive

  function Comments(lines: seq<Bytes>): seq<Bytes> {
    if lines == [] then []
    else (if LooksLikeComment(lines[0]) then [lines[0]] else []) + Comments(lines[1..])
  }

  lemma {:induction false} CommentsAppend(a: seq<Bytes>, b: seq<Bytes>)
    ensures Comments(a + b) == Comments(a) + Comments(b)
  {
    if a == [] {
      assert a + b == b;
    } else {
      assert (a + b)[1..] == a[1..] + b;
      CommentsAppend(a[1..], b);
    }
  }

  lemma {:induction false} CommentStartAppend(a: Bytes, b: Bytes)
    ensures TrimStart(a + b) == if TrimStart(a) == [] then TrimStart(b) else TrimStart(a) + b
  {
    if a == [] {
      assert a + b == b;
    } else if IsWhitespace(a[0]) {
      assert (a + b)[1..] == a[1..] + b;
      CommentStartAppend(a[1..], b);
    }
  }

  /** Gluing value text never makes a comment, nor does dropping a continuation backslash. */
  lemma GluedIsNoComment(a: Bytes, line: Bytes)
    requires !LooksLikeComment(a) && !LooksLikeComment(line)
    ensures !LooksLikeComment(Piece(line)) && !LooksLikeComment(a + Piece(line))
    ensures !LooksLikeComment(a + line)
  {
    if Continues(line) {
      var last := line[|line| - 1..];
      assert line == Piece(line) + last;
      CommentStartAppend(Piece(line), last);
    }
    CommentStartAppend(a, Piece(line));
    CommentStartAppend(a, line);
  }

  /** The comment lines among the outputs are exactly the comment lines of the input, in order. */
  lemma {:induction false} CommentsSurvive(pending: Option<Bytes>, lines: seq<Bytes>)
    requires !LooksLikeComment(Buffered(pending))
    ensures Comments(JoinFrom(pending, lines)) == Comments(lines)
    decreases |lines|
  {
    if lines == [] {
      CommentsOfFlush(pending);
    } else {
      var emitted, waiting := Emitted(pending, lines[0]), Waiting(pending, lines[0]);
      if !LooksLikeComment(lines[0]) {
        GluedIsNoComment(Buffered(pending), lines[0]);
      }
      CommentsSurvive(waiting, lines[1..]);
      CommentsAppend(emitted, JoinFrom(waiting, lines[1..]));
      if LooksLikeComment(lines[0]) {
        CommentsOfFlush(pending);
        CommentsAppend(Flush(pending), [lines[0]]);
        assert Comments([lines[0]]) == [lines[0]] + Comments([]);
      } else if emitted != [] {
        assert Comments(emitted) == Comments(emitted[1..]);
      }
    }
  }

  lemma CommentsOfFlush(pending: Option<Bytes>)
    requires !LooksLikeComment(Buffered(pending))
    ensures Comments(Flush(pending)) == []
  {
    if pending.Some? {
      assert Flush(pending)[1..] == [];
    }
  }

  // -------------------------------------------------- where joining stops

  lemma {:induction false} JoinEndsWith(pending: Option<Bytes>, line: Bytes, rest: seq<Bytes>)
    requires !Continues(line)
    ensures JoinFrom(pending, [line] + rest) == JoinFrom(pending, [line]) + JoinFrom(None, rest)
  {
    assert ([line] + rest)[1..] == rest && [line][1..] == [];
    assert Emitted(pending, line) + [] == Emitted(pending, line);
  }

  /**
   * A line that does not continue (a comment, or an even run of trailing backslashes) ends its
   * logical line: what precedes and what follows it are joined independently.
   */
  lemma {:induction false} JoinStopsAtCompleteLine(pending: Option<Bytes>, a: seq<Bytes>, b: seq<Bytes>)
    requires a != [] && !Continues(a[|a| - 1])
    ensures JoinFrom(pending, a + b) == JoinFrom(pending, a) + JoinFrom(None, b)
    decreases |a|
  {
    var waiting := Waiting(pending, a[0]);
    if |a| == 1 {
      assert a == [a[0]];
      JoinEndsWith(pending, a[0], b);
    } else {
      assert (a + b)[0] == a[0] && (a + b)[1..] == a[1..] + b;
      JoinStopsAtCompleteLine(waiting, a[1..], b);
      Associate(Emitted(pending, a[0]), JoinFrom(waiting, a[1..]), JoinFrom(None, b));
    }
  }

  /** Lines none of which continues are left alone. */
  lemma {:induction false} CompleteLinesUnchanged(lines: seq<Bytes>)
    requires forall i :: 0 <= i < |lines| ==> !Continues(lines[i])
    ensures JoinFrom(None, lines) == lines
    decreases |lines|
  {
    if lines != [] {
      CompleteLinesUnchanged(lines[1..]);
      assert [] + lines[0] == lines[0] && [lines[0]] + lines[1..] == lines;
    }
  }

  // ---------------------------------------------- splitting a line is undone

  lemma {:induction false} BackslashRunAppend(a: Bytes, b: Bytes)
    ensures TrailingBackslashes(a + b)
         == if TrailingBackslashes(b) == |b| then TrailingBackslashes(a) + |b| else TrailingBackslashes(b)
    ensures TrailingBackslashes(b) <= |b|
    decreases |b|
  {
    if b == [] {
      assert a + b == a;
    } else {
      assert (a + b)[..|a + b| - 1] == a + b[..|b| - 1];
      BackslashRunAppend(a, b[..|b| - 1]);
    }
  }

  lemma SplitLineContinues(a: Bytes)
    requires TrailingBackslashes(a) % 2 == 0 && !LooksLikeComment(a + [BACKSLASH])
    ensures Continues(a + [BACKSLASH]) && Piece(a + [BACKSLASH]) == a
  {
    BackslashRunAppend(a, [BACKSLASH]);
  }

  /** Backslashes at the end of the second part are all its own, up to an even number. */
  lemma SecondPartDecides(a: Bytes, b: Bytes)
    requires TrailingBackslashes(a) % 2 == 0
    requires !LooksLikeComment(b) && !LooksLikeComment(a + b)
    ensures Continues(a + b) == Continues(b) && Piece(a + b) == a + Piece(b)
  {
    BackslashRunAppend(a, b);
  }

  lemma SplitIsNoComment(a: Bytes, b: Bytes)
    requires !LooksLikeComment(a + b)
    ensures !LooksLikeComment(a + [BACKSLASH])
  {
    CommentStartAppend(a, b);
    CommentStartAppend(a, [BACKSLASH]);
  }

  /** Two physical lines joined by one continuation backslash read as the one line they split. */
  lemma SplitPairReadsAsOne(pending: Option<Bytes>, a: Bytes, b: Bytes, rest: seq<Bytes>)
    requires TrailingBackslashes(a) % 2 == 0
    requires !LooksLikeComment(b) && !LooksLikeComment(a + b)
    ensures JoinFrom(pending, [a + [BACKSLASH], b] + rest) == JoinFrom(pending, [a + b] + rest)
  {
    var first := a + [BACKSLASH];
    SplitIsNoComment(a, b);
    SplitLineContinues(a);
    SecondPartDecides(a, b);
    var split, whole := [first, b] + rest, [a + b] + rest;
    assert split[1..] == [b] + rest && ([b] + rest)[1..] == rest && whole[1..] == rest;
    var waiting := Waiting(pending, first);
    assert JoinFrom(pending, split) == JoinFrom(waiting, [b] + rest);
    Associate(Buffered(pending), a, b);
    Associate(Buffered(pending), a, Piece(b));
  }

  lemma {:induction false} SplitAnywhereReadsAsOne(pending: Option<Bytes>, before: seq<Bytes>,
                                                   a: Bytes, b: Bytes, rest: seq<Bytes>)
    requires TrailingBackslashes(a) % 2 == 0
    requires !LooksLikeComment(b) && !LooksLikeComment(a + b)
    ensures JoinFrom(pending, before + ([a + [BACKSLASH], b] + rest))
         == JoinFrom(pending, before + ([a + b] + rest))
    decreases |before|
  {
    var split, whole := [a + [BACKSLASH], b] + rest, [a + b] + rest;
    if before == [] {
      assert before + split == split && before + whole == whole;
      SplitPairReadsAsOne(pending, a, b, rest);
    } else {
      assert (before + split)[1..] == before[1..] + split && (before + whole)[1..] == before[1..] + whole;
      SplitAnywhereReadsAsOne(Waiting(pending, before[0]), before[1..], a, b, rest);
    }
  }

  // ------------------------------------------------------------ in the file

  /** A line, its newline, and the rest split into that line and the lines of the rest. */
  lemma {:induction false} SplitAtNewline(line: Bytes, rest: Bytes)
    requires NEWLINE !in line
    ensures SplitNewlines(line + [NEWLINE] + rest) == [line] + SplitNewlines(rest)
  {
    var s := line + [NEWLINE] + rest;
    if line == [] {
      assert s == [NEWLINE] + rest && s[1..] == rest;
    } else {
      assert s[1..] == line[1..] + [NEWLINE] + rest;
      SplitAtNewline(line[1..], rest);
      assert [line[0]] + line[1..] == line;
    }
  }

  lemma {:induction false} SplitLast(line: Bytes)
    requires NEWLINE !in line
    ensures SplitNewlines(line) == [line]
  {
    if line != [] {
      SplitLast(line[1..]);
      assert [line[0]] + line[1..] == line;
    }
  }

  lemma StripAllAppend(a: seq<Bytes>, b: seq<Bytes>)
    ensures StripAll(a + b) == StripAll(a) + StripAll(b)
  {
  }

  lemma LinesAtNewline(line: Bytes, rest: Bytes)
    requires NEWLINE !in line
    ensures Lines(line + [NEWLINE] + rest) == [StripCr(line)] + Lines(rest)
  {
    SplitAtNewline(line, rest);
    StripAllAppend([line], SplitNewlines(rest));
  }

  /** A file text that ends where a line ends: empty, or closed by a newline. */
  predicate WholeLines(text: Bytes) {
    text == [] || text[|text| - 1] == NEWLINE
  }

  lemma CutAt(text: Bytes, i: nat, rest: Bytes)
    requires i < |text|
    ensures text + rest == text[..i] + [text[i]] + (text[i + 1..] + rest)
  {
  }

  /** The lines of a text made of whole lines. */
  function ClosedLines(text: Bytes): seq<Bytes>
    requires WholeLines(text)
  {
    if text == [] then []
    else
      var end := FirstIndex(text, NEWLINE);
      [StripCr(text[..end])] + ClosedLines(text[end + 1..])
  }

  lemma {:induction false} LinesAfterWholeLines(text: Bytes, rest: Bytes)
    requires WholeLines(text)
    ensures Lines(text + rest) == ClosedLines(text) + Lines(rest)
    decreases |text|
  {
    if text == [] {
      assert text + rest == rest;
    } else {
      var end := FirstIndex(text, NEWLINE);
      var line, tail := text[..end], text[end + 1..];
      LinesAfterWholeLines(tail, rest);
      CutAt(text, end, rest);
      LinesAtNewline(line, tail + rest);
      Associate([StripCr(line)], ClosedLines(tail), Lines(rest));
    }
  }

  /** What may follow a line's text: nothing, at the end of a file, or a newline and the rest. */
  predicate EndsLine(tail: Bytes) {
    tail == [] || tail[0] == NEWLINE
  }

  /** The lines after the one a tail ends. */
  function LinesAfter(tail: Bytes): seq<Bytes> {
    if tail == [] then [] else Lines(tail[1..])
  }

  lemma {:induction false} LinesBefore(line: Bytes, tail: Bytes)
    requires NEWLINE !in line && EndsLine(tail)
    ensures Lines(line + tail) == [StripCr(line)] + LinesAfter(tail)
  {
    if tail == [] {
      SplitLast(line);
      assert line + tail == line;
    } else {
      assert line + tail == line + [NEWLINE] + tail[1..];
      LinesAtNewline(line, tail[1..]);
    }
  }

  lemma {:induction false} LinesOfSplit(a: Bytes, b: Bytes, tail: Bytes)
    requires NEWLINE !in a && NEWLINE !in b && EndsLine(tail)
    ensures Lines(a + [BACKSLASH] + [NEWLINE] + (b + tail)) == [a + [BACKSLASH], StripCr(b)] + LinesAfter(tail)
  {
    LinesAtNewline(a + [BACKSLASH], b + tail);
    LinesBefore(b, tail);
    assert StripCr(a + [BACKSLASH]) == a + [BACKSLASH];
  }

  lemma {:induction false} LinesOfWhole(a: Bytes, b: Bytes, tail: Bytes)
    requires NEWLINE !in a && NEWLINE !in b && EndsLine(tail)
    requires b == [] ==> StripCr(a) == a
    ensures Lines(a + b + tail) == [a + StripCr(b)] + LinesAfter(tail)
  {
    LinesBefore(a + b, tail);
    if b == [] {
      assert a + b == a;
    } else if StripCr(b) != b {
      assert (a + b)[..|a + b| - 1] == a + StripCr(b);
    }
  }

  /**
   * Splitting a value line by a backslash and a newline is undone, wherever the line stands, the
   * unterminated last line of a file included, when the first part ends in an even run of
   * backslashes, the second does not look like a comment, and a carriage return that ended the
   * line is not left at the end of the first part.
   */
  lemma {:induction false} ContinuationUndone(text: Bytes, a: Bytes, b: Bytes, tail: Bytes)
    requires WholeLines(text) && NEWLINE !in a && NEWLINE !in b && EndsLine(tail)
    requires TrailingBackslashes(a) % 2 == 0
    requires !LooksLikeComment(b) && !LooksLikeComment(a + b)
    requires b == [] ==> StripCr(a) == a
    ensures JoinLines(text + (a + [BACKSLASH] + [NEWLINE] + (b + tail))) == JoinLines(text + (a + b + tail))
  {
    LinesAfterWholeLines(text, a + [BACKSLASH] + [NEWLINE] + (b + tail));
    LinesAfterWholeLines(text, a + b + tail);
    LinesOfSplit(a, b, tail);
    LinesOfWhole(a, b, tail);
    StripKeepsComment(b);
    StripKeepsGluedComment(a, b);
    SplitAnywhereReadsAsOne(None, ClosedLines(text), a, StripCr(b), LinesAfter(tail));
  }

  lemma StripKeepsGluedComment(a: Bytes, b: Bytes)
    ensures LooksLikeComment(a + StripCr(b)) == LooksLikeComment(a + b)
  {
    CommentStartAppend(a, b);
    CommentStartAppend(a, StripCr(b));
    StripKeepsComment(b);
  }

  lemma StripKeepsComment(line: Bytes)
    ensures LooksLikeComment(StripCr(line)) == LooksLikeComment(line)
  {
    if StripCr(line) != line {
      assert line == StripCr(line) + [CARRIAGE_RETURN];
      CommentStartAppend(StripCr(line), [CARRIAGE_RETURN]);
    }
  }
}
