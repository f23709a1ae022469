/** The byte stream a source manifest hashes, the walk that feeds it, and why it pins the tree. */
module SourceManifest {
  import opened Common
  import opened Encoding
  import opened SourceTree

  const MAX_SOURCE_MANIFEST_ENTRIES: nat := 100_000
  const MAX_SOURCE_MANIFEST_BYTES: nat := 1024 * 1024 * 1024

  // ------------------------------------------------------------ the stream

  /** `impulse-source-manifest-v1` and a NUL byte. */
  const MAGIC: seq<byte> :=
    [105, 109, 112, 117, 108, 115, 101, 45, 115, 111, 117, 114, 99, 101, 45, 109, 97, 110, 105, 102, 101, 115, 116, 45, 118, 49, 0]
  /** `directory` and a NUL byte; `file` and a NUL byte. */
  const DIRECTORY_TAG: seq<byte> := [100, 105, 114, 101, 99, 116, 111, 114, 121, 0]
  const FILE_TAG: seq<byte> := [102, 105, 108, 101, 0]

  /** A relative path as the operating system spells it. */
  function PathBytes(path: seq<Name>): seq<byte> {
    if path == [] then []
    else if |path| == 1 then path[0]
    else PathBytes(path[..|path| - 1]) + [SLASH] + path[|path| - 1]
  }

  function ContentBytes(content: Content): seq<byte> {
    match content
    case Dir => DIRECTORY_TAG
    case Bytes(bytes) => FILE_TAG + PrefixedLittle(bytes)
  }

  function Encode(r: Record): seq<byte> {
    PrefixedLittle(PathBytes(r.path)) + LittleEndian(r.mode, 4) + ContentBytes(r.content)
  }

  function Encodings(records: seq<Record>): (parts: seq<seq<byte>>)
    ensures |parts| == |records| && forall i :: 0 <= i < |parts| ==> parts[i] == Encode(records[i])
  {
    seq(|records|, i requires 0 <= i < |records| => Encode(records[i]))
  }

  function EncodeAll(records: seq<Record>): seq<byte> {
    Concat(Encodings(records))
  }

  function Header(mode: nat): seq<byte> {
    MAGIC + LittleEndian(mode, 4)
  }

  /** The whole preimage for a root directory. */
  function Stream(mode: nat, entries: seq<DirEntry>): seq<byte> {
    Header(mode) + EncodeAll(RecordsOf(SortedNames(entries), entries, []))
  }

  lemma EncodingsAppend(a: seq<Record>, b: seq<Record>)
    ensures Encodings(a + b) == Encodings(a) + Encodings(b)
  {
  }

  lemma EncodeAllAppend(a: seq<Record>, b: seq<Record>)
    ensures EncodeAll(a + b) == EncodeAll(a) + EncodeAll(b)
  {
    EncodingsAppend(a, b);
    ConcatAppend(Encodings(a), Encodings(b));
  }

  // --------------------------------------------------- reading a stream back

  ghost predicate ValidPath(path: seq<Name>) {
    path != [] && (forall i :: 0 <= i < |path| ==> ValidName(path[i])) && |PathBytes(path)| < U64
  }

  ghost predicate ValidRecord(r: Record) {
    ValidPath(r.path) && r.mode < U32 && (r.content.Bytes? ==> |r.content.bytes| < U64)
  }

  lemma {:induction false} PathBytesInjective(p: seq<Name>, q: seq<Name>)
    requires p != [] && q != []
    requires forall i :: 0 <= i < |p| ==> ValidName(p[i])
    requires forall i :: 0 <= i < |q| ==> ValidName(q[i])
    requires PathBytes(p) == PathBytes(q)
    ensures p == q
  {
    var p0, q0 := p[..|p| - 1], q[..|q| - 1];
    var x, y := p[|p| - 1], q[|q| - 1];
    assert p == p0 + [x] && q == q0 + [y];
    if |p| > 1 && |q| > 1 {
      LastSeparatorSplits(SLASH, PathBytes(p0), x, PathBytes(q0), y);
      PathBytesInjective(p0, q0);
    } else {
      assert |p| > 1 ==> SLASH in PathBytes(p);
      assert |q| > 1 ==> SLASH in PathBytes(q);
    }
  }

  /** The tag that tells a directory from a file. */
  function Tag(c: Content): seq<byte> {
    if c.Dir? then DIRECTORY_TAG else FILE_TAG
  }

  function Payload(c: Content): seq<byte> {
    if c.Dir? then [] else PrefixedLittle(c.bytes)
  }

  lemma TagThenPayload(c: Content, x: seq<byte>)
    ensures ContentBytes(c) + x == Tag(c) + (Payload(c) + x)
  {
    if c.Dir? {
      assert [] + x == x;
    } else {
      Associate(FILE_TAG, PrefixedLittle(c.bytes), x);
    }
  }

  lemma TagsDiffer(a: Content, x: seq<byte>, b: Content, y: seq<byte>)
    requires Tag(a) + x == Tag(b) + y
    ensures a.Dir? == b.Dir? && x == y
  {
    assert (Tag(a) + x)[0] == Tag(a)[0] && (Tag(b) + y)[0] == Tag(b)[0];
    SplitEqual(Tag(a), x, Tag(b), y);
  }

  lemma ContentBytesSplit(a: Content, x: seq<byte>, b: Content, y: seq<byte>)
    requires (a.Bytes? ==> |a.bytes| < U64) && (b.Bytes? ==> |b.bytes| < U64)
    requires ContentBytes(a) + x == ContentBytes(b) + y
    ensures a == b && x == y
  {
    TagThenPayload(a, x);
    TagThenPayload(b, y);
    TagsDiffer(a, Payload(a) + x, b, Payload(b) + y);
    if a.Dir? {
      assert [] + x == x && [] + y == y;
    } else {
      PrefixedLittleSplits(a.bytes, x, b.bytes, y);
    }
  }

  /** A record is self-delimiting: whatever follows, it can be read back. */
  lemma EncodeSplits(r: Record, x: seq<byte>, s: Record, y: seq<byte>)
    requires ValidRecord(r) && ValidRecord(s)
    requires Encode(r) + x == Encode(s) + y
    ensures r == s && x == y
  {
    var rPath, rMode, rContent := PathBytes(r.path), LittleEndian(r.mode, 4), ContentBytes(r.content);
    var sPath, sMode, sContent := PathBytes(s.path), LittleEndian(s.mode, 4), ContentBytes(s.content);
    Reassociate(PrefixedLittle(rPath), rMode, rContent, x);
    Reassociate(PrefixedLittle(sPath), sMode, sContent, y);
    PrefixedLittleSplits(rPath, rMode + (rContent + x), sPath, sMode + (sContent + y));
    PathBytesInjective(r.path, s.path);
    SplitEqual(rMode, rContent + x, sMode, sContent + y);
    Powers();
    LittleEndianInjective(r.mode, s.mode, 4);
    ContentBytesSplit(r.content, x, s.content, y);
  }

  lemma EncodeAllStep(records: seq<Record>)
    ensures records == [] ==> EncodeAll(records) == []
    ensures records != [] ==> EncodeAll(records) == Encode(records[0]) + EncodeAll(records[1..])
                              && EncodeAll(records) != []
  {
    if records != [] {
      assert Encodings(records)[1..] == Encodings(records[1..]);
      assert |Encode(records[0])| > 0;
    }
  }

  lemma {:induction false} EncodeAllInjective(a: seq<Record>, b: seq<Record>)
    requires forall r :: r in a ==> ValidRecord(r)
    requires forall r :: r in b ==> ValidRecord(r)
    requires EncodeAll(a) == EncodeAll(b)
    ensures a == b
  {
    EncodeAllStep(a);
    EncodeAllStep(b);
    if a != [] && b != [] {
      EncodeSplits(a[0], EncodeAll(a[1..]), b[0], EncodeAll(b[1..]));
      EncodeAllInjective(a[1..], b[1..]);
      assert a == [a[0]] + a[1..] && b == [b[0]] + b[1..];
    }
  }

  // ------------------------------------------------- the stream pins the tree

  /** The same paths, modes, kinds and file bytes, the root's `.git` aside. */
  ghost predicate SameTree(a: seq<DirEntry>, b: seq<DirEntry>) {
    forall path :: path != [] && path[0] != DOT_GIT ==> Find(a, path) == Find(b, path)
  }

  ghost predicate ListsValidRecords(entries: seq<DirEntry>) {
    forall r :: r in RecordsOf(SortedNames(entries), entries, []) ==> ValidRecord(r)
  }

  /** No path is 2^64 bytes long. */
  ghost predicate PathsFit(entries: seq<DirEntry>) {
    forall path :: Find(entries, path).Some? ==> |PathBytes(path)| < U64
  }

  lemma {:induction false} NothingUnderDotGit(names: seq<Name>, entries: seq<DirEntry>, r: Record)
    requires forall n :: n in names ==> n in NamesOf(entries)
    requires r in RecordsOf(names, entries, [])
    ensures r.path != [] && r.path[0] != DOT_GIT
    decreases |names|
  {
    assert [] + [names[0]] == [names[0]];
    if r in RecordsAt(names[0], entries, []) {
      match Child(entries, names[0])
      case Directory(_, children) => RecordsSitBelow(SortedNames(children), children, [names[0]]);
      case _ =>
    } else {
      NothingUnderDotGit(names[1..], entries, r);
    }
  }

  lemma {:induction false} FoundIsStorable(entries: seq<DirEntry>, path: seq<Name>)
    requires WellFormedEntries(entries) && Find(entries, path).Some?
    ensures path != [] && forall i :: 0 <= i < |path| ==> ValidName(path[i])
    ensures var (mode, content) := Find(entries, path).value;
            mode < U32 && (content.Bytes? ==> |content.bytes| < U64)
    decreases entries
  {
    var k :| 0 <= k < |entries| && entries[k] == DirEntry(path[0], Child(entries, path[0]));
    assert ValidName(path[0]) && WellFormed(entries[k].node);
    if |path| > 1 {
      FoundIsStorable(Child(entries, path[0]).entries, path[1..]);
      assert forall i :: 0 < i < |path| ==> path[i] == path[1..][i - 1];
    }
  }

  /** What every file system guarantees is enough for the records to be encoded faithfully. */
  lemma {:induction false} WellFormedListsValidRecords(entries: seq<DirEntry>)
    requires WellFormedEntries(entries) && PathsFit(entries)
    ensures ListsValidRecords(entries)
  {
    forall r | r in RecordsOf(SortedNames(entries), entries, []) ensures ValidRecord(r) {
      NothingUnderDotGit(SortedNames(entries), entries, r);
      assert [] + [r.path[0]] == [r.path[0]] && [] + r.path == r.path;
      RecordsAreFindings(SortedNames(entries), entries, [], r.path, r.mode, r.content);
      FoundIsStorable(entries, r.path);
    }
  }

  lemma SameRecordsSameTree(a: seq<DirEntry>, b: seq<DirEntry>)
    requires RecordsOf(SortedNames(a), a, []) == RecordsOf(SortedNames(b), b, [])
    ensures SameTree(a, b)
  {
    forall path | path != [] && path[0] != DOT_GIT ensures Find(a, path) == Find(b, path) {
      FoundInBoth(a, b, path);
      FoundInBoth(b, a, path);
    }
  }

  lemma {:induction false} FoundInBoth(a: seq<DirEntry>, b: seq<DirEntry>, path: seq<Name>)
    requires path != [] && path[0] != DOT_GIT
    requires RecordsOf(SortedNames(a), a, []) == RecordsOf(SortedNames(b), b, [])
    ensures Find(a, path).Some? ==> Find(b, path) == Find(a, path)
  {
    assert [] + [path[0]] == [path[0]] && [] + path == path;
    if Find(a, path).Some? {
      var (mode, content) := Find(a, path).value;
      RecordsAreFindings(SortedNames(a), a, [], path, mode, content);
      RecordsAreFindings(SortedNames(b), b, [], path, mode, content);
    }
  }

  /** Equal streams come from equal trees, whatever order the directories were read in. */
  lemma {:induction false} StreamPinsTree(modeA: nat, a: seq<DirEntry>, modeB: nat, b: seq<DirEntry>)
    requires modeA < U32 && modeB < U32
    requires WellFormedEntries(a) && WellFormedEntries(b) && PathsFit(a) && PathsFit(b)
    requires Stream(modeA, a) == Stream(modeB, b)
    ensures modeA == modeB && SameTree(a, b)
  {
    var ra, rb := RecordsOf(SortedNames(a), a, []), RecordsOf(SortedNames(b), b, []);
    SplitEqual(Header(modeA), EncodeAll(ra), Header(modeB), EncodeAll(rb));
    SplitEqual(MAGIC, LittleEndian(modeA, 4), MAGIC, LittleEndian(modeB, 4));
    Powers();
    LittleEndianInjective(modeA, modeB, 4);
    WellFormedListsValidRecords(a);
    WellFormedListsValidRecords(b);
    EncodeAllInjective(ra, rb);
    SameRecordsSameTree(a, b);
  }
}
