/** `SourceManifestBuilder` as it runs: a recursive sorted walk that feeds one hasher under two caps. */
module ManifestBuilder {
  import opened Common
  import opened Encoding
  import opened Sorting
  import opened SourceTree
  import opened SourceManifest

  datatype ManifestError =
    | RootNotDirectory
    | TooManyEntries
    | TooManyBytes
    | FileChanged
    | ForbiddenSymlink
    | UnsupportedFileType
    | IoError

  /** The manifest with the hash preimage in place of its digest. */
  datatype SourceTreeManifest = SourceTreeManifest(stream: seq<byte>, entries: nat, bytes: nat)

  // ------------------------------------------------- when a walk succeeds

  /** Only directories and files whose size is what their metadata says. */
  predicate AllRegular(names: seq<Name>, entries: seq<DirEntry>, relative: seq<Name>)
    requires forall n :: n in names ==> n in NamesOf(entries)
    decreases entries, 1 + |names|
  {
    names == [] ||
    (RegularAt(names[0], entries, relative) && AllRegular(names[1..], entries, relative))
  }

  predicate RegularAt(name: Name, entries: seq<DirEntry>, relative: seq<Name>)
    requires name in NamesOf(entries)
    decreases entries, 0
  {
    Skipped(relative + [name]) ||
    match Child(entries, name)
    case Directory(_, children) => AllRegular(SortedNames(children), children, relative + [name])
    case File(_, length, bytes) => length == |bytes|
    case _ => false
  }

  function TotalBytes(records: seq<Record>): nat {
    if records == [] then 0
    else (if records[0].content.Bytes? then |records[0].content.bytes| else 0) + TotalBytes(records[1..])
  }

  lemma {:induction false} TotalBytesAppend(a: seq<Record>, b: seq<Record>)
    ensures TotalBytes(a + b) == TotalBytes(a) + TotalBytes(b)
  {
    if a == [] {
      assert a + b == b;
    } else {
      assert (a + b)[1..] == a[1..] + b;
      TotalBytesAppend(a[1..], b);
    }
  }

  /** Records that still fit under both caps. */
  predicate Fits(entries: nat, bytes: nat, records: seq<Record>) {
    && entries + |records| <= MAX_SOURCE_MANIFEST_ENTRIES
    && bytes + TotalBytes(records) <= MAX_SOURCE_MANIFEST_BYTES
  }

  /** Every entry of a regular directory below the root has at least one record. */
  lemma {:induction false} RecordPerEntry(names: seq<Name>, entries: seq<DirEntry>, relative: seq<Name>)
    requires forall n :: n in names ==> n in NamesOf(entries)
    requires relative != [] && AllRegular(names, entries, relative)
    ensures |RecordsOf(names, entries, relative)| >= |names|
  {
    if names != [] {
      RecordPerEntry(names[1..], entries, relative);
    }
  }

  lemma SortedNamesLength(entries: seq<DirEntry>)
    ensures |SortedNames(entries)| == |entries|
  {
    NameOrderIsTotal();
    SortSorts(NameOrder(), NamesOf(entries));
  }

  function SaturatingAdd(a: nat, b: nat): nat {
    Min(a + b, U64 - 1)
  }

  class SourceManifestBuilder {
    var stream: seq<byte>
    var entries: nat
    var bytes: nat

    ghost predicate Valid()
      reads this
    {
      entries <= MAX_SOURCE_MANIFEST_ENTRIES && bytes <= MAX_SOURCE_MANIFEST_BYTES
    }

    constructor (mode: nat)
      ensures Valid() && stream == Header(mode) && entries == 0 && bytes == 0
    {
      stream, entries, bytes := Header(mode), 0, 0;
    }

    method AccountEntry() returns (ok: bool)
      requires Valid()
      modifies this`entries
      ensures ok <==> old(entries) + 1 <= MAX_SOURCE_MANIFEST_ENTRIES
      ensures ok ==> entries == old(entries) + 1
    {
      entries := SaturatingAdd(entries, 1);
      ok := entries <= MAX_SOURCE_MANIFEST_ENTRIES;
    }

    method AccountBytes(n: nat) returns (ok: bool)
      requires Valid()
      modifies this`bytes
      ensures ok <==> old(bytes) + n <= MAX_SOURCE_MANIFEST_BYTES
      ensures ok ==> bytes == old(bytes) + n
    {
      bytes := SaturatingAdd(bytes, n);
      ok := bytes <= MAX_SOURCE_MANIFEST_BYTES;
    }

    /** Feeds a file's metadata length and then its bytes, a buffer at a time. */
    method HashFile(length: nat, content: seq<byte>) returns (observed: nat)
      modifies this`stream
      ensures stream == old(stream) + (LittleEndian(length, 8) + content) && observed == |content|
    {
      stream := stream + LittleEndian(length, 8);
      ghost var start := stream;
      observed := 0;
      while observed < |content|
        invariant observed <= |content| && stream == start + content[..observed]
      {
        var read := Min(32 * 1024, |content| - observed);
        stream := stream + content[observed..observed + read];
        assert content[..observed + read] == content[..observed] + content[observed..observed + read];
        observed := observed + read;
      }
      assert content[..observed] == content;
    }

    /** Everything one visited entry adds, and exactly when visiting it succeeds. */
    method VisitEntry(name: Name, siblings: seq<DirEntry>, relative: seq<Name>)
      returns (r: Result<(), ManifestError>)
      requires Valid() && name in NamesOf(siblings)
      modifies this
      ensures r.Ok? <==> RegularAt(name, siblings, relative)
                         && Fits(old(entries), old(bytes), RecordsAt(name, siblings, relative))
      ensures r.Ok? ==>
                var records := RecordsAt(name, siblings, relative);
                && Valid()
                && stream == old(stream) + EncodeAll(records)
                && entries == old(entries) + |records|
                && bytes == old(bytes) + TotalBytes(records)
      decreases siblings, 0
    {
      var path := relative + [name];
      if Skipped(path) {
        return Ok(());
      }
      var counted := AccountEntry();
      if !counted {
        return Err(TooManyEntries);
      }
      match Child(siblings, name) {
        case Directory(mode, children) =>
          ghost var head := Record(path, mode, Dir);
          ghost var below := RecordsOf(SortedNames(children), children, path);
          OneRecord(head, below);
          Associate(stream, Encode(head), EncodeAll(below));
          SortedNamesLength(children);
          if AllRegular(SortedNames(children), children, path) {
            RecordPerEntry(SortedNames(children), children, path);
          }
          stream := stream + (PrefixedLittle(PathBytes(path)) + LittleEndian(mode, 4) + DIRECTORY_TAG);
          r := WalkDirectory(children, path);
        case File(mode, length, content) =>
          ghost var record := Record(path, mode, Bytes(content));
          OneRecord(record, []);
          assert [record] + [] == [record];
          FileRecord(path, mode, content);
          Associate(stream, FileHead(path, mode), PrefixedLittle(content));
          var fits := AccountBytes(length);
          if !fits {
            return Err(TooManyBytes);
          }
          stream := stream + FileHead(path, mode);
          var observed := HashFile(length, content);
          if observed != length {
            return Err(FileChanged);
          }
          return Ok(());
        case Symlink(_) => return Err(ForbiddenSymlink);
        case Special(_) => return Err(UnsupportedFileType);
        case Unreadable => return Err(IoError);
      }
    }

    /** Walks one directory in name order. */
    method WalkDirectory(children: seq<DirEntry>, relative: seq<Name>)
      returns (r: Result<(), ManifestError>)
      requires Valid()
      modifies this
      ensures r.Ok? <==>
                var records := RecordsOf(SortedNames(children), children, relative);
                && AllRegular(SortedNames(children), children, relative)
                && Fits(old(entries), old(bytes), records)
                && old(entries) + |children| <= MAX_SOURCE_MANIFEST_ENTRIES
      ensures r.Ok? ==>
                var records := RecordsOf(SortedNames(children), children, relative);
                && Valid()
                && stream == old(stream) + EncodeAll(records)
                && entries == old(entries) + |records|
                && bytes == old(bytes) + TotalBytes(records)
      decreases children, 1
    {
      if entries + |children| > MAX_SOURCE_MANIFEST_ENTRIES {
        return Err(TooManyEntries);
      }
      var names := SortedNames(children);
      ghost var e, b, s := entries, bytes, stream;
      for i := 0 to |names|
        invariant Valid()
        invariant AllRegular(names[i..], children, relative) <==> AllRegular(names, children, relative)
        invariant Progress(e, b, s, RecordsOf(names, children, relative),
                           entries, bytes, stream, RecordsOf(names[i..], children, relative))
      {
        ghost var here := RecordsAt(names[i], children, relative);
        ghost var rest := RecordsOf(names[i + 1..], children, relative);
        assert names[i..][0] == names[i] && names[i..][1..] == names[i + 1..];
        ProgressStep(e, b, s, RecordsOf(names, children, relative), entries, bytes, stream, here, rest);
        r := VisitEntry(names[i], children, relative);
        if r.Err? {
          return;
        }
      }
      return Ok(());
    }
  }

  /** `done` so far plus what is left makes up the whole. */
  ghost predicate Progress(e: nat, b: nat, s: seq<byte>, whole: seq<Record>,
                           entries: nat, bytes: nat, stream: seq<byte>, left: seq<Record>)
  {
    && e + |whole| == entries + |left|
    && b + TotalBytes(whole) == bytes + TotalBytes(left)
    && s + EncodeAll(whole) == stream + EncodeAll(left)
  }

  lemma {:induction false} ProgressStep(e: nat, b: nat, s: seq<byte>, whole: seq<Record>,
                     entries: nat, bytes: nat, stream: seq<byte>, here: seq<Record>, rest: seq<Record>)
    requires Progress(e, b, s, whole, entries, bytes, stream, here + rest)
    ensures Progress(e, b, s, whole, entries + |here|, bytes + TotalBytes(here),
                     stream + EncodeAll(here), rest)
    ensures Fits(e, b, whole) ==> Fits(entries, bytes, here)
  {
    TotalBytesAppend(here, rest);
    EncodeAllAppend(here, rest);
    Associate(stream, EncodeAll(here), EncodeAll(rest));
  }

  /** What is hashed of a file before its length. */
  function FileHead(path: seq<Name>, mode: nat): seq<byte> {
    PrefixedLittle(PathBytes(path)) + LittleEndian(mode, 4) + FILE_TAG
  }

  lemma FileRecord(path: seq<Name>, mode: nat, content: seq<byte>)
    ensures Encode(Record(path, mode, Bytes(content))) == FileHead(path, mode) + PrefixedLittle(content)
  {
    Associate(PrefixedLittle(PathBytes(path)) + LittleEndian(mode, 4), FILE_TAG, PrefixedLittle(content));
  }

  lemma OneRecord(r: Record, rest: seq<Record>)
    ensures EncodeAll([r] + rest) == Encode(r) + EncodeAll(rest)
    ensures TotalBytes([r] + rest) == (if r.content.Bytes? then |r.content.bytes| else 0) + TotalBytes(rest)
    ensures EncodeAll([]) == []
  {
    assert Encodings([r] + rest)[0] == Encode(r) && Encodings([r] + rest)[1..] == Encodings(rest);
    assert ([r] + rest)[1..] == rest;
  }
}
