/** A source tree as the manifest walk finds it, the records it yields, and what they determine. */
module SourceTree {
  import opened Common
  import opened Encoding
  import opened Sorting

  type Name = seq<byte>

  const SLASH: byte := 47
  const DOT_GIT: Name := [46, 103, 105, 116]

  /** A file-system object; directory entries come in the order `read_dir` returns them. */
  datatype Node =
    | Directory(mode: nat, entries: seq<DirEntry>)
    /** `length` is what the metadata says, `bytes` what reading the file gives. */
    | File(mode: nat, length: nat, bytes: seq<byte>)
    | Symlink(mode: nat)
    | Special(mode: nat)
    /** Inspecting or reading it fails. */
    | Unreadable

  datatype DirEntry = DirEntry(name: Name, node: Node)

  function NamesOf(entries: seq<DirEntry>): (names: seq<Name>)
    ensures |names| == |entries| && forall i :: 0 <= i < |names| ==> names[i] == entries[i].name
  {
    seq(|entries|, i requires 0 <= i < |entries| => entries[i].name)
  }

  predicate ValidName(name: Name) {
    name != [] && SLASH !in name && |name| < U32
  }

  /** What every file system guarantees, with a 64-bit address space for paths and lengths. */
  ghost predicate WellFormed(node: Node)
    decreases node
  {
    match node
    case Directory(mode, entries) => mode < U32 && WellFormedEntries(entries)
    case File(mode, length, bytes) => mode < U32 && length < U64 && |bytes| < U64
    case _ => true
  }

  ghost predicate WellFormedEntries(entries: seq<DirEntry>)
    decreases entries
  {
    && Distinct(NamesOf(entries))
    && (forall i :: 0 <= i < |entries| ==> ValidName(entries[i].name))
    && (forall i :: 0 <= i < |entries| ==> WellFormed(entries[i].node))
  }

  function Child(entries: seq<DirEntry>, name: Name): (node: Node)
    requires name in NamesOf(entries)
    ensures exists i :: 0 <= i < |entries| && entries[i] == DirEntry(name, node)
  {
    if entries[0].name == name then entries[0].node
    else
      assert NamesOf(entries)[1..] == NamesOf(entries[1..]);
      Child(entries[1..], name)
  }

  // ------------------------------------------------------------ name order

  function ByteRank(b: byte): int { b }

  function NameOrder(): (le: (Name, Name) -> bool) {
    (a, b) => LexLe(ByteRank, a, b)
  }

  lemma NameOrderIsTotal()
    ensures TotalOrder(NameOrder())
  {
    LexIsTotalOrder(ByteRank, NameOrder());
  }

  /** Entry names in the order the walk visits them. */
  function SortedNames(entries: seq<DirEntry>): (names: seq<Name>)
    ensures forall n :: n in names <==> n in NamesOf(entries)
  {
    NameOrderIsTotal();
    assert forall n :: n in Sort(NameOrder(), NamesOf(entries)) <==> n in NamesOf(entries) by {
      forall n ensures n in Sort(NameOrder(), NamesOf(entries)) <==> n in NamesOf(entries) {
        MembershipOfSort(NameOrder(), NamesOf(entries), n);
      }
    }
    Sort(NameOrder(), NamesOf(entries))
  }

  // --------------------------------------------------------------- records

  datatype Content = Dir | Bytes(bytes: seq<byte>)

  /** One manifest line: where, with which mode, and what. */
  datatype Record = Record(path: seq<Name>, mode: nat, content: Content)

  /** The root's `.git` is the one entry left out. */
  predicate Skipped(path: seq<Name>) {
    path == [DOT_GIT]
  }

  /** The records of `names` under `relative`, depth first. */
  function RecordsOf(names: seq<Name>, entries: seq<DirEntry>, relative: seq<Name>): seq<Record>
    requires forall n :: n in names ==> n in NamesOf(entries)
    decreases entries, 1 + |names|
  {
    if names == [] then []
    else RecordsAt(names[0], entries, relative) + RecordsOf(names[1..], entries, relative)
  }

  function RecordsAt(name: Name, entries: seq<DirEntry>, relative: seq<Name>): seq<Record>
    requires name in NamesOf(entries)
    decreases entries, 0
  {
    var path := relative + [name];
    if Skipped(path) then []
    else
      match Child(entries, name)
      case Directory(mode, children) =>
        [Record(path, mode, Dir)] + RecordsOf(SortedNames(children), children, path)
      case File(mode, _, bytes) => [Record(path, mode, Bytes(bytes))]
      case _ => []
  }

  /** What stands at `path` under `entries`: mode, kind and file bytes, or nothing. */
  function Find(entries: seq<DirEntry>, path: seq<Name>): Option<(nat, Content)>
    decreases entries
  {
    if path == [] || path[0] !in NamesOf(entries) then None
    else
      match Child(entries, path[0])
      case Directory(mode, children) =>
        if |path| == 1 then Some((mode, Dir)) else Find(children, path[1..])
      case File(mode, _, bytes) => if |path| == 1 then Some((mode, Bytes(bytes))) else None
      case _ => None
  }

  // ------------------------------------- records say what stands at each path

  lemma {:induction false} RecordsSitBelow(names: seq<Name>, entries: seq<DirEntry>, relative: seq<Name>)
    requires forall n :: n in names ==> n in NamesOf(entries)
    ensures forall r :: r in RecordsOf(names, entries, relative) ==>
              |r.path| > |relative| && relative <= r.path && r.path[|relative|] in names
    decreases entries, 1 + |names|
  {
    if names != [] {
      RecordsSitBelow(names[1..], entries, relative);
      var path := relative + [names[0]];
      if !Skipped(path) {
        match Child(entries, names[0])
        case Directory(mode, children) => RecordsSitBelow(SortedNames(children), children, path);
        case _ =>
      }
    }
  }

  /** A record for `relative + path` is listed exactly when that is what stands there. */
  lemma {:induction false} RecordsAreFindings(names: seq<Name>, entries: seq<DirEntry>, relative: seq<Name>,
                                              path: seq<Name>, mode: nat, content: Content)
    requires forall n :: n in names ==> n in NamesOf(entries)
    requires path != [] && !Skipped(relative + [path[0]])
    ensures Record(relative + path, mode, content) in RecordsOf(names, entries, relative)
       <==> path[0] in names && Find(entries, path) == Some((mode, content))
    decreases entries, 1 + |names|
  {
    if names != [] {
      RecordsAreFindings(names[1..], entries, relative, path, mode, content);
      RecordAtIsFinding(names[0], entries, relative, path, mode, content);
    }
  }

  lemma {:induction false} RecordAtIsFinding(name: Name, entries: seq<DirEntry>, relative: seq<Name>,
                                             path: seq<Name>, mode: nat, content: Content)
    requires name in NamesOf(entries)
    requires path != [] && !Skipped(relative + [path[0]])
    ensures Record(relative + path, mode, content) in RecordsAt(name, entries, relative)
       <==> path[0] == name && Find(entries, path) == Some((mode, content))
    decreases entries, 0
  {
    var at := relative + [name];
    var r := Record(relative + path, mode, content);
    if path[0] != name {
      assert (relative + path)[|relative|] == path[0] && at[|relative|] == name;
      if !Skipped(at) {
        match Child(entries, name)
        case Directory(m, children) => RecordsSitBelow(SortedNames(children), children, at);
        case _ =>
      }
    } else {
      match Child(entries, name)
      case Directory(m, children) =>
        RecordsSitBelow(SortedNames(children), children, at);
        if |path| > 1 {
          assert at + path[1..] == relative + path;
          RecordsAreFindings(SortedNames(children), children, at, path[1..], mode, content);
        } else {
          assert relative + path == at;
        }
      case _ =>
        if |path| == 1 {
          assert relative + path == at;
        }
    }
  }
}
