/** `source_tree_manifest`, and the tree identity its result stands for. */
module ManifestIdentity {
  import opened Common
  import opened Sorting
  import opened SourceTree
  import opened SourceManifest
  import opened ManifestBuilder

  function RootRecords(entries: seq<DirEntry>): seq<Record> {
    RecordsOf(SortedNames(entries), entries, [])
  }

  /** Exactly the roots the walk attests. */
  predicate Attestable(root: Node) {
    && root.Directory?
    && AllRegular(SortedNames(root.entries), root.entries, [])
    && Fits(0, 0, RootRecords(root.entries))
    && |root.entries| <= MAX_SOURCE_MANIFEST_ENTRIES
  }

  function ManifestOf(root: Node): SourceTreeManifest
    requires root.Directory?
  {
    var records := RootRecords(root.entries);
    SourceTreeManifest(Stream(root.mode, root.entries), |records|, TotalBytes(records))
  }

  /** Attests a tree: it succeeds exactly for attestable roots, within both caps. */
  method AttestTree(root: Node) returns (r: Result<SourceTreeManifest, ManifestError>)
    ensures r.Ok? <==> Attestable(root)
    ensures r.Ok? ==> r.value == ManifestOf(root)
                      && r.value.entries <= MAX_SOURCE_MANIFEST_ENTRIES
                      && r.value.bytes <= MAX_SOURCE_MANIFEST_BYTES
    ensures !root.Directory? ==> r == Err(if root.Unreadable? then IoError else RootNotDirectory)
  {
    match root {
      case Directory(mode, entries) =>
        var builder := new SourceManifestBuilder(mode);
        var walked := builder.WalkDirectory(entries, []);
        if walked.Err? {
          return Err(walked.error);
        }
        return Ok(SourceTreeManifest(builder.stream, builder.entries, builder.bytes));
      case Unreadable => return Err(IoError);
      case _ => return Err(RootNotDirectory);
    }
  }

  // ---------------------------------------------- what an attested tree holds

  /** Whatever stands at a path, of any kind. */
  function NodeAt(entries: seq<DirEntry>, path: seq<Name>): Option<Node>
    decreases entries
  {
    if path == [] || path[0] !in NamesOf(entries) then None
    else if |path| == 1 then Some(Child(entries, path[0]))
    else
      match Child(entries, path[0])
      case Directory(_, children) => NodeAt(children, path[1..])
      case _ => None
  }

  /** A directory, or a file of the size its metadata says. */
  predicate Truthful(node: Node) {
    node.Directory? || (node.File? && node.length == |node.bytes|)
  }

  /** Every object under one name is truthful. */
  ghost predicate TruthfulUnder(entries: seq<DirEntry>, name: Name) {
    forall path :: path != [] && path[0] == name && NodeAt(entries, path).Some? ==> Truthful(NodeAt(entries, path).value)
  }

  lemma {:induction false} AllRegularEach(names: seq<Name>, entries: seq<DirEntry>, relative: seq<Name>)
    requires forall n :: n in names ==> n in NamesOf(entries)
    ensures AllRegular(names, entries, relative) <==> forall n :: n in names ==> RegularAt(n, entries, relative)
  {
    if names != [] {
      var rest := names[1..];
      AllRegularEach(rest, entries, relative);
      assert names == [names[0]] + rest;
      assert names[0] in names && forall n :: n in rest ==> n in names;
      if AllRegular(names, entries, relative) {
        forall n | n in names ensures RegularAt(n, entries, relative) {
          assert n == names[0] || n in rest;
        }
      }
    }
  }

  lemma {:induction false} BelowChild(entries: seq<DirEntry>, name: Name, path: seq<Name>)
    requires name in NamesOf(entries) && path != []
    ensures NodeAt(entries, [name] + path)
         == if Child(entries, name).Directory? then NodeAt(Child(entries, name).entries, path) else None
  {
    assert ([name] + path)[1..] == path;
  }

  /** An object under a name is what the name itself stands for, or below it. */
  lemma {:induction false} TruthfulUnderMeans(entries: seq<DirEntry>, name: Name)
    requires name in NamesOf(entries)
    ensures var node := Child(entries, name);
            TruthfulUnder(entries, name)
            <==> && Truthful(node)
                 && (node.Directory? ==> forall n :: n in NamesOf(node.entries) ==> TruthfulUnder(node.entries, n))
  {
    var node := Child(entries, name);
    assert NodeAt(entries, [name]) == Some(node);
    if node.Directory? {
      if TruthfulUnder(entries, name) {
        forall path | path != [] && NodeAt(node.entries, path).Some?
          ensures Truthful(NodeAt(node.entries, path).value)
        {
          BelowChild(entries, name, path);
          assert ([name] + path)[0] == name;
        }
      } else {
        var path :| path != [] && path[0] == name
                    && NodeAt(entries, path).Some? && !Truthful(NodeAt(entries, path).value);
        var below := path[1..];
        assert path == [name] + below;
        if below != [] {
          BelowChild(entries, name, below);
          assert !TruthfulUnder(node.entries, below[0]);
        }
      }
    }
  }

  lemma {:induction false} RegularMeansTruthful(name: Name, entries: seq<DirEntry>, relative: seq<Name>)
    requires name in NamesOf(entries)
    ensures RegularAt(name, entries, relative) <==> Skipped(relative + [name]) || TruthfulUnder(entries, name)
    decreases entries
  {
    var node := Child(entries, name);
    TruthfulUnderMeans(entries, name);
    if node.Directory? && !Skipped(relative + [name]) {
      AllRegularEach(SortedNames(node.entries), node.entries, relative + [name]);
      forall n | n in NamesOf(node.entries)
        ensures RegularAt(n, node.entries, relative + [name]) <==> TruthfulUnder(node.entries, n)
      {
        RegularMeansTruthful(n, node.entries, relative + [name]);
      }
    }
  }

  /**
   * A root is attested exactly when it is a directory below which everything but its own `.git`
   * is a directory or a file of the size its metadata says, and that fits both caps.
   */
  lemma {:induction false} AttestableExactly(root: Node)
    ensures Attestable(root)
       <==> && root.Directory?
            && (forall path :: path != [] && path[0] != DOT_GIT && NodeAt(root.entries, path).Some? ==>
                  Truthful(NodeAt(root.entries, path).value))
            && |RootRecords(root.entries)| <= MAX_SOURCE_MANIFEST_ENTRIES
            && |root.entries| <= MAX_SOURCE_MANIFEST_ENTRIES
            && TotalBytes(RootRecords(root.entries)) <= MAX_SOURCE_MANIFEST_BYTES
  {
    if root.Directory? {
      AllRegularEach(SortedNames(root.entries), root.entries, []);
      forall n | n in NamesOf(root.entries)
        ensures RegularAt(n, root.entries, []) <==> n == DOT_GIT || TruthfulUnder(root.entries, n)
      {
        RegularMeansTruthful(n, root.entries, []);
        assert [] + [n] == [n];
      }
    }
  }

  // ------------------------------------ the same tree gives the same records

  function Without(names: seq<Name>, out: Name): seq<Name> {
    if names == [] then []
    else if names[0] == out then Without(names[1..], out)
    else [names[0]] + Without(names[1..], out)
  }

  lemma {:induction false} WithoutKeepsOrder(names: seq<Name>, out: Name)
    requires Sorted(NameOrder(), names) && Distinct(names)
    ensures Sorted(NameOrder(), Without(names, out)) && Distinct(Without(names, out))
    ensures forall n :: n in Without(names, out) <==> n in names && n != out
  {
    if names != [] {
      WithoutKeepsOrder(names[1..], out);
      var rest := Without(names[1..], out);
      forall i | 0 <= i < |rest| ensures NameOrder()(names[0], rest[i]) && names[0] != rest[i] {
        assert rest[i] in names[1..];
      }
    }
  }

  lemma {:induction false} DotGitAddsNothing(names: seq<Name>, entries: seq<DirEntry>)
    requires forall n :: n in names ==> n in NamesOf(entries)
    ensures forall n :: n in Without(names, DOT_GIT) ==> n in names
    ensures RecordsOf(names, entries, []) == RecordsOf(Without(names, DOT_GIT), entries, [])
  {
    if names != [] {
      DotGitAddsNothing(names[1..], entries);
      assert [] + [names[0]] == [names[0]];
      if names[0] != DOT_GIT {
        assert Without(names, DOT_GIT)[1..] == Without(names[1..], DOT_GIT);
      }
    }
  }

  /** The names the walk does not skip under `relative`. */
  function VisitedNames(entries: seq<DirEntry>, relative: seq<Name>): (names: seq<Name>) {
    if relative == [] then Without(SortedNames(entries), DOT_GIT) else SortedNames(entries)
  }

  lemma VisitedNamesFacts(entries: seq<DirEntry>, relative: seq<Name>)
    requires Distinct(NamesOf(entries))
    ensures forall n :: n in VisitedNames(entries, relative)
                   <==> n in NamesOf(entries) && !Skipped(relative + [n])
    ensures Sorted(NameOrder(), VisitedNames(entries, relative))
    ensures Distinct(VisitedNames(entries, relative))
    ensures RecordsOf(VisitedNames(entries, relative), entries, relative)
         == RecordsOf(SortedNames(entries), entries, relative)
  {
    NameOrderIsTotal();
    SortSorts(NameOrder(), NamesOf(entries));
    DistinctSort(NameOrder(), NamesOf(entries));
    if relative == [] {
      WithoutKeepsOrder(SortedNames(entries), DOT_GIT);
      DotGitAddsNothing(SortedNames(entries), entries);
      forall n ensures Skipped([] + [n]) <==> n == DOT_GIT {
        assert [] + [n] == [n];
      }
    }
  }

  lemma {:induction false} RegularChild(names: seq<Name>, entries: seq<DirEntry>, relative: seq<Name>, name: Name)
    requires forall n :: n in names ==> n in NamesOf(entries)
    requires AllRegular(names, entries, relative) && name in names
    ensures RegularAt(name, entries, relative)
  {
    if name != names[0] {
      RegularChild(names[1..], entries, relative, name);
    }
  }

  /** Equal findings below `relative`. */
  ghost predicate SameBelow(a: seq<DirEntry>, b: seq<DirEntry>, relative: seq<Name>) {
    forall path :: path != [] && !Skipped(relative + [path[0]]) ==> Find(a, path) == Find(b, path)
  }

  lemma {:induction false} SameBelowSameRecords(a: seq<DirEntry>, b: seq<DirEntry>, relative: seq<Name>)
    requires WellFormedEntries(a) && WellFormedEntries(b)
    requires AllRegular(SortedNames(a), a, relative) && AllRegular(SortedNames(b), b, relative)
    requires SameBelow(a, b, relative)
    ensures RecordsOf(SortedNames(a), a, relative) == RecordsOf(SortedNames(b), b, relative)
    decreases a, 1, 0
  {
    VisitedNamesFacts(a, relative);
    VisitedNamesFacts(b, relative);
    var na, nb := VisitedNames(a, relative), VisitedNames(b, relative);
    forall n ensures n in na <==> n in nb {
      if !Skipped(relative + [n]) {
        VisitedIffFound(a, relative, n);
        VisitedIffFound(b, relative, n);
        assert Find(a, [n]) == Find(b, [n]);
      }
    }
    DistinctPermutation(na, nb);
    NameOrderIsTotal();
    SortedIsUnique(NameOrder(), na, nb);
    SameNamesSameRecords(na, a, b, relative);
  }

  lemma {:induction false} SameNamesSameRecords(names: seq<Name>, a: seq<DirEntry>, b: seq<DirEntry>,
                                                relative: seq<Name>)
    requires WellFormedEntries(a) && WellFormedEntries(b)
    requires AllRegular(SortedNames(a), a, relative) && AllRegular(SortedNames(b), b, relative)
    requires SameBelow(a, b, relative)
    requires forall n :: n in names ==>
               n in NamesOf(a) && n in NamesOf(b) && !Skipped(relative + [n])
    ensures RecordsOf(names, a, relative) == RecordsOf(names, b, relative)
    decreases a, 0, |names|
  {
    if names != [] {
      var n := names[0];
      RegularChild(SortedNames(a), a, relative, n);
      RegularChild(SortedNames(b), b, relative, n);
      assert Find(a, [n]) == Find(b, [n]);
      var ca, cb := Child(a, n), Child(b, n);
      if ca.Directory? {
        SameChildren(a, b, relative, n);
        SameBelowSameRecords(ca.entries, cb.entries, relative + [n]);
      }
      SameNamesSameRecords(names[1..], a, b, relative);
    }
  }

  lemma {:induction false} SameChildren(a: seq<DirEntry>, b: seq<DirEntry>, relative: seq<Name>, n: Name)
    requires n in NamesOf(a) && n in NamesOf(b) && !Skipped(relative + [n])
    requires Child(a, n).Directory? && Child(b, n).Directory?
    requires SameBelow(a, b, relative)
    ensures SameBelow(Child(a, n).entries, Child(b, n).entries, relative + [n])
  {
    forall path | path != []
      ensures Find(Child(a, n).entries, path) == Find(Child(b, n).entries, path)
    {
      var full := [n] + path;
      assert full[0] == n && full[1..] == path;
      assert Find(a, full) == Find(b, full);
    }
  }

  lemma VisitedIffFound(entries: seq<DirEntry>, relative: seq<Name>, n: Name)
    requires WellFormedEntries(entries) && AllRegular(SortedNames(entries), entries, relative)
    requires !Skipped(relative + [n])
    ensures n in NamesOf(entries) <==> Find(entries, [n]).Some?
  {
    if n in NamesOf(entries) {
      RegularChild(SortedNames(entries), entries, relative, n);
    }
  }

  // -------------------------------------------------------- the identity law

  /**
   * Two attested trees have equal manifests exactly when they are the same tree, the root's
   * `.git` aside, in whatever order their directories were enumerated.
   */
  lemma ManifestEqualIffSameTree(a: Node, b: Node)
    requires Attestable(a) && Attestable(b) && WellFormed(a) && WellFormed(b)
    requires PathsFit(a.entries) && PathsFit(b.entries)
    ensures ManifestOf(a) == ManifestOf(b) <==> a.mode == b.mode && SameTree(a.entries, b.entries)
  {
    if ManifestOf(a) == ManifestOf(b) {
      StreamPinsTree(a.mode, a.entries, b.mode, b.entries);
    }
    if a.mode == b.mode && SameTree(a.entries, b.entries) {
      forall path | path != [] && !Skipped([] + [path[0]])
        ensures Find(a.entries, path) == Find(b.entries, path)
      {
        assert [] + [path[0]] == [path[0]];
      }
      SameBelowSameRecords(a.entries, b.entries, []);
    }
  }
}
