/** How far the configuration pin reaches: the files an include chain leads to from a root. */
module ChainClosure {
  import opened Common
  import opened ConfigParser
  import opened IncludeRoundTrip
  import opened IncludeValues
  import opened ConfigChain
  import opened ChainIdentity

  function IncludesAt(host: Host, fs: FileSystem, path: Path): seq<Path> {
    match fs(path)
    case Readable(content) => Includes(host, Visit(path, content))
    case Failed => []
  }

  /** A chain of includes that starts at a root. */
  ghost predicate Route(host: Host, fs: FileSystem, roots: seq<Path>, route: seq<Path>) {
    && route != []
    && route[0] in roots
    && forall i :: 0 <= i < |route| - 1 ==> route[i + 1] in IncludesAt(host, fs, route[i])
  }

  ghost predicate Reached(host: Host, fs: FileSystem, roots: seq<Path>, path: Path) {
    exists route :: Route(host, fs, roots, route) && route[|route| - 1] == path
  }

  function Identities(host: Host, visits: seq<Visit>): (ids: seq<Path>)
    ensures |ids| == |visits| && forall i :: 0 <= i < |ids| ==> ids[i] == host.identity(visits[i].path)
  {
    seq(|visits|, i requires 0 <= i < |visits| => host.identity(visits[i].path))
  }

  predicate Unrepeated(ids: seq<Path>) {
    forall i, j :: 0 <= i < j < |ids| ==> ids[i] != ids[j]
  }

  // ------------------------------------------------------------ what is visited

  lemma IdentitiesStep(host: Host, seen: seq<Path>, v: Visit, rest: seq<Visit>)
    ensures seen + Identities(host, [v] + rest) == seen + [host.identity(v.path)] + Identities(host, rest)
  {
    assert Identities(host, [v] + rest) == [host.identity(v.path)] + Identities(host, rest);
  }

  /** No identity is visited twice, and no more than the allowed number are visited. */
  lemma {:induction false} VisitsWithinBudget(host: Host, fs: FileSystem, queue: seq<Path>, seen: seq<Path>)
    requires Explore(host, fs, queue, seen).Some?
    requires Unrepeated(seen) && |seen| <= MAX_CONFIG_INCLUDE_FILES
    ensures var visits := Explore(host, fs, queue, seen).value;
            Unrepeated(seen + Identities(host, visits)) && |seen| + |visits| <= MAX_CONFIG_INCLUDE_FILES
    decreases MAX_CONFIG_INCLUDE_FILES - |seen|, |queue|
  {
    if queue == [] {
      assert seen + Identities(host, []) == seen;
    } else {
      var identity := host.identity(queue[0]);
      if identity in seen {
        VisitsWithinBudget(host, fs, queue[1..], seen);
      } else {
        var v := Visit(queue[0], fs(queue[0]).content);
        var left := queue[1..] + Includes(host, v);
        VisitsWithinBudget(host, fs, left, seen + [identity]);
        IdentitiesStep(host, seen, v, Explore(host, fs, left, seen + [identity]).value);
      }
    }
  }

  /** More files than allowed are reached, no two under one identity. */
  ghost predicate TooManyReached(host: Host, fs: FileSystem, roots: seq<Path>) {
    exists paths: seq<Path> ::
      && |paths| == MAX_CONFIG_INCLUDE_FILES + 1
      && (forall p :: p in paths ==> Reached(host, fs, roots, p))
      && Unrepeated(IdentitiesOf(host, paths))
  }

  function IdentitiesOf(host: Host, paths: seq<Path>): (ids: seq<Path>)
    ensures |ids| == |paths| && forall i :: 0 <= i < |ids| ==> ids[i] == host.identity(paths[i])
  {
    seq(|paths|, i requires 0 <= i < |paths| => host.identity(paths[i]))
  }

  /** A walk is refused only when a reached file cannot be read, or more than sixty-four are reached. */
  lemma {:induction false} RefusedOnlyWhen(host: Host, fs: FileSystem, roots: seq<Path>,
                                           queue: seq<Path>, visited: seq<Path>)
    requires |visited| <= MAX_CONFIG_INCLUDE_FILES && Unrepeated(IdentitiesOf(host, visited))
    requires Explore(host, fs, queue, IdentitiesOf(host, visited)).None?
    requires forall p :: p in queue + visited ==> Reached(host, fs, roots, p)
    ensures (exists p :: Reached(host, fs, roots, p) && fs(p).Failed?) || TooManyReached(host, fs, roots)
    decreases MAX_CONFIG_INCLUDE_FILES - |visited|, |queue|
  {
    var path, seen := queue[0], IdentitiesOf(host, visited);
    assert path in queue + visited;
    if host.identity(path) in seen {
      RefusedOnlyWhen(host, fs, roots, queue[1..], visited);
    } else {
      var more := visited + [path];
      assert IdentitiesOf(host, more) == seen + [host.identity(path)];
      if |more| <= MAX_CONFIG_INCLUDE_FILES && !fs(path).Failed? {
        var v := Visit(path, fs(path).content);
        forall q | q in Includes(host, v) ensures Reached(host, fs, roots, q) {
          RouteExtends(host, fs, roots, path, q);
        }
        RefusedOnlyWhen(host, fs, roots, queue[1..] + Includes(host, v), more);
      }
    }
  }

  lemma {:induction false} NextIsNew(host: Host, queue: seq<Path>, seen: seq<Path>)
    requires queue != [] && Unrepeated(seen + IdentitiesOf(host, queue))
    ensures var identity := host.identity(queue[0]);
            identity !in seen && Unrepeated(seen + [identity] + IdentitiesOf(host, queue[1..]))
  {
    var ids := seen + IdentitiesOf(host, queue);
    assert ids[|seen|] == host.identity(queue[0]);
    assert forall i :: 0 <= i < |seen| ==> ids[i] == seen[i];
    assert ids == seen + [host.identity(queue[0])] + IdentitiesOf(host, queue[1..]);
  }

  /** Queued files come before the files they include, in the order of the queue. */
  lemma {:induction false} QueuedComeFirst(host: Host, fs: FileSystem, queue: seq<Path>, more: seq<Path>, seen: seq<Path>)
    requires Explore(host, fs, queue + more, seen).Some? && Unrepeated(seen + IdentitiesOf(host, queue))
    ensures var visits := Explore(host, fs, queue + more, seen).value;
            |visits| >= |queue| && forall i :: 0 <= i < |queue| ==> visits[i].path == queue[i]
    decreases |queue|
  {
    if queue != [] {
      var path, rest := queue[0], queue[1..];
      var identity := host.identity(path);
      assert (queue + more)[0] == path && (queue + more)[1..] == rest + more;
      NextIsNew(host, queue, seen);
      var v := Visit(path, fs(path).content);
      Associate(rest, more, Includes(host, v));
      QueuedComeFirst(host, fs, rest, more + Includes(host, v), seen + [identity]);
    }
  }

  /** Whether `path` was visited, under this or another spelling. */
  predicate Covered(host: Host, ids: seq<Path>, path: Path) {
    host.identity(path) in ids
  }

  /** Everything queued is covered, and so is everything a visited file includes. */
  lemma {:induction false} VisitsCover(host: Host, fs: FileSystem, queue: seq<Path>, seen: seq<Path>)
    requires Explore(host, fs, queue, seen).Some?
    ensures var visits := Explore(host, fs, queue, seen).value;
            var ids := seen + Identities(host, visits);
            && (forall q :: q in queue ==> Covered(host, ids, q))
            && (forall v, q :: v in visits && q in Includes(host, v) ==> Covered(host, ids, q))
    decreases MAX_CONFIG_INCLUDE_FILES - |seen|, |queue|
  {
    if queue != [] {
      var identity := host.identity(queue[0]);
      if identity in seen {
        VisitsCover(host, fs, queue[1..], seen);
        CoverStep(host, seen + Identities(host, Explore(host, fs, queue, seen).value), queue);
      } else {
        var v := Visit(queue[0], fs(queue[0]).content);
        var left := queue[1..] + Includes(host, v);
        var rest := Explore(host, fs, left, seen + [identity]).value;
        VisitsCover(host, fs, left, seen + [identity]);
        IdentitiesStep(host, seen, v, rest);
        var ids := seen + [identity] + Identities(host, rest);
        assert ids[|seen|] == identity;
        assert forall q :: q in Includes(host, v) ==> q in left;
        assert forall q :: q in queue[1..] ==> q in left;
        CoverStep(host, ids, queue);
      }
    }
  }

  lemma CoverStep(host: Host, ids: seq<Path>, queue: seq<Path>)
    requires queue != [] && Covered(host, ids, queue[0])
    requires forall q :: q in queue[1..] ==> Covered(host, ids, q)
    ensures forall q :: q in queue ==> Covered(host, ids, q)
  {
    forall q | q in queue ensures Covered(host, ids, q) {
      var i :| 0 <= i < |queue| && queue[i] == q;
      assert i > 0 ==> queue[1..][i - 1] == q;
    }
  }

  lemma {:induction false} LongerRoute(host: Host, fs: FileSystem, roots: seq<Path>, route: seq<Path>, next: Path)
    requires Route(host, fs, roots, route) && next in IncludesAt(host, fs, route[|route| - 1])
    ensures Route(host, fs, roots, route + [next])
  {
    var longer := route + [next];
    forall i | 0 <= i < |longer| - 1 ensures longer[i + 1] in IncludesAt(host, fs, longer[i]) {
      assert longer[i] == route[i];
      assert i + 1 < |route| ==> longer[i + 1] == route[i + 1];
    }
  }

  lemma {:induction false} RouteExtends(host: Host, fs: FileSystem, roots: seq<Path>, path: Path, next: Path)
    requires Reached(host, fs, roots, path) && next in IncludesAt(host, fs, path)
    ensures Reached(host, fs, roots, next)
  {
    var route :| Route(host, fs, roots, route) && route[|route| - 1] == path;
    LongerRoute(host, fs, roots, route, next);
    var longer := route + [next];
    assert longer[|longer| - 1] == next;
  }

  /** Only files an include chain leads to are visited. */
  lemma {:induction false} VisitedIsReached(host: Host, fs: FileSystem, roots: seq<Path>,
                                            queue: seq<Path>, seen: seq<Path>)
    requires Explore(host, fs, queue, seen).Some?
    requires forall q :: q in queue ==> Reached(host, fs, roots, q)
    ensures forall v :: v in Explore(host, fs, queue, seen).value ==> Reached(host, fs, roots, v.path)
    decreases MAX_CONFIG_INCLUDE_FILES - |seen|, |queue|
  {
    if queue != [] {
      var path := queue[0];
      var identity := host.identity(path);
      if identity in seen {
        VisitedIsReached(host, fs, roots, queue[1..], seen);
      } else {
        var v := Visit(path, fs(path).content);
        forall q | q in Includes(host, v) ensures Reached(host, fs, roots, q) {
          RouteExtends(host, fs, roots, path, q);
        }
        VisitedIsReached(host, fs, roots, queue[1..] + Includes(host, v), seen + [identity]);
      }
    }
  }

  // ------------------------------------------------------------- the closure

  /** Paths that canonicalize alike denote one file. */
  ghost predicate OneFile(host: Host) {
    forall p, q :: host.identity(p) == host.identity(q) ==> host.file(p) == host.file(q)
  }

  /** Two spellings of one file are read alike. */
  ghost predicate Consistent(host: Host, fs: FileSystem) {
    forall p, q :: host.file(p) == host.file(q) ==> fs(p) == fs(q)
  }

  /** Where an include value named by the file at `path` leads. */
  function Target(host: Host, path: Path, value: Bytes): Path {
    ExpandConfigPath(value, host.parent(path), host.home)
  }

  /** From a second spelling of a file a value leads to the same file as from the first, or back. */
  predicate SpellingsAgree(host: Host, p: Path, q: Path, value: Bytes) {
    host.file(p) == host.file(q) ==>
      host.file(Target(host, q, value)) in [host.file(p), host.file(Target(host, p, value))]
  }

  /** Where several spellings of a file are reached, its include values lead to the same files. */
  ghost predicate ReachedSpellingsAgree(host: Host, fs: FileSystem, roots: seq<Path>) {
    forall p, q, value {:trigger SpellingsAgree(host, p, q, value)} ::
      Reached(host, fs, roots, p) && Reached(host, fs, roots, q)
      && fs(p).Readable? && fs(p).content.Found? && value in ValuesIn(fs(p).content.bytes) ==>
        SpellingsAgree(host, p, q, value)
  }

  /** A value the file names, and where it leads from each spelling of the file. */
  lemma {:induction false} IncludeHasValue(host: Host, path: Path, bytes: Bytes, next: Path) returns (value: Bytes)
    requires next in Includes(host, Visit(path, Found(bytes)))
    ensures value in ValuesIn(bytes) && next == Target(host, path, value)
    ensures forall p :: Target(host, p, value) in Includes(host, Visit(p, Found(bytes)))
  {
    NormalForm(bytes, host.parent(path), host.home);
    var values := ValuesIn(bytes);
    var paths := Resolve(values, host.parent(path), host.home);
    var i :| 0 <= i < |paths| && paths[i] == next;
    value := values[i];
    forall p ensures Target(host, p, value) in Includes(host, Visit(p, Found(bytes))) {
      NormalForm(bytes, host.parent(p), host.home);
      assert Resolve(values, host.parent(p), host.home)[i] == Target(host, p, value);
    }
  }

  /** The file a path denotes was visited, under this or another spelling. */
  predicate Denoted(host: Host, visits: seq<Visit>, path: Path) {
    exists i :: 0 <= i < |visits| && host.file(visits[i].path) == host.file(path)
  }

  /** What a successful walk knows: it read reached files from `fs`, and is closed under includes. */
  ghost predicate Complete(host: Host, fs: FileSystem, roots: seq<Path>, visits: seq<Visit>) {
    && Unchanged(visits, fs)
    && (forall v :: v in visits ==> Reached(host, fs, roots, v.path))
    && (forall q :: q in roots ==> Denoted(host, visits, q))
    && (forall v, q :: v in visits && q in Includes(host, v) ==> Denoted(host, visits, q))
  }

  lemma {:induction false} CoveredIsDenoted(host: Host, visits: seq<Visit>, path: Path)
    requires OneFile(host) && Covered(host, Identities(host, visits), path)
    ensures Denoted(host, visits, path)
  {
    var ids := Identities(host, visits);
    var k :| 0 <= k < |ids| && ids[k] == host.identity(path);
    assert host.file(visits[k].path) == host.file(path);
  }

  lemma {:induction false} WalkIsComplete(host: Host, fs: FileSystem, roots: seq<Path>, visits: seq<Visit>)
    requires OneFile(host) && Explore(host, fs, roots, []) == Some(visits)
    ensures Complete(host, fs, roots, visits)
  {
    VisitsAreRead(host, fs, roots, []);
    forall q | q in roots ensures Reached(host, fs, roots, q) {
      assert Route(host, fs, roots, [q]);
    }
    VisitedIsReached(host, fs, roots, roots, []);
    VisitsCover(host, fs, roots, []);
    var ids := Identities(host, visits);
    assert [] + ids == ids;
    forall q | Covered(host, ids, q) ensures Denoted(host, visits, q) {
      CoveredIsDenoted(host, visits, q);
    }
  }

  lemma {:induction false} VisitOf(host: Host, fs: FileSystem, roots: seq<Path>, visits: seq<Visit>, path: Path)
      returns (v: Visit)
    requires Consistent(host, fs) && Complete(host, fs, roots, visits) && Denoted(host, visits, path)
    ensures v in visits && host.file(v.path) == host.file(path) && fs(path) == fs(v.path) == Readable(v.content)
  {
    var k :| 0 <= k < |visits| && host.file(visits[k].path) == host.file(path);
    v := visits[k];
  }

  /** Where a value leads from a second spelling was visited if where it leads from the first was. */
  lemma {:induction false} TargetStaysDenoted(host: Host, visits: seq<Visit>, v: Visit, path: Path, value: Bytes)
    requires v in visits && host.file(v.path) == host.file(path) && SpellingsAgree(host, v.path, path, value)
    requires Denoted(host, visits, Target(host, v.path, value))
    ensures Denoted(host, visits, Target(host, path, value))
  {
    if host.file(Target(host, path, value)) == host.file(v.path) {
      var k :| 0 <= k < |visits| && visits[k] == v;
      assert host.file(visits[k].path) == host.file(Target(host, path, value));
    } else {
      var k :| 0 <= k < |visits| && host.file(visits[k].path) == host.file(Target(host, v.path, value));
      assert host.file(visits[k].path) == host.file(Target(host, path, value));
    }
  }

  /** One step along a chain stays among the visited files. */
  lemma {:induction false} StepStaysDenoted(host: Host, fs: FileSystem, roots: seq<Path>, visits: seq<Visit>,
                                            path: Path, next: Path)
    requires Consistent(host, fs) && ReachedSpellingsAgree(host, fs, roots) && Complete(host, fs, roots, visits)
    requires Reached(host, fs, roots, path) && Denoted(host, visits, path)
    requires next in IncludesAt(host, fs, path)
    ensures Denoted(host, visits, next)
  {
    var v := VisitOf(host, fs, roots, visits, path);
    var value := IncludeHasValue(host, path, v.content.bytes, next);
    assert SpellingsAgree(host, v.path, path, value);
    TargetStaysDenoted(host, visits, v, path, value);
  }

  lemma RouteShortens(host: Host, fs: FileSystem, roots: seq<Path>, route: seq<Path>)
    requires Route(host, fs, roots, route) && |route| > 1
    ensures Route(host, fs, roots, route[..|route| - 1])
    ensures route[|route| - 1] in IncludesAt(host, fs, route[|route| - 2])
  {
    assert route[|route| - 2 + 1] in IncludesAt(host, fs, route[|route| - 2]);
  }

  lemma {:induction false} RouteReaches(host: Host, fs: FileSystem, roots: seq<Path>, route: seq<Path>)
    requires Route(host, fs, roots, route)
    ensures Reached(host, fs, roots, route[|route| - 1])
  {
  }

  lemma {:induction false} LastStepDenoted(host: Host, fs: FileSystem, roots: seq<Path>, visits: seq<Visit>,
                                           route: seq<Path>)
    requires Consistent(host, fs) && ReachedSpellingsAgree(host, fs, roots) && Complete(host, fs, roots, visits)
    requires Route(host, fs, roots, route) && |route| > 1 && Denoted(host, visits, route[|route| - 2])
    ensures Denoted(host, visits, route[|route| - 1])
  {
    RouteShortens(host, fs, roots, route);
    RouteReaches(host, fs, roots, route[..|route| - 1]);
    StepStaysDenoted(host, fs, roots, visits, route[|route| - 2], route[|route| - 1]);
  }

  /** The walk covers every file an include chain leads to. */
  lemma {:induction false} RouteIsDenoted(host: Host, fs: FileSystem, roots: seq<Path>, visits: seq<Visit>,
                                          route: seq<Path>)
    requires Consistent(host, fs) && ReachedSpellingsAgree(host, fs, roots) && Complete(host, fs, roots, visits)
    requires Route(host, fs, roots, route)
    ensures Denoted(host, visits, route[|route| - 1])
    decreases |route|
  {
    if |route| > 1 {
      RouteShortens(host, fs, roots, route);
      RouteIsDenoted(host, fs, roots, visits, route[..|route| - 1]);
      LastStepDenoted(host, fs, roots, visits, route);
    }
  }

  /**
   * The visited files are exactly those of the include closure, no identity is visited twice, and
   * no more than sixty-four are.
   */
  lemma {:induction false} VisitedIsTheClosure(host: Host, fs: FileSystem, roots: seq<Path>, visits: seq<Visit>,
                                               path: Path)
    requires OneFile(host) && Consistent(host, fs) && ReachedSpellingsAgree(host, fs, roots)
    requires Explore(host, fs, roots, []) == Some(visits)
    ensures |visits| <= MAX_CONFIG_INCLUDE_FILES && Unrepeated(Identities(host, visits))
    ensures Denoted(host, visits, path)
       <==> exists p :: Reached(host, fs, roots, p) && host.file(p) == host.file(path)
  {
    VisitsWithinBudget(host, fs, roots, []);
    assert [] + Identities(host, visits) == Identities(host, visits);
    WalkIsComplete(host, fs, roots, visits);
    if Denoted(host, visits, path) {
      var k :| 0 <= k < |visits| && host.file(visits[k].path) == host.file(path);
      assert visits[k] in visits && Reached(host, fs, roots, visits[k].path);
    }
    if p :| Reached(host, fs, roots, p) && host.file(p) == host.file(path) {
      var route :| Route(host, fs, roots, route) && route[|route| - 1] == p;
      RouteIsDenoted(host, fs, roots, visits, route);
    }
  }

  // --------------------------------------------------- what an equal pin means

  /** Two states that agree on the visited files agree on every file reached in the first. */
  lemma {:induction false} SameContent(host: Host, before: FileSystem, after: FileSystem, roots: seq<Path>,
                                       visits: seq<Visit>, path: Path)
    requires Consistent(host, before) && Consistent(host, after) && ReachedSpellingsAgree(host, before, roots)
    requires Complete(host, before, roots, visits) && Unchanged(visits, after)
    requires Reached(host, before, roots, path)
    ensures after(path) == before(path)
  {
    var route :| Route(host, before, roots, route) && route[|route| - 1] == path;
    RouteIsDenoted(host, before, roots, visits, route);
    var k :| 0 <= k < |visits| && host.file(visits[k].path) == host.file(path);
    assert before(visits[k].path) == after(visits[k].path);
  }

  /** So a chain in either state is a chain in the other. */
  lemma {:induction false} SameRoutes(host: Host, before: FileSystem, after: FileSystem, roots: seq<Path>,
                                      visits: seq<Visit>, route: seq<Path>)
    requires Consistent(host, before) && Consistent(host, after) && ReachedSpellingsAgree(host, before, roots)
    requires Complete(host, before, roots, visits) && Unchanged(visits, after)
    ensures Route(host, before, roots, route) <==> Route(host, after, roots, route)
    decreases |route|
  {
    if |route| > 1 {
      var shorter, prior, last := route[..|route| - 1], route[|route| - 2], route[|route| - 1];
      SameRoutes(host, before, after, roots, visits, shorter);
      if Route(host, before, roots, shorter) {
        assert shorter[|shorter| - 1] == prior && Reached(host, before, roots, prior);
        SameContent(host, before, after, roots, visits, prior);
        assert IncludesAt(host, before, prior) == IncludesAt(host, after, prior);
      }
      RouteByParts(host, before, roots, route);
      RouteByParts(host, after, roots, route);
    }
  }

  lemma {:induction false} RouteByParts(host: Host, fs: FileSystem, roots: seq<Path>, route: seq<Path>)
    requires |route| > 1
    ensures Route(host, fs, roots, route)
       <==> Route(host, fs, roots, route[..|route| - 1])
            && route[|route| - 1] in IncludesAt(host, fs, route[|route| - 2])
  {
    var shorter := route[..|route| - 1];
    if Route(host, fs, roots, route) {
      RouteShortens(host, fs, roots, route);
    }
    if Route(host, fs, roots, shorter) && route[|route| - 1] in IncludesAt(host, fs, route[|route| - 2]) {
      forall i | 0 <= i < |route| - 1 ensures route[i + 1] in IncludesAt(host, fs, route[i]) {
        if i < |route| - 2 {
          assert shorter[i] == route[i] && shorter[i + 1] == route[i + 1];
        }
      }
    }
  }

  /**
   * Equal pins: both states reach the same paths through includes, and every one of them has the
   * same bytes, or the same absence, in both. Only the first state is asked that the spellings it
   * reaches a file under agree.
   */
  lemma {:induction false} EqualPinsSameClosure(host: Host, before: FileSystem, after: FileSystem, roots: seq<Path>,
                                                was: seq<Visit>, now: seq<Visit>, path: Path)
    requires SelfEqual(host) && OneFile(host) && Consistent(host, before) && Consistent(host, after)
    requires ReachedSpellingsAgree(host, before, roots)
    requires AllStorable(was) && AllStorable(now)
    requires Explore(host, before, roots, []) == Some(was) && Explore(host, after, roots, []) == Some(now)
    requires Preimage(host, roots, was) == Preimage(host, roots, now)
    ensures Reached(host, before, roots, path) <==> Reached(host, after, roots, path)
    ensures Reached(host, before, roots, path) ==> after(path) == before(path)
  {
    EqualPinsEqualWalks(host, before, after, roots, was, now);
    WalkIsComplete(host, before, roots, was);
    VisitsAreRead(host, after, roots, []);
    forall route ensures Route(host, before, roots, route) <==> Route(host, after, roots, route) {
      SameRoutes(host, before, after, roots, was, route);
    }
    if Reached(host, before, roots, path) {
      SameContent(host, before, after, roots, was, path);
    }
  }

  // ------------------------------------- where the spelling of a file matters

  /** Which file a value leads to depends on the directory it is resolved in, not on that one's spelling. */
  ghost predicate JoinsByFile(host: Host) {
    forall b, c, value :: host.file(b) == host.file(c) ==>
      host.file(JoinPath(b, value)) == host.file(JoinPath(c, value))
  }

  /** Spellings of a file in one directory, such as `..` spellings of it, always agree. */
  lemma {:induction false} SameDirectoryAgrees(host: Host, p: Path, q: Path, value: Bytes)
    requires JoinsByFile(host) && host.file(host.parent(p)) == host.file(host.parent(q))
    ensures SpellingsAgree(host, p, q, value)
  {
    assert host.file(JoinPath(host.parent(p), value)) == host.file(JoinPath(host.parent(q), value));
  }

  /** The file at `p` names `value`; the one at `b` is empty or, when `edited`, not; nothing else exists. */
  function Planted(host: Host, p: Path, value: Bytes, b: Path, edited: bool): FileSystem {
    x => if host.file(x) == host.file(p) then Readable(Found(Render([value])))
         else if host.file(x) == host.file(b) then Readable(Found(if edited then [NEWLINE] else []))
         else Readable(Absent)
  }

  /** Reading an absent file ends the walk there; an already seen one is skipped. */
  lemma LastStep(host: Host, fs: FileSystem, a: Path, seen: seq<Path>)
    requires fs(a) == Readable(Absent) || host.identity(a) in seen
    requires |seen| < MAX_CONFIG_INCLUDE_FILES
    ensures Explore(host, fs, [a], seen) == Some(if host.identity(a) in seen then [] else [Visit(a, Absent)])
  {
    ExploreStep(host, fs, [a], 0, seen);
    var v := Visit(a, Absent);
    assert [a][0..] == [a] && [a][1..] == [] && ([a] + Includes(host, v))[1..] == [];
    assert [v] + [] == [v];
  }

  lemma {:induction false} PlantedWalk(host: Host, fs: FileSystem, p: Path, q: Path, a: Path, bytes: Bytes)
    requires host.identity(p) == host.identity(q) && Includes(host, Visit(p, Found(bytes))) == [a]
    requires fs(p) == Readable(Found(bytes))
    requires fs(a) == Readable(Absent) || host.identity(a) == host.identity(p)
    ensures Explore(host, fs, [p, q], [])
         == Some([Visit(p, Found(bytes))]
                 + if host.identity(a) == host.identity(p) then [] else [Visit(a, Absent)])
  {
    var seen := [host.identity(p)];
    SecondSpellingSkipped(host, fs, q, a, seen);
    LastStep(host, fs, a, seen);
    ExploreStep(host, fs, [p, q], 0, []);
    assert [p, q][0..] == [p, q] && ([p, q] + [a])[1..] == [q, a] && [] + seen == seen;
  }

  lemma {:induction false} SecondSpellingSkipped(host: Host, fs: FileSystem, q: Path, a: Path, seen: seq<Path>)
    requires host.identity(q) in seen
    ensures Explore(host, fs, [q, a], seen) == Explore(host, fs, [a], seen)
  {
    ExploreStep(host, fs, [q, a], 0, seen);
    assert [q, a][0..] == [q, a] && [q, a][1..] == [a];
  }

  lemma OneValue(host: Host, p: Path, value: Bytes)
    requires Renderable(value)
    ensures Includes(host, Visit(p, Found(Render([value])))) == [Target(host, p, value)]
  {
    RenderedIncludesReadBack([value], host.parent(p), host.home);
  }

  /** However the existing file is spelled, it canonicalizes alike. */
  ghost predicate Resolves(host: Host, p: Path) {
    forall x :: host.file(x) == host.file(p) ==> host.identity(x) == host.identity(p)
  }

  lemma {:induction false} PlantedReads(host: Host, p: Path, q: Path, value: Bytes, edited: bool)
    requires !SpellingsAgree(host, p, q, value)
    ensures var b := Target(host, q, value);
            var fs := Planted(host, p, value, b, edited);
            && Consistent(host, fs)
            && fs(p) == fs(q) == Readable(Found(Render([value])))
            && fs(b) == Readable(Found(if edited then [NEWLINE] else []))
  {
  }

  /** Whatever the missed file holds, the walk is the same. */
  lemma {:induction false} PlantedVisits(host: Host, p: Path, q: Path, value: Bytes, edited: bool)
    requires Renderable(value) && Resolves(host, p) && !SpellingsAgree(host, p, q, value)
    ensures var fs := Planted(host, p, value, Target(host, q, value), edited);
            var a := Target(host, p, value);
            Explore(host, fs, [p, q], [])
            == Some([Visit(p, Found(Render([value])))]
                    + if host.identity(a) == host.identity(p) then [] else [Visit(a, Absent)])
  {
    var fs := Planted(host, p, value, Target(host, q, value), edited);
    OneValue(host, p, value);
    PlantedWalk(host, fs, p, q, Target(host, p, value), Render([value]));
  }

  /**
   * Wherever, from two spellings of an existing file, a value leads to different files, there are
   * two states with one walk between them, in which a reached file differs: the walk reads the
   * file under the first spelling only, and misses what the second one includes.
   */
  lemma {:induction false} DisagreeingSpellingsHideAChange(host: Host, p: Path, q: Path, value: Bytes)
      returns (before: FileSystem, after: FileSystem, missed: Path)
    requires Renderable(value) && Resolves(host, p) && !SpellingsAgree(host, p, q, value)
    ensures Consistent(host, before) && Consistent(host, after)
    ensures Explore(host, before, [p, q], []).Some? && Explore(host, before, [p, q], []) == Explore(host, after, [p, q], [])
    ensures Explore(host, before, [p, q], []).value != []
            && Explore(host, before, [p, q], []).value[0] == Visit(p, Found(Render([value])))
    ensures missed == Target(host, q, value) && Reached(host, before, [p, q], missed)
    ensures before(missed) == Readable(Found([])) && after(missed) == Readable(Found([NEWLINE]))
  {
    missed := Target(host, q, value);
    before, after := Planted(host, p, value, missed, false), Planted(host, p, value, missed, true);
    PlantedReads(host, p, q, value, false);
    PlantedReads(host, p, q, value, true);
    PlantedVisits(host, p, q, value, false);
    PlantedVisits(host, p, q, value, true);
    PlantedMissesReached(host, p, q, value);
  }

  lemma {:induction false} PlantedMissesReached(host: Host, p: Path, q: Path, value: Bytes)
    requires Renderable(value) && !SpellingsAgree(host, p, q, value)
    ensures var b := Target(host, q, value);
            Reached(host, Planted(host, p, value, b, false), [p, q], b)
  {
    PlantedReads(host, p, q, value, false);
    OneValue(host, q, value);
    var b := Target(host, q, value);
    MissedIsReached(host, Planted(host, p, value, b, false), [p, q], q, b);
  }

  lemma {:induction false} MissedIsReached(host: Host, fs: FileSystem, roots: seq<Path>, q: Path, missed: Path)
    requires q in roots && IncludesAt(host, fs, q) == [missed]
    ensures Reached(host, fs, roots, missed)
  {
    assert Route(host, fs, roots, [q]);
    RouteExtends(host, fs, roots, q, missed);
  }

  /** What precedes the last separator. */
  function Directory(path: Path): Path {
    if path == [] then [] else if path[|path| - 1] == SLASH then path[..|path| - 1]
    else Directory(path[..|path| - 1])
  }

  const FILE: Path := [SLASH, 98, SLASH, 102]
  const LINK: Path := [SLASH, 99, SLASH, 102]

  /** A host whose one link is `/c/f`, to `/b/f`. */
  function LinkedHost(): Host {
    var resolve: Path -> Path := x => if x == LINK then FILE else x;
    Host(resolve, resolve, Directory, (x, y) => x == y, None)
  }

  lemma {:induction false} LinkedDirectories()
    ensures Directory(FILE) == [SLASH, 98] && Directory(LINK) == [SLASH, 99]
  {
    assert FILE[..3] == [SLASH, 98, SLASH] && LINK[..3] == [SLASH, 99, SLASH];
    assert FILE[..3][..2] == [SLASH, 98] && LINK[..3][..2] == [SLASH, 99];
  }

  /**
   * With `/b/f` and its link `/c/f` as roots, both including `x`, the pins of two states are equal
   * although `/c/x`, which the link leads to, was edited.
   */
  lemma {:induction false} LinkedFileHidesAnEdit() returns (before: FileSystem, after: FileSystem)
    ensures var host, roots, missed := LinkedHost(), [FILE, LINK], [SLASH, 99, SLASH, 120];
            && SelfEqual(host) && OneFile(host) && Consistent(host, before) && Consistent(host, after)
            && before(FILE) == after(FILE) == Readable(Found(Render([[120]])))
            && Explore(host, before, roots, []).Some? && Explore(host, after, roots, []).Some?
            && Preimage(host, roots, Explore(host, before, roots, []).value)
               == Preimage(host, roots, Explore(host, after, roots, []).value) != None
            && Reached(host, before, roots, missed)
            && before(missed) == Readable(Found([])) && after(missed) == Readable(Found([NEWLINE]))
  {
    var host, value := LinkedHost(), [120];
    LinkedDirectories();
    assert Target(host, FILE, value) == [SLASH, 98, SLASH, 120];
    assert Target(host, LINK, value) == [SLASH, 99, SLASH, 120];
    assert Renderable(value) && Resolves(host, FILE) && !SpellingsAgree(host, FILE, LINK, value);
    var missed;
    before, after, missed := DisagreeingSpellingsHideAChange(host, FILE, LINK, value);
    VisitsAreRead(host, before, [FILE, LINK], []);
    VisitsAreRead(host, after, [FILE, LINK], []);
    assert host.same([FILE, LINK][0], FILE);
    assert RootExists(host, [FILE, LINK], Explore(host, before, [FILE, LINK], []).value);
  }
}
