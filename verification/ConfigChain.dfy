/** The walk over Git configuration files and their includes, and the byte stream it pins. */
module ConfigChain {
  import opened Common
  import opened Encoding
  import opened ConfigParser

  const MAX_CONFIG_INCLUDE_FILES: nat := 64

  /** `impulse-shared-repo-config-v2` and a NUL byte. */
  const MAGIC: Bytes :=
    [105, 109, 112, 117, 108, 115, 101, 45, 115, 104, 97, 114, 101, 100, 45, 114, 101, 112, 111,
     45, 99, 111, 110, 102, 105, 103, 45, 118, 50, 0]

  datatype Content = Found(bytes: Bytes) | Absent

  /** What reading a path gives: its bytes, absence, or an error other than "not found". */
  datatype ReadResult = Readable(content: Content) | Failed

  type FileSystem = Path -> ReadResult

  /**
   * What both compared states share: how a path is canonicalized (to itself when it does not
   * resolve), which file it denotes, whether that exists or not, its parent, when two paths compare
   * equal, and the home directory.
   */
  datatype Host = Host(identity: Path -> Path, file: Path -> Path, parent: Path -> Path,
                       same: (Path, Path) -> bool, home: Option<Path>)

  /** One visited file: the spelling it was read under, and what was there. */
  datatype Visit = Visit(path: Path, content: Content)

  function Includes(host: Host, v: Visit): seq<Path> {
    match v.content
    case Found(bytes) => IncludePaths(bytes, host.parent(v.path), host.home)
    case Absent => []
  }

  /** What is done followed by what is left. */
  function Then(done: seq<Visit>, left: Option<seq<Visit>>): Option<seq<Visit>> {
    match left
    case None => None
    case Some(rest) => Some(done + rest)
  }

  /**
   * The files visited from `queue` when `seen` were visited before, or nothing when the walk is
   * refused. Each visit spends one of the remaining visits; each skip shortens the queue.
   */
  function Explore(host: Host, fs: FileSystem, queue: seq<Path>, seen: seq<Path>): Option<seq<Visit>>
    decreases MAX_CONFIG_INCLUDE_FILES - |seen|, |queue|
  {
    if queue == [] then Some([])
    else
      var path := queue[0];
      if host.identity(path) in seen then Explore(host, fs, queue[1..], seen)
      else if |seen| >= MAX_CONFIG_INCLUDE_FILES || fs(path).Failed? then None
      else
        var v := Visit(path, fs(path).content);
        Then([v], Explore(host, fs, queue[1..] + Includes(host, v), seen + [host.identity(path)]))
  }

  // ------------------------------------------------------------- the stream

  function EncodeVisit(v: Visit): Bytes {
    PrefixedBig(v.path) +
    match v.content
    case Absent => [0]
    case Found(bytes) => [1] + PrefixedBig(bytes)
  }

  function EncodeVisits(visits: seq<Visit>): Bytes {
    if visits == [] then [] else EncodeVisit(visits[0]) + EncodeVisits(visits[1..])
  }

  predicate IsRoot(host: Host, roots: seq<Path>, path: Path) {
    exists i :: 0 <= i < |roots| && host.same(roots[i], path)
  }

  /** Whether a root exists among the visited files. */
  predicate RootExists(host: Host, roots: seq<Path>, visits: seq<Visit>) {
    exists i :: 0 <= i < |visits| && visits[i].content.Found? && IsRoot(host, roots, visits[i].path)
  }

  /** The digest's preimage; none when no root exists at all. */
  function Preimage(host: Host, roots: seq<Path>, visits: seq<Visit>): Option<Bytes> {
    if RootExists(host, roots, visits) then Some(MAGIC + EncodeVisits(visits)) else None
  }

  /** Nothing is pinned exactly when none of the files found is a root. */
  lemma {:induction false} PinnedExactlyWithARoot(host: Host, roots: seq<Path>, visits: seq<Visit>)
    ensures Preimage(host, roots, visits).None?
       <==> forall v, root :: v in visits && v.content.Found? && root in roots ==> !host.same(root, v.path)
  {
    if RootExists(host, roots, visits) {
      var i :| 0 <= i < |visits| && visits[i].content.Found? && IsRoot(host, roots, visits[i].path);
      var j :| 0 <= j < |roots| && host.same(roots[j], visits[i].path);
      assert visits[i] in visits && roots[j] in roots;
    } else {
      forall v, root | v in visits && v.content.Found? && root in roots ensures !host.same(root, v.path) {
        assert !IsRoot(host, roots, v.path);
      }
    }
  }

  datatype ChainError = TooManyFiles | Unreadable

  /** One file's contribution to the hasher. */
  method HashVisit(stream: Bytes, v: Visit) returns (fed: Bytes)
    ensures fed == stream + EncodeVisit(v)
  {
    fed := stream + PrefixedBig(v.path);
    match v.content {
      case Absent => fed := fed + [0];
      case Found(bytes) => fed := fed + ([1] + PrefixedBig(bytes));
    }
  }

  /** The includes one visited file adds to the queue. */
  method QueueIncludes(host: Host, queue: seq<Path>, v: Visit) returns (longer: seq<Path>)
    ensures longer == queue + Includes(host, v)
  {
    longer := queue;
    if v.content.Found? {
      var includes := ConfigIncludePaths(v.content.bytes, host.parent(v.path), host.home);
      longer := queue + includes;
    }
  }

  method DigestConfigChain(host: Host, fs: FileSystem, roots: seq<Path>)
    returns (r: Result<Option<Bytes>, ChainError>)
    ensures r.Ok? <==> Explore(host, fs, roots, []).Some?
    ensures r.Ok? ==> r.value == Preimage(host, roots, Explore(host, fs, roots, []).value)
  {
    var stream := MAGIC;
    var visited: seq<Path> := [];
    var queue := roots;
    var anyRootExists := false;
    var index := 0;
    ghost var done: seq<Visit> := [];
    ghost var whole := Explore(host, fs, roots, []);
    assert queue[0..] == roots;
    assert Then(done, whole) == whole by {
      if whole.Some? {
        assert done + whole.value == whole.value;
      }
    }
    while index < |queue|
      invariant index <= |queue| && |visited| <= MAX_CONFIG_INCLUDE_FILES
      invariant whole == Then(done, Explore(host, fs, queue[index..], visited))
      invariant stream == MAGIC + EncodeVisits(done)
      invariant anyRootExists <==> RootExists(host, roots, done)
      decreases MAX_CONFIG_INCLUDE_FILES - |visited|, |queue| - index
    {
      var path := queue[index];
      var identity := host.identity(path);
      ExploreStep(host, fs, queue, index, visited);
      index := index + 1;
      if identity in visited {
        continue;
      }
      visited := visited + [identity];
      if |visited| > MAX_CONFIG_INCLUDE_FILES {
        return Err(TooManyFiles);
      }
      if fs(path).Failed? {
        return Err(Unreadable);
      }
      var v := Visit(path, fs(path).content);
      if v.content.Found? && IsRoot(host, roots, path) {
        anyRootExists := true;
      }
      stream := HashVisit(stream, v);
      queue := QueueIncludes(host, queue, v);
      EncodeVisitsAppend(done, v);
      Associate(MAGIC, EncodeVisits(done), EncodeVisit(v));
      ThenStep(done, v, Explore(host, fs, queue[index..], visited));
      RootExistsStep(host, roots, done, v);
      done := done + [v];
    }
    assert done + [] == done;
    return Ok(if anyRootExists then Some(stream) else None);
  }

  lemma ThenStep(done: seq<Visit>, v: Visit, left: Option<seq<Visit>>)
    ensures Then(done, Then([v], left)) == Then(done + [v], left)
  {
    if left.Some? {
      Associate(done, [v], left.value);
    }
  }

  /** One turn of the loop, with the queue kept whole and read from `index`. */
  lemma {:induction false} ExploreStep(host: Host, fs: FileSystem, queue: seq<Path>, index: nat, seen: seq<Path>)
    requires index < |queue|
    ensures var identity := host.identity(queue[index]);
            var left := Explore(host, fs, queue[index..], seen);
            if identity in seen then left == Explore(host, fs, queue[index + 1..], seen)
            else if |seen| >= MAX_CONFIG_INCLUDE_FILES || fs(queue[index]).Failed? then left == None
            else
              var v := Visit(queue[index], fs(queue[index]).content);
              left == Then([v], Explore(host, fs, (queue + Includes(host, v))[index + 1..], seen + [identity]))
  {
    QueueTail(queue, index, []);
    if !fs(queue[index]).Failed? {
      QueueTail(queue, index, Includes(host, Visit(queue[index], fs(queue[index]).content)));
    }
  }

  lemma {:induction false} QueueTail(queue: seq<Path>, index: nat, more: seq<Path>)
    requires index < |queue|
    ensures queue[index..][0] == queue[index] && queue[index..][1..] == queue[index + 1..]
    ensures (queue + more)[index + 1..] == queue[index + 1..] + more
  {
  }

  lemma {:induction false} EncodeVisitsAppend(done: seq<Visit>, v: Visit)
    ensures EncodeVisits(done + [v]) == EncodeVisits(done) + EncodeVisit(v)
  {
    if done == [] {
      assert [v][1..] == [];
    } else {
      assert (done + [v])[1..] == done[1..] + [v];
      EncodeVisitsAppend(done[1..], v);
      Associate(EncodeVisit(done[0]), EncodeVisits(done[1..]), EncodeVisit(v));
    }
  }

  lemma RootExistsStep(host: Host, roots: seq<Path>, done: seq<Visit>, v: Visit)
    ensures RootExists(host, roots, done + [v])
       <==> RootExists(host, roots, done) || (v.content.Found? && IsRoot(host, roots, v.path))
  {
    var all := done + [v];
    assert all[|done|] == v;
    assert forall i :: 0 <= i < |done| ==> all[i] == done[i];
  }
}
