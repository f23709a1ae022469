/** The whole pin over worktree-shared configuration, and what it means that it still holds. */
module SharedConfig {
  import opened Common
  import opened ConfigParser
  import opened ConfigChain
  import opened ChainIdentity
  import opened GitRepository

  /** `impulse-shared-file-v2` and a NUL byte. */
  const FILES_MAGIC: Bytes :=
    [105, 109, 112, 117, 108, 115, 101, 45, 115, 104, 97, 114, 101, 100, 45, 102, 105, 108, 101, 45, 118, 50, 0]

  /** A fixed list of files, each identity once; no includes are followed. */
  function Watch(host: Host, fs: FileSystem, paths: seq<Path>, seen: seq<Path>): Option<seq<Visit>>
    decreases |paths|
  {
    if paths == [] then Some([])
    else if host.identity(paths[0]) in seen then Watch(host, fs, paths[1..], seen)
    else if fs(paths[0]).Failed? then None
    else
      Then([Visit(paths[0], fs(paths[0]).content)],
           Watch(host, fs, paths[1..], seen + [host.identity(paths[0])]))
  }

  predicate AnyFound(visits: seq<Visit>) {
    exists i :: 0 <= i < |visits| && visits[i].content.Found?
  }

  function FilesPreimage(visits: seq<Visit>): Option<Bytes> {
    if AnyFound(visits) then Some(FILES_MAGIC + EncodeVisits(visits)) else None
  }

  method DigestFiles(host: Host, fs: FileSystem, paths: seq<Path>) returns (r: Result<Option<Bytes>, ChainError>)
    ensures r.Ok? <==> Watch(host, fs, paths, []).Some?
    ensures r.Ok? ==> r.value == FilesPreimage(Watch(host, fs, paths, []).value)
    ensures r.Ok? ==> (r.value.None? <==> forall v :: v in Watch(host, fs, paths, []).value ==> v.content.Absent?)
  {
    var stream := FILES_MAGIC;
    var seen: seq<Path> := [];
    var anyExists := false;
    ghost var done: seq<Visit> := [];
    ghost var whole := Watch(host, fs, paths, []);
    assert paths[0..] == paths;
    assert Then(done, whole) == whole by {
      if whole.Some? {
        assert done + whole.value == whole.value;
      }
    }
    for i := 0 to |paths|
      invariant whole == Then(done, Watch(host, fs, paths[i..], seen))
      invariant stream == FILES_MAGIC + EncodeVisits(done)
      invariant anyExists <==> AnyFound(done)
    {
      var path := paths[i];
      assert paths[i..][0] == path && paths[i..][1..] == paths[i + 1..];
      var identity := host.identity(path);
      if identity in seen {
        continue;
      }
      seen := seen + [identity];
      if fs(path).Failed? {
        return Err(Unreadable);
      }
      var v := Visit(path, fs(path).content);
      anyExists := anyExists || v.content.Found?;
      stream := HashVisit(stream, v);
      EncodeVisitsAppend(done, v);
      Associate(FILES_MAGIC, EncodeVisits(done), EncodeVisit(v));
      ThenStep(done, v, Watch(host, fs, paths[i + 1..], seen));
      AnyFoundStep(done, v);
      done := done + [v];
    }
    assert paths[|paths|..] == [] && done + [] == done;
    return Ok(if anyExists then Some(stream) else None);
  }

  lemma AnyFoundStep(done: seq<Visit>, v: Visit)
    ensures AnyFound(done + [v]) <==> AnyFound(done) || v.content.Found?
  {
    assert (done + [v])[|done|] == v;
    assert forall i :: 0 <= i < |done| ==> (done + [v])[i] == done[i];
  }

  /** Every listed file is watched, under the first spelling of its identity, and nothing else is. */
  lemma {:induction false} EveryListedFileIsWatched(host: Host, fs: FileSystem, paths: seq<Path>, seen: seq<Path>)
    requires Watch(host, fs, paths, seen).Some?
    ensures var visits := Watch(host, fs, paths, seen).value;
            && (forall p :: p in paths && host.identity(p) !in seen ==>
                  exists v :: v in visits && host.identity(v.path) == host.identity(p))
            && (forall v :: v in visits ==>
                  v.path in paths && host.identity(v.path) !in seen && fs(v.path) == Readable(v.content))
    decreases |paths|
  {
    if paths != [] {
      var p := paths[0];
      if host.identity(p) in seen {
        EveryListedFileIsWatched(host, fs, paths[1..], seen);
      } else {
        EveryListedFileIsWatched(host, fs, paths[1..], seen + [host.identity(p)]);
        var v := Visit(p, fs(p).content);
        assert v in Watch(host, fs, paths, seen).value;
      }
      assert paths == [p] + paths[1..];
    }
  }

  /** A list is refused only when one of its files cannot be read. */
  lemma {:induction false} WatchRefusedOnlyWhen(host: Host, fs: FileSystem, paths: seq<Path>, seen: seq<Path>)
    requires Watch(host, fs, paths, seen).None?
    ensures exists p :: p in paths && fs(p).Failed?
    decreases |paths|
  {
    if host.identity(paths[0]) in seen {
      WatchRefusedOnlyWhen(host, fs, paths[1..], seen);
    } else if !fs(paths[0]).Failed? {
      WatchRefusedOnlyWhen(host, fs, paths[1..], seen + [host.identity(paths[0])]);
    }
  }

  /** Which files are watched does not depend on what they hold. */
  lemma {:induction false} WatchLooksAtTheSame(host: Host, before: FileSystem, after: FileSystem,
                                               paths: seq<Path>, seen: seq<Path>)
    requires Watch(host, before, paths, seen).Some? && Watch(host, after, paths, seen).Some?
    ensures var was, now := Watch(host, before, paths, seen).value, Watch(host, after, paths, seen).value;
            |was| == |now| && (forall i :: 0 <= i < |was| ==> was[i].path == now[i].path)
            && Unchanged(was, before) && Unchanged(now, after)
    decreases |paths|
  {
    if paths != [] {
      if host.identity(paths[0]) in seen {
        WatchLooksAtTheSame(host, before, after, paths[1..], seen);
      } else {
        WatchLooksAtTheSame(host, before, after, paths[1..], seen + [host.identity(paths[0])]);
      }
    }
  }

  /** The watched files' digests are equal exactly when each is, in the second state, what it was. */
  lemma {:induction false} FilesEqualIffUnchanged(host: Host, before: FileSystem, after: FileSystem,
                                                  paths: seq<Path>, was: seq<Visit>, now: seq<Visit>)
    requires AllStorable(was) && AllStorable(now)
    requires Watch(host, before, paths, []) == Some(was) && Watch(host, after, paths, []) == Some(now)
    ensures FilesPreimage(was) == FilesPreimage(now) <==> Unchanged(was, after)
  {
    WatchLooksAtTheSame(host, before, after, paths, []);
    if Unchanged(was, after) {
      assert was == now;
    }
    if FilesPreimage(was) == FilesPreimage(now) {
      if AnyFound(was) {
        SplitEqual(FILES_MAGIC, EncodeVisits(was), FILES_MAGIC, EncodeVisits(now));
        EncodeVisitsInjective(was, now);
      } else {
        assert forall i :: 0 <= i < |was| ==> was[i].content == Absent == now[i].content;
      }
    }
  }

  // ---------------------------------------------------------------- the pin

  /** The covered paths, in the order they are digested. */
  datatype SharedPaths = SharedPaths(repositoryConfig: Path, worktreeConfigs: seq<Path>, infoAttributes: seq<Path>)

  /** What the three digests cover. */
  datatype Coverage = Coverage(repository: seq<Visit>, worktree: seq<Visit>, attributes: seq<Visit>)

  function Cover(host: Host, fs: FileSystem, paths: SharedPaths): Option<Coverage> {
    var repository := Explore(host, fs, [paths.repositoryConfig], []);
    var worktree := Explore(host, fs, paths.worktreeConfigs, []);
    var attributes := Watch(host, fs, paths.infoAttributes, []);
    if repository.Some? && RootExists(host, [paths.repositoryConfig], repository.value)
       && worktree.Some? && attributes.Some?
    then Some(Coverage(repository.value, worktree.value, attributes.value))
    else None
  }

  function DigestOf(host: Host, paths: SharedPaths, c: Coverage): ConfigDigest {
    ConfigDigest(MAGIC + EncodeVisits(c.repository),
                 Preimage(host, paths.worktreeConfigs, c.worktree),
                 FilesPreimage(c.attributes))
  }

  /** A repository without a shared config file cannot be pinned. */
  method SharedRepositoryConfigDigest(host: Host, fs: FileSystem, paths: SharedPaths)
    returns (r: Option<ConfigDigest>)
    ensures r.Some? <==> Cover(host, fs, paths).Some?
    ensures r.Some? ==> r.value == DigestOf(host, paths, Cover(host, fs, paths).value)
  {
    var repository := DigestConfigChain(host, fs, [paths.repositoryConfig]);
    if repository.Err? || repository.value.None? {
      return None;
    }
    var worktree := DigestConfigChain(host, fs, paths.worktreeConfigs);
    if worktree.Err? {
      return None;
    }
    var attributes := DigestFiles(host, fs, paths.infoAttributes);
    if attributes.Err? {
      return None;
    }
    return Some(ConfigDigest(repository.value.value, worktree.value, attributes.value));
  }

  predicate StorableCover(c: Coverage) {
    AllStorable(c.repository) && AllStorable(c.worktree) && AllStorable(c.attributes)
  }

  /** A comparison names a component exactly when it is the first that differs. */
  lemma FirstDifferenceIsFirst(pinned: ConfigDigest, observed: ConfigDigest)
    ensures FirstDifference(pinned, observed) == None <==> pinned == observed
    ensures FirstDifference(pinned, observed) == Some(RepositoryConfig) <==>
              pinned.repositoryConfig != observed.repositoryConfig
    ensures FirstDifference(pinned, observed) == Some(WorktreeConfig) <==>
              pinned.worktreeConfig != observed.worktreeConfig && pinned.repositoryConfig == observed.repositoryConfig
    ensures FirstDifference(pinned, observed) == Some(InfoAttributes) <==>
              pinned.infoAttributes != observed.infoAttributes && pinned.worktreeConfig == observed.worktreeConfig
              && pinned.repositoryConfig == observed.repositoryConfig
  {
  }

  /** Shared configuration can be pinned exactly when the three walks go through and a repository config is found. */
  lemma {:induction false} PinnableExactlyWhen(host: Host, fs: FileSystem, paths: SharedPaths)
    ensures var repository := Explore(host, fs, [paths.repositoryConfig], []);
            Cover(host, fs, paths).Some?
            <==> && repository.Some? && Explore(host, fs, paths.worktreeConfigs, []).Some?
                 && Watch(host, fs, paths.infoAttributes, []).Some?
                 && exists v :: v in repository.value && v.content.Found? && host.same(paths.repositoryConfig, v.path)
  {
    var repository := Explore(host, fs, [paths.repositoryConfig], []);
    if repository.Some? {
      PinnedExactlyWithARoot(host, [paths.repositoryConfig], repository.value);
    }
  }

  /**
   * The gate finds no difference exactly when every configuration file that was pinned, included
   * ones and absent ones too, is still what it was; and the component it names is the first one
   * of which a file is not.
   */
  lemma {:induction false} PinHoldsIffNothingChanged(host: Host, before: FileSystem, after: FileSystem,
                                                     paths: SharedPaths, was: Coverage, now: Coverage)
    requires SelfEqual(host) && StorableCover(was) && StorableCover(now)
    requires Cover(host, before, paths) == Some(was) && Cover(host, after, paths) == Some(now)
    ensures FirstDifference(DigestOf(host, paths, was), DigestOf(host, paths, now))
         == if !Unchanged(was.repository, after) then Some(RepositoryConfig)
            else if !Unchanged(was.worktree, after) then Some(WorktreeConfig)
            else if !Unchanged(was.attributes, after) then Some(InfoAttributes)
            else None
  {
    FirstDifferenceIsFirst(DigestOf(host, paths, was), DigestOf(host, paths, now));
    var config := [paths.repositoryConfig];
    PinEqualIffNothingVisitedChanged(host, before, after, config, was.repository, now.repository);
    PinEqualIffNothingVisitedChanged(host, before, after, paths.worktreeConfigs, was.worktree, now.worktree);
    FilesEqualIffUnchanged(host, before, after, paths.infoAttributes, was.attributes, now.attributes);
  }
}
