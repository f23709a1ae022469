/** The repository a promotion works on: branches, their reflogs, HEAD and the working trees. */
module GitRepository {
  import opened Common

  type Oid = string
  type RefName = string
  type Worktree = map<string, seq<byte>>

  datatype Entry = Entry(revision: Oid, subject: string)

  datatype Head = OnBranch(ref: RefName) | Detached(oid: Oid)

  datatype Component = RepositoryConfig | WorktreeConfig | InfoAttributes

  /** The byte streams behind the three digests of worktree-shared configuration. */
  datatype ConfigDigest = ConfigDigest(
    repositoryConfig: seq<byte>,
    worktreeConfig: Option<seq<byte>>,
    infoAttributes: Option<seq<byte>>)

  function FirstDifference(pinned: ConfigDigest, observed: ConfigDigest): Option<Component> {
    if pinned.repositoryConfig != observed.repositoryConfig then Some(RepositoryConfig)
    else if pinned.worktreeConfig != observed.worktreeConfig then Some(WorktreeConfig)
    else if pinned.infoAttributes != observed.infoAttributes then Some(InfoAttributes)
    else None
  }

  /**
   * What never changes: the tree of each commit, ancestry, and which working trees `git status`
   * reports without a subject change against a commit.
   */
  datatype Objects = Objects(
    tree: Oid -> Worktree,
    descends: (Oid, Oid) -> bool,
    cleanAt: (Worktree, Oid) -> bool)

  /**
   * Reflogs are newest first; `canonicalRoot` and `stagedRoot` tell whether the root Git discovers
   * from each workspace is that workspace.
   */
  datatype Repo = Repo(
    refs: map<RefName, Oid>,
    reflogs: map<RefName, seq<Entry>>,
    head: Head,
    worktree: Worktree,
    canonicalRoot: bool,
    stagedRoot: bool,
    stagedHead: Oid,
    stagedTree: Worktree,
    config: ConfigDigest,
    submodules: bool)

  function HeadOid(r: Repo): Option<Oid> {
    match r.head
    case Detached(oid) => Some(oid)
    case OnBranch(ref) => if ref in r.refs then Some(r.refs[ref]) else None
  }

  function Reflog(r: Repo, ref: RefName): seq<Entry> {
    if ref in r.reflogs then r.reflogs[ref] else []
  }

  predicate At(r: Repo, ref: RefName, oid: Oid) {
    ref in r.refs && r.refs[ref] == oid
  }

  /** `git update-ref --create-reflog -m <subject> <ref> <oid>`, once it takes effect. */
  function Swapped(r: Repo, ref: RefName, oid: Oid, subject: string): Repo {
    r.(refs := r.refs[ref := oid], reflogs := r.reflogs[ref := [Entry(oid, subject)] + Reflog(r, ref)])
  }

  /** The ref a `git reset --hard` moves: whatever branch HEAD names at that moment. */
  function HeadMoved(r: Repo, oid: Oid, logged: bool): Repo {
    match r.head
    case Detached(_) => r.(head := Detached(oid))
    case OnBranch(ref) =>
      if logged then Swapped(r, ref, oid, "reset: moving to " + oid) else r.(refs := r.refs[ref := oid])
  }

  /** How many reflog entries a retry looks at. */
  const REFLOG_WINDOW: nat := 20

  function Newest(entries: seq<Entry>): seq<Entry> {
    if |entries| <= REFLOG_WINDOW then entries else entries[..REFLOG_WINDOW]
  }

  /** Newest first: every entry down to the named one must leave the branch at `oid`. */
  function CarriesFrom(entries: seq<Entry>, oid: Oid, subject: string): bool {
    if entries == [] || entries[0].revision != oid then false
    else if entries[0].subject == subject then true
    else CarriesFrom(entries[1..], oid, subject)
  }

  predicate Carries(entries: seq<Entry>, oid: Oid, subject: string) {
    CarriesFrom(Newest(entries), oid, subject)
  }

  /** The loop of `branch_carries_this_promotion`. */
  method BranchCarries(entries: seq<Entry>, oid: Oid, subject: string) returns (found: bool)
    ensures found == CarriesFrom(entries, oid, subject)
  {
    assert entries[0..] == entries;
    for i := 0 to |entries|
      invariant CarriesFrom(entries[i..], oid, subject) == CarriesFrom(entries, oid, subject)
    {
      assert entries[i..][0] == entries[i] && entries[i..][1..] == entries[i + 1..];
      if entries[i].revision != oid {
        return false;
      }
      if entries[i].subject == subject {
        return true;
      }
    }
    return false;
  }

  lemma {:induction false} CarriesFromAt(entries: seq<Entry>, oid: Oid, subject: string)
    ensures CarriesFrom(entries, oid, subject) <==>
            exists k :: 0 <= k < |entries| && entries[k].subject == subject
                        && forall j :: 0 <= j <= k ==> entries[j].revision == oid
  {
    if entries != [] {
      var rest := entries[1..];
      CarriesFromAt(rest, oid, subject);
      if CarriesFrom(entries, oid, subject) && entries[0].subject != subject {
        var k :| 0 <= k < |rest| && rest[k].subject == subject
                 && forall j :: 0 <= j <= k ==> rest[j].revision == oid;
        assert entries[k + 1].subject == subject;
        assert forall j :: 0 < j <= k + 1 ==> entries[j].revision == rest[j - 1].revision;
      }
      if k :| 0 <= k < |entries| && entries[k].subject == subject
              && forall j :: 0 <= j <= k ==> entries[j].revision == oid {
        if k > 0 && entries[0].subject != subject {
          assert rest[k - 1].subject == subject;
          assert forall j :: 0 <= j <= k - 1 ==> rest[j].revision == entries[j + 1].revision;
        }
      }
    }
  }

  /**
   * A branch carries the promotion exactly when one of its newest twenty entries has the
   * promotion's subject and that entry and all above it are at the accepted commit.
   */
  lemma CarriesMeans(entries: seq<Entry>, oid: Oid, subject: string)
    ensures Carries(entries, oid, subject) <==>
            exists k :: 0 <= k < |entries| && k < REFLOG_WINDOW && entries[k].subject == subject
                        && forall j :: 0 <= j <= k ==> entries[j].revision == oid
  {
    CarriesFromAt(Newest(entries), oid, subject);
    assert forall k :: 0 <= k < |entries| && k < REFLOG_WINDOW ==> Newest(entries)[k] == entries[k];
  }
}
