/** Equal configuration pins: exactly when no file the walk reached has changed. */
module ChainIdentity {
  import opened Common
  import opened Encoding
  import opened ConfigParser
  import opened ConfigChain

  /** A path or file longer than 2^64 - 1 bytes does not exist. */
  predicate Storable(v: Visit) {
    |v.path| < U64 && (v.content.Found? ==> |v.content.bytes| < U64)
  }

  predicate AllStorable(visits: seq<Visit>) {
    forall i :: 0 <= i < |visits| ==> Storable(visits[i])
  }

  /** Every visited file still has the content it was visited with. */
  predicate Unchanged(visits: seq<Visit>, fs: FileSystem) {
    forall i :: 0 <= i < |visits| ==> fs(visits[i].path) == Readable(visits[i].content)
  }

  ghost predicate SelfEqual(host: Host) {
    forall p :: host.same(p, p)
  }

  // ------------------------------------------------------- the stream is injective

  /** A visit's encoding is self-delimiting. */
  lemma EncodeVisitSplits(v: Visit, x: Bytes, w: Visit, y: Bytes)
    requires Storable(v) && Storable(w)
    requires EncodeVisit(v) + x == EncodeVisit(w) + y
    ensures v == w && x == y
  {
    var a := EncodeVisit(v)[|PrefixedBig(v.path)|..];
    var b := EncodeVisit(w)[|PrefixedBig(w.path)|..];
    Associate(PrefixedBig(v.path), a, x);
    Associate(PrefixedBig(w.path), b, y);
    PrefixedBigSplits(v.path, a + x, w.path, b + y);
    assert (a + x)[0] == a[0] && (b + y)[0] == b[0];
    if v.content.Found? {
      var s, t := v.content.bytes, w.content.bytes;
      assert (a + x)[1..] == PrefixedBig(s) + x && (b + y)[1..] == PrefixedBig(t) + y;
      PrefixedBigSplits(s, x, t, y);
    } else {
      assert (a + x)[1..] == x && (b + y)[1..] == y;
    }
  }

  lemma {:induction false} EncodeVisitsInjective(s: seq<Visit>, t: seq<Visit>)
    requires AllStorable(s) && AllStorable(t)
    requires EncodeVisits(s) == EncodeVisits(t)
    ensures s == t
  {
    if s == [] || t == [] {
      assert |PrefixedBig([])| == 8;
    } else {
      EncodeVisitSplits(s[0], EncodeVisits(s[1..]), t[0], EncodeVisits(t[1..]));
      EncodeVisitsInjective(s[1..], t[1..]);
      assert s == [s[0]] + s[1..] && t == [t[0]] + t[1..];
    }
  }

  // ------------------------------------------------------------- the walk

  /** The walk is driven by what it reads, so an unchanged reading is the same walk. */
  lemma {:induction false} UnchangedWalk(host: Host, before: FileSystem, after: FileSystem,
                                         queue: seq<Path>, seen: seq<Path>)
    requires Explore(host, before, queue, seen).Some?
    requires Unchanged(Explore(host, before, queue, seen).value, after)
    ensures Explore(host, after, queue, seen) == Explore(host, before, queue, seen)
    decreases MAX_CONFIG_INCLUDE_FILES - |seen|, |queue|
  {
    if queue != [] {
      var path := queue[0];
      var identity := host.identity(path);
      if identity in seen {
        UnchangedWalk(host, before, after, queue[1..], seen);
      } else {
        var v := Visit(path, before(path).content);
        var rest := Explore(host, before, queue[1..] + Includes(host, v), seen + [identity]).value;
        var whole := [v] + rest;
        assert whole[0] == v;
        assert forall i :: 0 <= i < |rest| ==> rest[i] == whole[i + 1];
        UnchangedWalk(host, before, after, queue[1..] + Includes(host, v), seen + [identity]);
      }
    }
  }

  lemma {:induction false} VisitsAreRead(host: Host, fs: FileSystem, queue: seq<Path>, seen: seq<Path>)
    requires Explore(host, fs, queue, seen).Some?
    ensures Unchanged(Explore(host, fs, queue, seen).value, fs)
    decreases MAX_CONFIG_INCLUDE_FILES - |seen|, |queue|
  {
    if queue != [] {
      var path := queue[0];
      var identity := host.identity(path);
      if identity in seen {
        VisitsAreRead(host, fs, queue[1..], seen);
      } else {
        var v := Visit(path, fs(path).content);
        VisitsAreRead(host, fs, queue[1..] + Includes(host, v), seen + [identity]);
      }
    }
  }

  /** Without an existing root nothing is ever included: every visit is an absent root. */
  lemma {:induction false} NoRootNothingFound(host: Host, fs: FileSystem, roots: seq<Path>,
                                              queue: seq<Path>, seen: seq<Path>)
    requires SelfEqual(host) && forall q :: q in queue ==> q in roots
    requires Explore(host, fs, queue, seen).Some?
    requires !RootExists(host, roots, Explore(host, fs, queue, seen).value)
    ensures forall v :: v in Explore(host, fs, queue, seen).value ==> v.content.Absent?
    decreases MAX_CONFIG_INCLUDE_FILES - |seen|, |queue|
  {
    if queue != [] {
      var path := queue[0];
      var identity := host.identity(path);
      if identity in seen {
        NoRootNothingFound(host, fs, roots, queue[1..], seen);
      } else {
        var v := Visit(path, fs(path).content);
        var left := queue[1..] + Includes(host, v);
        var rest := Explore(host, fs, left, seen + [identity]).value;
        var whole := [v] + rest;
        assert path in queue;
        var i :| 0 <= i < |roots| && roots[i] == path;
        assert whole[0] == v && host.same(roots[i], path);
        assert left == queue[1..];
        assert forall i :: 0 <= i < |rest| ==> whole[i + 1] == rest[i];
        NoRootNothingFound(host, fs, roots, left, seen + [identity]);
      }
    }
  }

  /** Two walks that find nothing look in the same places. */
  lemma {:induction false} NothingFoundSameWalk(host: Host, before: FileSystem, after: FileSystem,
                                                queue: seq<Path>, seen: seq<Path>)
    requires Explore(host, before, queue, seen).Some? && Explore(host, after, queue, seen).Some?
    requires forall v :: v in Explore(host, before, queue, seen).value ==> v.content.Absent?
    requires forall v :: v in Explore(host, after, queue, seen).value ==> v.content.Absent?
    ensures Explore(host, before, queue, seen) == Explore(host, after, queue, seen)
    decreases MAX_CONFIG_INCLUDE_FILES - |seen|, |queue|
  {
    if queue != [] {
      var path := queue[0];
      var identity := host.identity(path);
      if identity in seen {
        NothingFoundSameWalk(host, before, after, queue[1..], seen);
      } else {
        var v, w := Visit(path, before(path).content), Visit(path, after(path).content);
        assert v in Explore(host, before, queue, seen).value && w in Explore(host, after, queue, seen).value;
        NothingFoundSameWalk(host, before, after, queue[1..] + Includes(host, v), seen + [identity]);
      }
    }
  }

  // -------------------------------------------------------------- the pin

  lemma PreimageInjective(one: Host, other: Host, roots: seq<Path>, s: seq<Visit>, t: seq<Visit>)
    requires AllStorable(s) && AllStorable(t)
    requires Preimage(one, roots, s) == Preimage(other, roots, t) != None
    ensures s == t
  {
    SplitEqual(MAGIC, EncodeVisits(s), MAGIC, EncodeVisits(t));
    EncodeVisitsInjective(s, t);
  }

  /**
   * Even when links were retargeted between the two states, so that each walk canonicalizes in its
   * own way: equal pins over an existing root come from the same visits, and every file the first
   * walk visited has the same bytes or absence in the second state.
   */
  lemma {:induction false} EqualPinsAcrossRetargeting(earlier: Host, later: Host, before: FileSystem, after: FileSystem,
                                                      roots: seq<Path>, was: seq<Visit>, next: seq<Visit>)
    requires AllStorable(was) && AllStorable(next)
    requires Explore(earlier, before, roots, []) == Some(was) && Explore(later, after, roots, []) == Some(next)
    requires Preimage(earlier, roots, was) == Preimage(later, roots, next) != None
    ensures was == next && Unchanged(was, after)
  {
    PreimageInjective(earlier, later, roots, was, next);
    VisitsAreRead(later, after, roots, []);
  }

  /** Equal pins come from equal walks, even when the pin only says that no root exists. */
  lemma {:induction false} EqualPinsEqualWalks(host: Host, before: FileSystem, after: FileSystem,
                                               roots: seq<Path>, was: seq<Visit>, now: seq<Visit>)
    requires SelfEqual(host) && AllStorable(was) && AllStorable(now)
    requires Explore(host, before, roots, []) == Some(was) && Explore(host, after, roots, []) == Some(now)
    requires Preimage(host, roots, was) == Preimage(host, roots, now)
    ensures was == now
  {
    if RootExists(host, roots, was) {
      PreimageInjective(host, host, roots, was, now);
    } else {
      NoRootNothingFound(host, before, roots, roots, []);
      NoRootNothingFound(host, after, roots, roots, []);
      NothingFoundSameWalk(host, before, after, roots, []);
    }
  }

  /**
   * Two states give equal pins exactly when every file the first walk visited is, in the second
   * state, what it was: the same bytes, or still absent.
   */
  lemma {:induction false} PinEqualIffNothingVisitedChanged(host: Host, before: FileSystem, after: FileSystem,
                                                            roots: seq<Path>, was: seq<Visit>, now: seq<Visit>)
    requires SelfEqual(host) && AllStorable(was) && AllStorable(now)
    requires Explore(host, before, roots, []) == Some(was) && Explore(host, after, roots, []) == Some(now)
    ensures Preimage(host, roots, was) == Preimage(host, roots, now) <==> Unchanged(was, after)
  {
    if Preimage(host, roots, was) == Preimage(host, roots, now) {
      EqualPinsEqualWalks(host, before, after, roots, was, now);
      VisitsAreRead(host, after, roots, []);
    }
    if Unchanged(was, after) {
      UnchangedWalk(host, before, after, roots, []);
    }
  }
}
