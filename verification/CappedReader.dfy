/** Reading a child's output up to a cap, whatever pieces the pipe delivers it in. */
module CappedReader {
  import opened Common

  const CHUNK_BYTES: nat := 8 * 1024

  /** How one `read` comes back; `released` tells whether nobody wants the output any more by then. */
  datatype ReadOutcome = Chunk(bytes: seq<byte>, released: bool) | Interrupted | Broken

  datatype OnCap = Stop | Drain

  /** A pipe gives at most one buffer at a time, and an empty read is end of file. */
  predicate FromBuffer(pieces: seq<ReadOutcome>) {
    forall i :: 0 <= i < |pieces| ==> pieces[i].Chunk? ==> |pieces[i].bytes| <= CHUNK_BYTES
  }

  predicate EndsHere(o: ReadOutcome) {
    o.Broken? || (o.Chunk? && (o.bytes == [] || o.released))
  }

  function BytesOf(o: ReadOutcome): seq<byte> {
    if o.Chunk? then o.bytes else []
  }

  /** Everything delivered before end of file, a broken pipe or a release. */
  function Delivered(pieces: seq<ReadOutcome>): seq<byte> {
    if pieces == [] || EndsHere(pieces[0]) then []
    else BytesOf(pieces[0]) + Delivered(pieces[1..])
  }

  /** The first bytes of a stream, up to the cap. */
  function Capped(stream: seq<byte>, cap: nat): seq<byte> {
    if |stream| <= cap then stream else stream[..cap]
  }

  lemma CappedAppend(a: seq<byte>, b: seq<byte>, cap: nat)
    ensures |a| > cap ==> Capped(a + b, cap) == Capped(a, cap)
    ensures |a| <= cap ==> Capped(a + b, cap) == a + Capped(b, cap - |a|)
  {
  }

  /**
   * Keeps the first `cap` bytes delivered and tells whether there were more, in either mode;
   * draining reads on to the end, stopping reads at most one buffer past the cap.
   */
  method ReadCapped(pieces: seq<ReadOutcome>, cap: nat, onCap: OnCap)
    returns (bytes: seq<byte>, overCap: bool, taken: nat)
    requires FromBuffer(pieces)
    ensures bytes == Capped(Delivered(pieces), cap)
    ensures bytes <= Delivered(pieces) && |bytes| == Min(cap, |Delivered(pieces)|)
    ensures overCap <==> |Delivered(pieces)| > cap
    ensures taken <= |pieces|
    ensures onCap.Drain? || !overCap ==> taken == |pieces| || (taken < |pieces| && EndsHere(pieces[taken]))
    ensures onCap.Stop? ==> |Delivered(pieces[..taken])| <= cap + CHUNK_BYTES
  {
    bytes, overCap, taken := [], false, 0;
    while taken < |pieces|
      invariant taken <= |pieces| && ReadToEnd(pieces[..taken])
      invariant var got := Delivered(pieces[..taken]);
                bytes == Capped(got, cap) && (overCap <==> |got| > cap)
      invariant onCap.Stop? ==> !overCap
    {
      ghost var got := Delivered(pieces[..taken]);
      var outcome := pieces[taken];
      if EndsHere(outcome) {
        DeliveredAt(pieces, taken);
        assert got + [] == got;
        return;
      }
      DeliveredStep(pieces, taken);
      taken := taken + 1;
      if outcome.Interrupted? {
        assert got + [] == got;
        continue;
      }
      var room := if cap >= |bytes| then cap - |bytes| else 0;
      CappedAppend(got, outcome.bytes, cap);
      bytes := bytes + outcome.bytes[..if |outcome.bytes| <= room then |outcome.bytes| else room];
      if |outcome.bytes| > room {
        overCap := true;
        if onCap.Stop? {
          DeliveredAt(pieces, taken);
          CappedAppend(Delivered(pieces[..taken]), Delivered(pieces[taken..]), cap);
          return;
        }
      }
    }
    assert pieces[..taken] == pieces;
  }

  lemma {:induction false} DeliveredAppend(a: seq<ReadOutcome>, b: seq<ReadOutcome>)
    requires ReadToEnd(a)
    ensures Delivered(a + b) == Delivered(a) + Delivered(b)
  {
    if a == [] {
      assert a + b == b;
    } else {
      assert (a + b)[1..] == a[1..] + b;
      DeliveredAppend(a[1..], b);
    }
  }

  lemma DeliveredStep(pieces: seq<ReadOutcome>, i: nat)
    requires i < |pieces| && ReadToEnd(pieces[..i]) && !EndsHere(pieces[i])
    ensures Delivered(pieces[..i + 1]) == Delivered(pieces[..i]) + BytesOf(pieces[i])
    ensures ReadToEnd(pieces[..i + 1])
  {
    assert pieces[..i + 1] == pieces[..i] + [pieces[i]];
    DeliveredAppend(pieces[..i], [pieces[i]]);
    assert Delivered([pieces[i]]) == BytesOf(pieces[i]) + [];
  }

  lemma {:induction false} DeliveredAt(pieces: seq<ReadOutcome>, i: nat)
    requires i <= |pieces| && ReadToEnd(pieces[..i])
    ensures Delivered(pieces) == Delivered(pieces[..i]) + Delivered(pieces[i..])
  {
    assert pieces == pieces[..i] + pieces[i..];
    DeliveredAppend(pieces[..i], pieces[i..]);
  }

  // -------------------------------------------------------------- chunking

  /** A pipe that is read to its end: no release, no failure, no empty read before the end. */
  predicate ReadToEnd(pieces: seq<ReadOutcome>) {
    forall i :: 0 <= i < |pieces| ==>
      pieces[i].Interrupted? || (pieces[i].Chunk? && pieces[i].bytes != [] && !pieces[i].released)
  }

  /** The bytes the child wrote. */
  function Stream(pieces: seq<ReadOutcome>): seq<byte> {
    if pieces == [] then []
    else
      match pieces[0]
      case Chunk(bytes, _) => bytes + Stream(pieces[1..])
      case _ => Stream(pieces[1..])
  }

  lemma {:induction false} DeliveredIsStream(pieces: seq<ReadOutcome>)
    requires ReadToEnd(pieces)
    ensures Delivered(pieces) == Stream(pieces)
  {
    if pieces != [] {
      DeliveredIsStream(pieces[1..]);
    }
  }

  /** Where reading ends: end of file, a failure, or a release before the chunk is kept. */
  predicate StopsReading(pieces: seq<ReadOutcome>, n: nat) {
    && n <= |pieces| && ReadToEnd(pieces[..n])
    && (n < |pieces| ==> pieces[n].Broken? || (pieces[n].Chunk? && (pieces[n].bytes == [] || pieces[n].released)))
  }

  /** What is delivered is what was read before the first end; an interrupted read is no end. */
  lemma {:induction false} DeliveredStopsAtFirstEnd(pieces: seq<ReadOutcome>, n: nat)
    requires StopsReading(pieces, n)
    ensures Delivered(pieces) == Stream(pieces[..n])
  {
    DeliveredAt(pieces, n);
    DeliveredIsStream(pieces[..n]);
    assert Delivered(pieces[n..]) == [];
  }

  /** However the same bytes are cut into chunks and interrupted, the same bytes are delivered. */
  lemma ChunkingDoesNotMatter(a: seq<ReadOutcome>, b: seq<ReadOutcome>, cap: nat)
    requires ReadToEnd(a) && ReadToEnd(b) && Stream(a) == Stream(b)
    ensures Capped(Delivered(a), cap) == Capped(Stream(b), cap)
    ensures |Delivered(a)| > cap <==> |Delivered(b)| > cap
  {
    DeliveredIsStream(a);
    DeliveredIsStream(b);
  }
}
