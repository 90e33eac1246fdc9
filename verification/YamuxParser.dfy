/** The read loop's incremental parser, over arbitrary `recv` chunks (`src/tunnel/yamux.cpp`). */
module YamuxParser {
  import opened YamuxCodec

  /** The frames dispatched, the bytes left waiting, and whether the session died while parsing. */
  datatype Scan = Scan(frames: seq<Frame>, rest: seq<Byte>, dead: bool)

  /** Parses all complete frames; a bad version or a GoAway frame kills the session at once. */
  function ScanAll(buf: seq<Byte>): (s: Scan)
    ensures |s.rest| <= |buf|
  {
    match ParseOne(buf)
    case NeedMore => Scan([], buf, false)
    case BadVersion => Scan([], buf, true)
    case Got(f) =>
      if f.typ == TYPE_GO_AWAY then Scan([f], buf, true)
      else
        var s := ScanAll(buf[HEADER_SIZE + |f.payload|..]);
        s.(frames := [f] + s.frames)
  }

  /** The reader between two `recv` calls, with all it has dispatched so far. */
  datatype Reader = Reader(inbuf: seq<Byte>, dispatched: seq<Frame>, dead: bool)

  /** One `recv` that yields `chunk`. */
  function Receive(r: Reader, chunk: seq<Byte>): Reader {
    if r.dead then r
    else
      var s := ScanAll(r.inbuf + chunk);
      Reader(s.rest, r.dispatched + s.frames, s.dead || |s.rest| > MAX_INBUF)
  }

  function ReceiveAll(r: Reader, chunks: seq<seq<Byte>>): Reader {
    if chunks == [] then r else Receive(ReceiveAll(r, chunks[..|chunks| - 1]), chunks[|chunks| - 1])
  }

  function Concat(chunks: seq<seq<Byte>>): seq<Byte> {
    if chunks == [] then [] else Concat(chunks[..|chunks| - 1]) + chunks[|chunks| - 1]
  }

  const START := Reader([], [], false)

  lemma ParseOneExtends(a: seq<Byte>, b: seq<Byte>)
    ensures !ParseOne(a).NeedMore? ==> ParseOne(a + b) == ParseOne(a)
  {
    if !ParseOne(a).NeedMore? {
      assert (a + b)[0] == a[0];
      assert forall i :: 0 <= i < |a| ==> (a + b)[i] == a[i];
      if ParseOne(a).Got? {
        var plen := GetU32(a, 8);
        assert (a + b)[HEADER_SIZE..HEADER_SIZE + plen] == a[HEADER_SIZE..HEADER_SIZE + plen];
      }
    }
  }

  /** The first frame, then the rest. */
  lemma ScanFront(buf: seq<Byte>, f: Frame)
    requires ParseOne(buf) == Got(f)
    ensures ScanAll(buf) ==
      if f.typ == TYPE_GO_AWAY then Scan([f], buf, true)
      else
        var s := ScanAll(buf[HEADER_SIZE + |f.payload|..]);
        s.(frames := [f] + s.frames)
  {
  }

  /** Scanning in two pieces: what is left of the first piece goes in front of the second. */
  lemma {:induction false} ScanInPieces(a: seq<Byte>, b: seq<Byte>)
    ensures var s := ScanAll(a);
      && (s.dead ==> ScanAll(a + b).frames == s.frames && ScanAll(a + b).dead)
      && (!s.dead ==>
            var t := ScanAll(s.rest + b);
            ScanAll(a + b) == t.(frames := s.frames + t.frames))
  {
    ParseOneExtends(a, b);
    match ParseOne(a)
    case NeedMore =>
      var t := ScanAll(a + b);
      assert [] + t.frames == t.frames;
    case BadVersion =>
    case Got(f) =>
      if f.typ != TYPE_GO_AWAY {
        var n := HEADER_SIZE + |f.payload|;
        assert (a + b)[n..] == a[n..] + b;
        ScanInPieces(a[n..], b);
        var s := ScanAll(a[n..]);
        var t := ScanAll(s.rest + b);
        assert [f] + (s.frames + t.frames) == ([f] + s.frames) + t.frames;
      }
  }

  /** The bytes of a stream outgrow the buffer at some chunk boundary, before the parse kills the session. */
  ghost predicate GuardAt(chunks: seq<seq<Byte>>, i: nat)
    requires i <= |chunks|
  {
    var s := ScanAll(Concat(chunks[..i]));
    !s.dead && |s.rest| > MAX_INBUF
  }

  ghost predicate GuardFires(chunks: seq<seq<Byte>>) {
    exists i :: 0 <= i <= |chunks| && GuardAt(chunks, i)
  }

  lemma GuardSnoc(chunks: seq<seq<Byte>>)
    requires chunks != []
    ensures GuardFires(chunks) <==> GuardFires(chunks[..|chunks| - 1]) || GuardAt(chunks, |chunks|)
  {
    var front := chunks[..|chunks| - 1];
    forall i | 0 <= i <= |front| ensures GuardAt(front, i) <==> GuardAt(chunks, i) {
      assert front[..i] == chunks[..i];
    }
    if GuardFires(chunks) {
      var i :| 0 <= i <= |chunks| && GuardAt(chunks, i);
      assert i <= |front| ==> GuardAt(front, i);
    }
    if GuardFires(front) {
      var i :| 0 <= i <= |front| && GuardAt(front, i);
      assert GuardAt(chunks, i);
    }
  }

  /**
   Exactly what a chunked read does: it dies if and only if one pass over the concatenated bytes dies, or
   the guard fires at some chunk boundary; and while the guard stays silent it dispatches exactly the
   frames of that one pass.
   */
  lemma {:induction false} ReceiveAllExact(chunks: seq<seq<Byte>>)
    ensures var r, s := ReceiveAll(START, chunks), ScanAll(Concat(chunks));
      && (r.dead <==> s.dead || GuardFires(chunks))
      && (!GuardFires(chunks) ==> r.dispatched == s.frames)
      && (!r.dead ==> r.inbuf == s.rest)
    decreases |chunks|
  {
    if chunks == [] {
      assert Concat(chunks[..0]) == [];
    } else {
      var front, last := chunks[..|chunks| - 1], chunks[|chunks| - 1];
      ReceiveAllExact(front);
      GuardSnoc(chunks);
      assert chunks[..|chunks|] == chunks;
      ScanInPieces(Concat(front), last);
    }
  }

  /** Every frame whose header can be read is at most one byte larger than the buffer limit. */
  predicate FramesFit(buf: seq<Byte>) {
    if |buf| < HEADER_SIZE || buf[0] != VERSION then true
    else
      var size := HEADER_SIZE + GetU32(buf, 8);
      && size <= MAX_INBUF + 1
      && (size <= |buf| && buf[1] != TYPE_GO_AWAY ==> FramesFit(buf[size..]))
  }

  lemma {:induction false} FittingRestIsShort(a: seq<Byte>, b: seq<Byte>)
    requires FramesFit(a + b)
    ensures !ScanAll(a).dead ==> |ScanAll(a).rest| <= MAX_INBUF
  {
    if |a| >= HEADER_SIZE && a[0] == VERSION {
      assert forall i :: 0 <= i < |a| ==> (a + b)[i] == a[i];
      var size := HEADER_SIZE + GetU32(a, 8);
      if size <= |a| && a[1] != TYPE_GO_AWAY {
        assert (a + b)[size..] == a[size..] + b;
        FittingRestIsShort(a[size..], b);
      }
    }
  }

  lemma {:induction false} ConcatPrefix(chunks: seq<seq<Byte>>, i: nat)
    requires i <= |chunks|
    ensures Concat(chunks[..i]) <= Concat(chunks)
    decreases |chunks|
  {
    if i == |chunks| {
      assert chunks[..i] == chunks;
    } else {
      var front := chunks[..|chunks| - 1];
      ConcatPrefix(front, i);
      assert front[..i] == chunks[..i];
    }
  }

  /** For streams of fitting frames, how `recv` cuts the bytes makes no difference to what is dispatched or to dying. */
  lemma ChunkingIsImmaterial(chunks: seq<seq<Byte>>, chunks': seq<seq<Byte>>)
    requires Concat(chunks) == Concat(chunks') && FramesFit(Concat(chunks))
    ensures var r, r' := ReceiveAll(START, chunks), ReceiveAll(START, chunks');
      r.dispatched == r'.dispatched && r.dead == r'.dead && (!r.dead ==> r == r')
  {
    NoGuardWhenFitting(chunks);
    NoGuardWhenFitting(chunks');
    ReceiveAllExact(chunks);
    ReceiveAllExact(chunks');
  }

  lemma NoGuardWhenFitting(chunks: seq<seq<Byte>>)
    requires FramesFit(Concat(chunks))
    ensures !GuardFires(chunks)
  {
    forall i | 0 <= i <= |chunks| ensures !GuardAt(chunks, i) {
      ConcatPrefix(chunks, i);
      var a := Concat(chunks[..i]);
      assert Concat(chunks) == a + Concat(chunks)[|a|..];
      FittingRestIsShort(a, Concat(chunks)[|a|..]);
    }
  }
}
