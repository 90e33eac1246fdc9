/** What the 8 MiB limit on the read loop's buffer does, for every way of cutting the bytes (`src/tunnel/yamux.cpp`). */
module YamuxGuard {
  import opened YamuxCodec
  import opened YamuxParser

  /** The bytes are complete frames of this version, none of them a GoAway. */
  predicate Whole(bytes: seq<Byte>) {
    ScanAll(bytes).rest == [] && !ScanAll(bytes).dead
  }

  predicate AllWithin(frames: seq<Frame>, limit: nat) {
    forall i :: 0 <= i < |frames| ==> HEADER_SIZE + |frames[i].payload| <= limit
  }

  /** The bytes come in pieces of at most `max`, none of them empty. */
  predicate Cuts(chunks: seq<seq<Byte>>, bytes: seq<Byte>, max: nat) {
    Concat(chunks) == bytes && forall i :: 0 <= i < |chunks| ==> 0 < |chunks[i]| <= max
  }

  // ---- one frame at the front ----

  /** A frame at the front is parsed from any prefix that holds it, and from no shorter one. */
  lemma FrontFrame(bytes: seq<Byte>, f: Frame, k: nat)
    requires ParseOne(bytes) == Got(f) && k <= |bytes|
    ensures ParseOne(bytes[..k]) == if k < HEADER_SIZE + |f.payload| then NeedMore else Got(f)
  {
    var n := HEADER_SIZE + |f.payload|;
    EncodeInvertsParse(bytes);
    hide ParseOne, Encode;
    if k < n {
      assert bytes[..k] == Encode(f)[..k];
      PrefixNeedsMore(f, k);
    } else {
      assert bytes[..k] == Encode(f) + bytes[n..k];
      ParseInvertsEncode(f, bytes[n..k]);
    }
  }

  lemma WholeStep(bytes: seq<Byte>) returns (f: Frame, n: nat)
    requires Whole(bytes) && bytes != []
    ensures ParseOne(bytes) == Got(f) && f.typ != TYPE_GO_AWAY && n == HEADER_SIZE + |f.payload| <= |bytes|
    ensures Whole(bytes[n..]) && ScanAll(bytes).frames == [f] + ScanAll(bytes[n..]).frames
  {
    hide ParseOne;
    f := ParseOne(bytes).frame;
    n := HEADER_SIZE + |f.payload|;
  }

  lemma ScanShort(bytes: seq<Byte>, f: Frame, k: nat)
    requires ParseOne(bytes) == Got(f) && k < HEADER_SIZE + |f.payload| && k <= |bytes|
    ensures ScanAll(bytes[..k]) == Scan([], bytes[..k], false)
  {
    FrontFrame(bytes, f, k);
  }

  lemma ScanLong(bytes: seq<Byte>, f: Frame, k: nat)
    requires ParseOne(bytes) == Got(f) && f.typ != TYPE_GO_AWAY && HEADER_SIZE + |f.payload| + k <= |bytes|
    ensures var n := HEADER_SIZE + |f.payload|; var s := ScanAll(bytes[n..][..k]);
      ScanAll(bytes[..n + k]) == s.(frames := [f] + s.frames)
  {
    hide *;
    var n := HEADER_SIZE + |f.payload|;
    FrontFrame(bytes, f, n + k);
    ScanFront(bytes[..n + k], f);
    assert bytes[..n + k][n..] == bytes[n..][..k];
  }

  lemma WithinStep(f: Frame, frames: seq<Frame>, limit: nat)
    ensures AllWithin([f] + frames, limit) <==> HEADER_SIZE + |f.payload| <= limit && AllWithin(frames, limit)
  {
    var all := [f] + frames;
    if AllWithin(all, limit) {
      assert all[0] == f;
      forall i | 0 <= i < |frames| ensures HEADER_SIZE + |frames[i].payload| <= limit {
        assert all[i + 1] == frames[i];
      }
    }
  }

  /** The bytes up to `k` end inside a frame, with more than the limit of it waiting. */
  predicate Overfull(bytes: seq<Byte>, k: nat) {
    k <= |bytes| && !ScanAll(bytes[..k]).dead && |ScanAll(bytes[..k]).rest| > MAX_INBUF
  }

  lemma OverfullInFrame(bytes: seq<Byte>, f: Frame, k: nat)
    requires ParseOne(bytes) == Got(f) && MAX_INBUF < k < HEADER_SIZE + |f.payload|
    ensures Overfull(bytes, k)
  {
    hide ScanAll;
    ScanShort(bytes, f, k);
  }

  lemma OverfullLater(bytes: seq<Byte>, f: Frame, k: nat)
    requires ParseOne(bytes) == Got(f) && f.typ != TYPE_GO_AWAY && Overfull(bytes[HEADER_SIZE + |f.payload|..], k)
    ensures Overfull(bytes, HEADER_SIZE + |f.payload| + k)
  {
    hide ScanAll, ParseOne;
    ScanLong(bytes, f, k);
  }

  /** A frame larger than `limit` leaves a window of positions at which the buffer is over its limit. */
  lemma {:induction false} OversizeWindow(bytes: seq<Byte>, limit: nat) returns (lo: nat, hi: nat)
    requires Whole(bytes) && limit > MAX_INBUF && !AllWithin(ScanAll(bytes).frames, limit)
    ensures 0 < lo <= hi < |bytes| && hi - lo + 1 >= limit - MAX_INBUF
    ensures forall k :: lo <= k <= hi ==> Overfull(bytes, k)
    decreases |bytes|
  {
    hide *;
    NotEmpty(bytes, limit);
    var f, n := WholeStep(bytes);
    WithinStep(f, ScanAll(bytes[n..]).frames, limit);
    if n > limit {
      lo, hi := MAX_INBUF + 1, n - 1;
      forall k | lo <= k <= hi ensures Overfull(bytes, k) {
        OverfullInFrame(bytes, f, k);
      }
    } else {
      var lo', hi' := OversizeWindow(bytes[n..], limit);
      lo, hi := n + lo', n + hi';
      forall k | lo <= k <= hi ensures Overfull(bytes, k) {
        OverfullLater(bytes, f, k - n);
      }
    }
  }

  lemma NotEmpty(bytes: seq<Byte>, limit: nat)
    requires !AllWithin(ScanAll(bytes).frames, limit)
    ensures bytes != []
  {
  }

  lemma {:induction false} FitsWhenWithin(bytes: seq<Byte>)
    requires Whole(bytes) && AllWithin(ScanAll(bytes).frames, MAX_INBUF + 1)
    ensures FramesFit(bytes)
    decreases |bytes|
  {
    if bytes != [] {
      var f, n := WholeStep(bytes);
      WithinStep(f, ScanAll(bytes[n..]).frames, MAX_INBUF + 1);
      assert n == HEADER_SIZE + GetU32(bytes, 8);
      hide ScanAll, GetU32;
      FitsWhenWithin(bytes[n..]);
    }
  }

  // ---- boundaries ----

  lemma {:induction false} ConcatSplit(chunks: seq<seq<Byte>>, i: nat)
    requires i < |chunks|
    ensures Concat(chunks[..i + 1]) == Concat(chunks[..i]) + chunks[i]
  {
    assert chunks[..i + 1][..i] == chunks[..i];
  }

  /** Steps of at most `max` cannot jump over a window that wide. */
  lemma {:induction false} BoundaryIn(chunks: seq<seq<Byte>>, bytes: seq<Byte>, max: nat, lo: nat, hi: nat, i: nat)
    returns (j: nat)
    requires Cuts(chunks, bytes, max) && hi - lo + 1 >= max && hi < |bytes|
    requires i <= |chunks| && |Concat(chunks[..i])| < lo
    ensures j <= |chunks| && lo <= |Concat(chunks[..j])| <= hi
    decreases |chunks| - i
  {
    assert chunks[..|chunks|] == chunks;
    ConcatSplit(chunks, i);
    if |Concat(chunks[..i + 1])| >= lo {
      j := i + 1;
    } else {
      j := BoundaryIn(chunks, bytes, max, lo, hi, i + 1);
    }
  }

  /** A frame over the limit by at least the size of the pieces kills the session, however the bytes are cut. */
  lemma OversizeDies(chunks: seq<seq<Byte>>, bytes: seq<Byte>, max: nat)
    requires Whole(bytes) && max > 0 && Cuts(chunks, bytes, max) && !AllWithin(ScanAll(bytes).frames, MAX_INBUF + max)
    ensures ReceiveAll(START, chunks).dead
  {
    var lo, hi := OversizeWindow(bytes, MAX_INBUF + max);
    assert Concat(chunks[..0]) == [];
    var j := BoundaryIn(chunks, bytes, max, lo, hi, 0);
    var k := |Concat(chunks[..j])|;
    ConcatPrefix(chunks, j);
    assert Concat(chunks[..j]) == bytes[..k];
    assert Overfull(bytes, k);
    hide ScanAll, ReceiveAll;
    assert GuardAt(chunks, j);
    ReceiveAllExact(chunks);
  }

  // ---- cutting so that the session survives ----

  function Singles(bytes: seq<Byte>): seq<seq<Byte>> {
    if bytes == [] then [] else Singles(bytes[..|bytes| - 1]) + [[bytes[|bytes| - 1]]]
  }

  lemma {:induction false} SinglesCut(bytes: seq<Byte>)
    ensures Cuts(Singles(bytes), bytes, 1)
  {
    if bytes != [] {
      var front, last := bytes[..|bytes| - 1], bytes[|bytes| - 1];
      SinglesCut(front);
      ConcatConcat(Singles(front), [[last]]);
      ConcatOne([last]);
      assert bytes == front + [last];
    }
  }

  lemma ConcatOne(chunk: seq<Byte>)
    ensures Concat([chunk]) == chunk
  {
    assert [chunk][..0] == [] && [] + chunk == chunk;
  }

  lemma {:induction false} ConcatConcat(a: seq<seq<Byte>>, b: seq<seq<Byte>>)
    ensures Concat(a + b) == Concat(a) + Concat(b)
    decreases |b|
  {
    if b == [] {
      assert a + b == a && Concat(a) + [] == Concat(a);
    } else {
      var front, last := b[..|b| - 1], b[|b| - 1];
      assert (a + b)[..|a + b| - 1] == a + front && (a + b)[|a + b| - 1] == last;
      ConcatConcat(a, front);
      assert Concat(a + b) == Concat(a + front) + last && Concat(b) == Concat(front) + last;
      hide Concat;
      assert Concat(a) + (Concat(front) + last) == Concat(a) + Concat(front) + last;
    }
  }

  lemma CutsConcat(a: seq<seq<Byte>>, x: seq<Byte>, b: seq<seq<Byte>>, y: seq<Byte>, max: nat)
    requires Cuts(a, x, max) && Cuts(b, y, max)
    ensures Cuts(a + b, x + y, max)
  {
    ConcatConcat(a, b);
  }

  lemma {:induction false} ReceiveMore(r: Reader, a: seq<seq<Byte>>, b: seq<seq<Byte>>)
    ensures ReceiveAll(r, a + b) == ReceiveAll(ReceiveAll(r, a), b)
    decreases |b|
  {
    hide Receive;
    if b == [] {
      assert a + b == a;
    } else {
      assert (a + b)[..|a + b| - 1] == a + b[..|b| - 1];
      ReceiveMore(r, a, b[..|b| - 1]);
    }
  }

  /** The front of one frame, byte by byte, waits in the buffer. */
  lemma {:induction false} WaitingBytes(bytes: seq<Byte>, f: Frame, k: nat, done: seq<Frame>)
    requires ParseOne(bytes) == Got(f) && k < HEADER_SIZE + |f.payload| && k <= MAX_INBUF && k <= |bytes|
    ensures ReceiveAll(Reader([], done, false), Singles(bytes[..k])) == Reader(bytes[..k], done, false)
    decreases k
  {
    hide *;
    if k == 0 {
      NothingWaits(bytes, done);
    } else {
      WaitingBytes(bytes, f, k - 1, done);
      SinglesSnoc(bytes, k);
      ReceiveMore(Reader([], done, false), Singles(bytes[..k - 1]), [[bytes[k - 1]]]);
      OneMoreWaits(bytes, f, k, done);
    }
  }

  lemma NothingWaits(bytes: seq<Byte>, done: seq<Frame>)
    ensures ReceiveAll(Reader([], done, false), Singles(bytes[..0])) == Reader(bytes[..0], done, false)
  {
  }

  lemma SinglesSnoc(bytes: seq<Byte>, k: nat)
    requires 0 < k <= |bytes|
    ensures Singles(bytes[..k]) == Singles(bytes[..k - 1]) + [[bytes[k - 1]]]
  {
    assert bytes[..k][..k - 1] == bytes[..k - 1];
  }

  lemma OneMoreWaits(bytes: seq<Byte>, f: Frame, k: nat, done: seq<Frame>)
    requires ParseOne(bytes) == Got(f) && 0 < k < HEADER_SIZE + |f.payload| && k <= MAX_INBUF && k <= |bytes|
    ensures ReceiveAll(Reader(bytes[..k - 1], done, false), [[bytes[k - 1]]]) == Reader(bytes[..k], done, false)
  {
    ScanShort(bytes, f, k);
    hide ScanAll, ParseOne;
    assert [[bytes[k - 1]]][..0] == [];
    assert bytes[..k - 1] + [bytes[k - 1]] == bytes[..k] && done + [] == done;
  }

  /** One frame, cut so that at most the limit is ever left over. */
  function FramePieces(frame: seq<Byte>): seq<seq<Byte>>
    requires frame != []
  {
    var c := if |frame| - 1 < MAX_INBUF then |frame| - 1 else MAX_INBUF;
    Singles(frame[..c]) + [frame[c..]]
  }

  lemma FrameSurvives(bytes: seq<Byte>, f: Frame, done: seq<Frame>)
    requires ParseOne(bytes) == Got(f) && f.typ != TYPE_GO_AWAY && HEADER_SIZE + |f.payload| <= MAX_INBUF + RECV_SIZE
    ensures var frame := bytes[..HEADER_SIZE + |f.payload|];
      && Cuts(FramePieces(frame), frame, RECV_SIZE)
      && ReceiveAll(Reader([], done, false), FramePieces(frame)) == Reader([], done + [f], false)
  {
    var n := HEADER_SIZE + |f.payload|;
    var frame := bytes[..n];
    var c := if n - 1 < MAX_INBUF then n - 1 else MAX_INBUF;
    assert frame[..c] == bytes[..c] && frame[..c] + frame[c..] == frame;
    SinglesCut(frame[..c]);
    ConcatOne(frame[c..]);
    CutsConcat(Singles(frame[..c]), frame[..c], [frame[c..]], frame[c..], RECV_SIZE);
    WaitingBytes(bytes, f, c, done);
    ReceiveMore(Reader([], done, false), Singles(frame[..c]), [frame[c..]]);
    LastPiece(bytes, f, c, done);
  }

  lemma LastPiece(bytes: seq<Byte>, f: Frame, c: nat, done: seq<Frame>)
    requires ParseOne(bytes) == Got(f) && f.typ != TYPE_GO_AWAY && c < HEADER_SIZE + |f.payload|
    ensures ReceiveAll(Reader(bytes[..c], done, false), [bytes[..HEADER_SIZE + |f.payload|][c..]])
      == Reader([], done + [f], false)
  {
    var frame := bytes[..HEADER_SIZE + |f.payload|];
    assert [frame[c..]][..0] == [];
    assert bytes[..c] + frame[c..] == frame;
    ScanLong(bytes, f, 0);
    assert ScanAll([]) == Scan([], [], false);
    assert [f] + [] == [f];
    hide ParseOne;
  }

  /** When no frame exceeds the limit by more than one piece, some cutting lets them all through. */
  lemma {:induction false} Survives(bytes: seq<Byte>, done: seq<Frame>) returns (chunks: seq<seq<Byte>>)
    requires Whole(bytes) && AllWithin(ScanAll(bytes).frames, MAX_INBUF + RECV_SIZE)
    ensures Cuts(chunks, bytes, RECV_SIZE)
    ensures ReceiveAll(Reader([], done, false), chunks) == Reader([], done + ScanAll(bytes).frames, false)
    decreases |bytes|
  {
    hide *;
    if bytes == [] {
      chunks := [];
      NothingToCut(done);
    } else {
      var f, n := WholeStep(bytes);
      WithinStep(f, ScanAll(bytes[n..]).frames, MAX_INBUF + RECV_SIZE);
      FrameSurvives(bytes, f, done);
      var first := FramePieces(bytes[..n]);
      var later := Survives(bytes[n..], done + [f]);
      chunks := first + later;
      ReceiveMore(Reader([], done, false), first, later);
      CutsConcat(first, bytes[..n], later, bytes[n..], RECV_SIZE);
      assert bytes[..n] + bytes[n..] == bytes;
      AssocDispatched(done, f, ScanAll(bytes[n..]).frames);
    }
  }

  lemma NothingToCut(done: seq<Frame>)
    ensures Cuts([], [], RECV_SIZE)
    ensures ReceiveAll(Reader([], done, false), []) == Reader([], done + ScanAll([]).frames, false)
  {
    assert done + [] == done;
  }

  lemma AssocDispatched(done: seq<Frame>, f: Frame, more: seq<Frame>)
    ensures done + ([f] + more) == done + [f] + more
  {
  }

  // ---- the limits, exactly ----

  /**
   However `recv` cuts whole frames, all of them are dispatched and the session lives, exactly when each fits the
   limit.
   */
  lemma EveryCutSurvivesExactly(bytes: seq<Byte>)
    requires Whole(bytes)
    ensures (forall chunks :: Cuts(chunks, bytes, RECV_SIZE) ==>
               !ReceiveAll(START, chunks).dead && ReceiveAll(START, chunks).dispatched == ScanAll(bytes).frames)
      <==> AllWithin(ScanAll(bytes).frames, MAX_INBUF + 1)
  {
    if AllWithin(ScanAll(bytes).frames, MAX_INBUF + 1) {
      FitsWhenWithin(bytes);
      hide ScanAll, ReceiveAll, FramesFit;
      forall chunks | Cuts(chunks, bytes, RECV_SIZE)
        ensures !ReceiveAll(START, chunks).dead && ReceiveAll(START, chunks).dispatched == ScanAll(bytes).frames
      {
        NoGuardWhenFitting(chunks);
        ReceiveAllExact(chunks);
      }
    } else {
      SinglesCut(bytes);
      OversizeDies(Singles(bytes), bytes, 1);
      assert Cuts(Singles(bytes), bytes, RECV_SIZE);
    }
  }

  /** Some cutting lets them all through exactly when none exceeds the limit by more than the size of a `recv`. */
  lemma SomeCutSurvivesExactly(bytes: seq<Byte>)
    requires Whole(bytes)
    ensures (exists chunks :: Cuts(chunks, bytes, RECV_SIZE) && !ReceiveAll(START, chunks).dead)
      <==> AllWithin(ScanAll(bytes).frames, MAX_INBUF + RECV_SIZE)
  {
    if AllWithin(ScanAll(bytes).frames, MAX_INBUF + RECV_SIZE) {
      var chunks := Survives(bytes, []);
      hide ScanAll, ReceiveAll;
      assert Cuts(chunks, bytes, RECV_SIZE) && !ReceiveAll(START, chunks).dead;
    } else {
      hide ScanAll, ReceiveAll, AllWithin;
      forall chunks | Cuts(chunks, bytes, RECV_SIZE) ensures ReceiveAll(START, chunks).dead {
        OversizeDies(chunks, bytes, RECV_SIZE);
      }
    }
  }
}
