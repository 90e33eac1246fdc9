/**
 Two endpoints of a yamux session joined by two FIFO channels, as a state machine over whole frames: what
 every interleaving of calls and deliveries keeps.
 */
module YamuxSystem {
  import opened Options
  import opened YamuxCodec
  import opened YamuxEndpoint

  /**
   One side: its endpoint, every frame it ever sent, how many of the peer's frames it has processed, and,
   per stream, everything that was written to it and read from it here.
   */
  datatype Side = Side(ep: Endpoint, sent: seq<Frame>, got: nat, wrote: map<nat, seq<Byte>>, read: map<nat, seq<Byte>>)

  /** The calls of the public interface that are enabled; `Read` stands for `read` and `try_read`. */
  datatype Op = Open | Write(sid: nat, data: seq<Byte>) | Read(sid: nat, len: nat) | Close(sid: nat) | Accept

  function Of(m: map<nat, seq<Byte>>, sid: nat): seq<Byte> {
    if sid in m then m[sid] else []
  }

  function Begin(client: bool): Side {
    Side(Start(client), [], 0, map[], map[])
  }

  // ---- steps ----

  /** Callers hold a stream object, and stream ids do not wrap around. */
  predicate Enabled(x: Side, op: Op) {
    match op
    case Open => x.ep.nextId + 2 < 0x1_0000_0000
    case Write(sid, _) => sid in x.ep.streams
    case Read(sid, _) => sid in x.ep.streams
    case Close(sid) => sid in x.ep.streams
    case Accept => true
  }

  function SendData(x: Side, sid: nat, payload: seq<Byte>): Side {
    x.(sent := x.sent + [Data(sid, payload)], wrote := x.wrote[sid := Of(x.wrote, sid) + payload])
  }

  /** `write` on an open stream: one frame for every 16 KiB. */
  function WriteChunks(x: Side, sid: nat, data: seq<Byte>): Side
    decreases |data|
  {
    if data == [] then x
    else
      var chunk := if |data| < DATA_FRAME_CAP then |data| else DATA_FRAME_CAP;
      WriteChunks(SendData(x, sid, data[..chunk]), sid, data[chunk..])
  }

  function DoOpen(x: Side): Side {
    var id := x.ep.nextId;
    x.(ep := x.ep.(nextId := NextId(id), streams := x.ep.streams[id := Stream([], false)]), sent := x.sent + [Syn(id)])
  }

  function DoRead(x: Side, sid: nat, len: nat): Side
    requires sid in x.ep.streams
  {
    var s := x.ep.streams[sid];
    var n := Taken(s, len);
    x.(ep := x.ep.(streams := x.ep.streams[sid := s.(buffer := s.buffer[n..])]),
       read := x.read[sid := Of(x.read, sid) + s.buffer[..n]])
  }

  function DoClose(x: Side, sid: nat): Side
    requires sid in x.ep.streams
  {
    var (ep, fs) := CloseStream(x.ep, sid);
    x.(ep := ep, sent := x.sent + fs)
  }

  function Local(x: Side, op: Op): Side
    requires Enabled(x, op)
  {
    match op
    case Open => DoOpen(x)
    case Write(sid, data) => if x.ep.streams[sid].closed then x else WriteChunks(x, sid, data)
    case Read(sid, len) => DoRead(x, sid, len)
    case Close(sid) => DoClose(x, sid)
    case Accept => x.(ep := x.ep.(pending := None))
  }

  /** The read loop of `y` dispatches the next frame that `x` sent. */
  function Deliver(x: Side, y: Side): Side
    requires y.got < |x.sent|
  {
    var (ep, fs) := Dispatch(y.ep, x.sent[y.got]);
    y.(ep := ep, sent := y.sent + fs, got := y.got + 1)
  }

  // ---- what is in a sequence of frames ----

  predicate IsData(f: Frame, sid: nat) { f.typ == TYPE_DATA && f.sid == sid }

  function DataOf(frames: seq<Frame>, sid: nat): seq<Byte> {
    if frames == [] then []
    else
      var f := frames[|frames| - 1];
      DataOf(frames[..|frames| - 1], sid) + if IsData(f, sid) then f.payload else []
  }

  function FinsOf(frames: seq<Frame>, sid: nat): nat {
    if frames == [] then 0
    else FinsOf(frames[..|frames| - 1], sid) + if frames[|frames| - 1] == Fin(sid) then 1 else 0
  }

  lemma Snoc(frames: seq<Frame>, f: Frame, sid: nat)
    ensures DataOf(frames + [f], sid) == DataOf(frames, sid) + if IsData(f, sid) then f.payload else []
    ensures FinsOf(frames + [f], sid) == FinsOf(frames, sid) + if f == Fin(sid) then 1 else 0
  {
    assert (frames + [f])[..|frames|] == frames;
  }

  // ---- the invariant of one direction, from x to y; x opens the ids of the given parity ----

  /** Only data, SYN, ACK and FIN frames travel, on streams that the sender knows. */
  ghost predicate Shape(x: Side, parity: nat) {
    && x.ep.nextId % 2 == parity && 0 < x.ep.nextId < 0x1_0000_0000
    && (forall sid :: sid in x.ep.streams ==> sid < 0x1_0000_0000)
    && forall i :: 0 <= i < |x.sent| ==>
         var f := x.sent[i];
         && f.sid in x.ep.streams
         && ((f == Data(f.sid, f.payload) && 0 < |f.payload| <= DATA_FRAME_CAP)
             || f == Syn(f.sid) || f == Ack(f.sid) || f == Fin(f.sid))
  }

  predicate IsSyn(f: Frame) {
    f == Syn(f.sid)
  }

  /** The SYN for `sid` is among the first `n` frames. */
  ghost predicate Announced(frames: seq<Frame>, n: nat, sid: nat) {
    exists i :: 0 <= i < n && i < |frames| && frames[i] == Syn(sid)
  }

  ghost predicate SynOnce(frames: seq<Frame>) {
    forall i, j :: 0 <= i < j < |frames| && IsSyn(frames[i]) ==> frames[j] != frames[i]
  }

  /** A stream of the given parity is announced before anything else is sent on it, and only by this side. */
  ghost predicate SynFirst(frames: seq<Frame>, parity: nat) {
    forall i :: 0 <= i < |frames| ==>
      if IsSyn(frames[i]) then frames[i].sid % 2 == parity
      else frames[i].sid % 2 == parity ==> Announced(frames, i, frames[i].sid)
  }

  /** Own streams are announced once, before anything else about them; the peer knows those whose SYN it processed. */
  ghost predicate Opened(x: Side, y: Side, parity: nat) {
    && y.got <= |x.sent| && SynOnce(x.sent) && SynFirst(x.sent, parity)
    && (forall sid :: sid in x.ep.streams && sid % 2 == parity ==>
          sid < x.ep.nextId && Announced(x.sent, |x.sent|, sid))
    && (forall sid: nat :: sid % 2 == parity ==> (sid in y.ep.streams <==> Announced(x.sent, y.got, sid)))
  }

  /** Everything that reached a stream here: what was read from it and what waits in its buffer. */
  function Received(y: Side, sid: nat): seq<Byte> {
    Of(y.read, sid) + if sid in y.ep.streams then y.ep.streams[sid].buffer else []
  }

  /** What was written is what was sent, and what was sent and processed is what was received. */
  ghost predicate Conserved(x: Side, y: Side) {
    && y.got <= |x.sent|
    && (forall sid :: Of(x.wrote, sid) == DataOf(x.sent, sid))
    && (forall sid :: Received(y, sid) == DataOf(x.sent[..y.got], sid))
  }

  /** No data follows the FIN of its stream. */
  ghost predicate FinLast(frames: seq<Frame>) {
    forall i, j :: 0 <= i < j < |frames| && frames[i] == Fin(frames[i].sid) ==> !IsData(frames[j], frames[i].sid)
  }

  /**
   A closed stream has sent exactly one FIN, an open one none, and no data after it; a processed FIN has closed the
   stream.
   */
  ghost predicate Finished(x: Side, y: Side) {
    && y.got <= |x.sent| && FinLast(x.sent)
    && (forall sid :: FinsOf(x.sent, sid) == if Closed(x, sid) then 1 else 0)
    && (forall sid :: FinsOf(x.sent[..y.got], sid) > 0 ==> Closed(y, sid))
  }

  predicate Closed(x: Side, sid: nat) {
    sid in x.ep.streams && x.ep.streams[sid].closed
  }

  ghost predicate Half(x: Side, y: Side, parity: nat) {
    Shape(x, parity) && Opened(x, y, parity) && Conserved(x, y) && Finished(x, y)
  }

  ghost predicate Both(x: Side, y: Side, parity: nat) {
    parity <= 1 && Half(x, y, parity) && Half(y, x, 1 - parity)
  }

  lemma BeginHalf(x: Side, y: Side, parity: nat)
    requires parity == x.ep.nextId % 2 && 0 < x.ep.nextId < 0x1_0000_0000
    requires x == Side(Endpoint(x.ep.nextId, map[], None), [], 0, map[], map[])
    requires y == Side(Endpoint(y.ep.nextId, map[], None), [], 0, map[], map[])
    ensures Half(x, y, parity)
  {
    assert Shape(x, parity);
    assert Opened(x, y, parity) by { hide Shape, Conserved, Finished; }
    assert Conserved(x, y) by { assert x.sent[..0] == []; hide Shape, Opened, Finished; }
    assert Finished(x, y) by { assert x.sent[..0] == []; hide Shape, Opened, Conserved; }
    hide Shape, Opened, Conserved, Finished;
  }

  lemma BeginBoth()
    ensures Both(Begin(true), Begin(false), 1)
  {
    hide Half;
    BeginHalf(Begin(true), Begin(false), 1);
    BeginHalf(Begin(false), Begin(true), 0);
  }

  // ---- sending one more frame ----

  /** `x'` is `x` after sending `f`; the streams, the bytes written and the closed flags change as `f` says. */
  ghost predicate Sent(x: Side, x': Side, f: Frame, parity: nat) {
    && x'.sent == x.sent + [f]
    && x'.ep.nextId % 2 == parity && x.ep.nextId <= x'.ep.nextId < 0x1_0000_0000
    && (if IsSyn(f) then
          && f.sid % 2 == parity && f.sid == x.ep.nextId < x'.ep.nextId && f.sid !in x.ep.streams
          && x'.ep.streams.Keys == x.ep.streams.Keys + {f.sid}
        else
          f.sid in x.ep.streams && x'.ep.streams.Keys == x.ep.streams.Keys)
    && (|| IsSyn(f) || f == Ack(f.sid) || f == Fin(f.sid)
        || (f == Data(f.sid, f.payload) && 0 < |f.payload| <= DATA_FRAME_CAP))
    && (forall sid :: Of(x'.wrote, sid) == Of(x.wrote, sid) + if IsData(f, sid) then f.payload else [])
    && (forall sid :: Closed(x', sid) <==> Closed(x, sid) || f == Fin(sid))
    && (forall sid :: f == Fin(sid) || IsData(f, sid) ==> !Closed(x, sid))
  }

  lemma SendKeepsShape(x: Side, x': Side, f: Frame, parity: nat)
    requires Shape(x, parity) && Sent(x, x', f, parity)
    ensures Shape(x', parity)
  {
  }

  lemma AnnouncedSnoc(frames: seq<Frame>, f: Frame, n: nat, sid: nat)
    requires n <= |frames|
    ensures Announced(frames + [f], n, sid) <==> Announced(frames, n, sid)
    ensures Announced(frames + [f], n + 1, sid) <==> Announced(frames, n, sid) || (frames + [f])[n] == Syn(sid)
  {
    var fs := frames + [f];
    if Announced(frames, n, sid) {
      var i :| 0 <= i < n && i < |frames| && frames[i] == Syn(sid);
      assert fs[i] == Syn(sid);
    }
    if Announced(fs, n + 1, sid) {
      var i :| 0 <= i < n + 1 && i < |fs| && fs[i] == Syn(sid);
      assert i < n ==> frames[i] == Syn(sid);
    }
    if fs[n] == Syn(sid) {
      assert Announced(fs, n + 1, sid);
    }
  }

  lemma SendKeepsOpened(x: Side, x': Side, y: Side, f: Frame, parity: nat)
    requires Shape(x, parity) && Opened(x, y, parity) && Sent(x, x', f, parity)
    ensures Opened(x', y, parity)
  {
    forall i | 0 <= i < |x'.sent| && !IsSyn(x'.sent[i]) && x'.sent[i].sid % 2 == parity
      ensures Announced(x'.sent, i, x'.sent[i].sid)
    {
      AnnouncedSnoc(x.sent, f, i, x'.sent[i].sid);
    }
    forall sid | sid in x'.ep.streams && sid % 2 == parity ensures Announced(x'.sent, |x'.sent|, sid) {
      AnnouncedSnoc(x.sent, f, |x.sent|, sid);
    }
    forall sid: nat | sid % 2 == parity ensures sid in y.ep.streams <==> Announced(x'.sent, y.got, sid) {
      AnnouncedSnoc(x.sent, f, y.got, sid);
    }
  }

  lemma SendKeepsConserved(x: Side, x': Side, y: Side, f: Frame, parity: nat)
    requires Conserved(x, y) && Sent(x, x', f, parity)
    ensures Conserved(x', y)
  {
    assert x'.sent[..y.got] == x.sent[..y.got];
    forall sid ensures Of(x'.wrote, sid) == DataOf(x'.sent, sid) {
      Snoc(x.sent, f, sid);
    }
  }

  lemma {:induction false} FinIsCounted(frames: seq<Frame>, sid: nat, i: nat)
    requires i < |frames| && frames[i] == Fin(sid)
    ensures FinsOf(frames, sid) > 0
    decreases |frames|
  {
    if i < |frames| - 1 { FinIsCounted(frames[..|frames| - 1], sid, i); }
  }

  lemma FinStaysLast(x: Side, f: Frame)
    requires FinLast(x.sent) && forall sid :: FinsOf(x.sent, sid) == if Closed(x, sid) then 1 else 0
    requires forall sid :: IsData(f, sid) ==> !Closed(x, sid)
    ensures FinLast(x.sent + [f])
  {
    hide FinsOf, Closed;
    forall i | 0 <= i < |x.sent| && x.sent[i] == Fin(x.sent[i].sid) ensures !IsData(f, x.sent[i].sid) {
      FinIsCounted(x.sent, x.sent[i].sid, i);
    }
  }

  lemma SendKeepsFinished(x: Side, x': Side, y: Side, f: Frame, parity: nat)
    requires Finished(x, y) && Sent(x, x', f, parity)
    ensures Finished(x', y)
  {
    assert x'.sent[..y.got] == x.sent[..y.got];
    FinStaysLast(x, f);
    hide FinLast;
    forall sid ensures FinsOf(x'.sent, sid) == if Closed(x', sid) then 1 else 0 {
      Snoc(x.sent, f, sid);
    }
  }

  lemma SendKeepsHalf(x: Side, x': Side, y: Side, f: Frame, parity: nat)
    requires Half(x, y, parity) && Sent(x, x', f, parity)
    ensures Half(x', y, parity)
  {
    hide Shape, Opened, Conserved, Finished;
    SendKeepsShape(x, x', f, parity);
    SendKeepsOpened(x, x', y, f, parity);
    SendKeepsConserved(x, x', y, f, parity);
    SendKeepsFinished(x, x', y, f, parity);
  }

  /** What the peer's half of the invariant sees of a side: it may close streams and open its own, no more. */
  ghost predicate SameToPeer(x: Side, x': Side, parity: nat) {
    && x'.got == x.got
    && (forall sid: nat :: sid % 2 != parity ==> (sid in x'.ep.streams <==> sid in x.ep.streams))
    && (forall sid :: Received(x', sid) == Received(x, sid))
    && (forall sid :: Closed(x, sid) ==> Closed(x', sid))
  }

  lemma PeerHalfKept(y: Side, x: Side, x': Side, parity: nat)
    requires parity <= 1 && Half(y, x, 1 - parity) && SameToPeer(x, x', parity)
    ensures Half(y, x', 1 - parity)
  {
    forall sid: nat | sid % 2 == 1 - parity ensures sid in x'.ep.streams <==> Announced(y.sent, x'.got, sid) {
    }
  }

  lemma SendKeeps(x: Side, x': Side, y: Side, f: Frame, parity: nat)
    requires Both(x, y, parity) && Sent(x, x', f, parity) && SameToPeer(x, x', parity)
    ensures Both(x', y, parity)
  {
    hide Half, Sent, SameToPeer;
    SendKeepsHalf(x, x', y, f, parity);
    PeerHalfKept(y, x, x', parity);
  }

  // ---- local calls ----

  lemma SendDataKeeps(x: Side, y: Side, parity: nat, sid: nat, payload: seq<Byte>)
    requires Both(x, y, parity) && sid in x.ep.streams && !x.ep.streams[sid].closed && 0 < |payload| <= DATA_FRAME_CAP
    ensures Both(SendData(x, sid, payload), y, parity)
  {
    hide Opened, Conserved, Finished;
    SendKeeps(x, SendData(x, sid, payload), y, Data(sid, payload), parity);
  }

  lemma {:induction false} WriteKeeps(x: Side, y: Side, parity: nat, sid: nat, data: seq<Byte>)
    requires Both(x, y, parity) && sid in x.ep.streams && !x.ep.streams[sid].closed
    ensures Both(WriteChunks(x, sid, data), y, parity)
    ensures Of(WriteChunks(x, sid, data).wrote, sid) == Of(x.wrote, sid) + data
    decreases |data|
  {
    hide Both;
    if data != [] {
      var chunk := if |data| < DATA_FRAME_CAP then |data| else DATA_FRAME_CAP;
      SendDataKeeps(x, y, parity, sid, data[..chunk]);
      WriteKeeps(SendData(x, sid, data[..chunk]), y, parity, sid, data[chunk..]);
      assert data == data[..chunk] + data[chunk..];
    }
  }

  function Chunk(data: seq<Byte>): nat {
    if |data| < DATA_FRAME_CAP then |data| else DATA_FRAME_CAP
  }

  lemma WriteStep(x: Side, sid: nat, data: seq<Byte>)
    requires data != []
    ensures var k := Chunk(data); var mid := SendData(x, sid, data[..k]);
      && WriteChunks(x, sid, data) == WriteChunks(mid, sid, data[k..])
      && Split(sid, data) == [Data(sid, data[..k])] + Split(sid, data[k..])
      && mid.sent == x.sent + [Data(sid, data[..k])] && mid.ep == x.ep && 0 < k <= |data|
  {
  }

  lemma WriteStop(x: Side, sid: nat)
    ensures WriteChunks(x, sid, []) == x && x.sent + Split(sid, []) == x.sent
  {
  }

  /** The frames of a `write` are those that the stream's `Write` hands to the session. */
  lemma {:induction false} WriteSendsSplit(x: Side, sid: nat, data: seq<Byte>)
    ensures WriteChunks(x, sid, data).sent == x.sent + Split(sid, data)
    ensures WriteChunks(x, sid, data).ep == x.ep
    decreases |data|
  {
    hide *;
    if data != [] {
      WriteStep(x, sid, data);
      var k := Chunk(data);
      WriteSendsSplit(SendData(x, sid, data[..k]), sid, data[k..]);
    } else {
      WriteStop(x, sid);
    }
  }

  lemma OpenIsSent(x: Side, parity: nat)
    requires x.ep.nextId % 2 == parity && Enabled(x, Open) && x.ep.nextId !in x.ep.streams
    ensures Sent(x, DoOpen(x), Syn(x.ep.nextId), parity) && SameToPeer(x, DoOpen(x), parity)
  {
    var x' := DoOpen(x);
    forall sid ensures Received(x', sid) == Received(x, sid) {
      assert sid == x.ep.nextId ==> Of(x.read, sid) + [] == Received(x, sid);
    }
  }

  lemma OpenKeeps(x: Side, y: Side, parity: nat)
    requires Both(x, y, parity) && Enabled(x, Open)
    ensures Both(DoOpen(x), y, parity)
  {
    NextIdIsNew(x, y, parity);
    hide Opened, Conserved, Finished, Sent, SameToPeer;
    OpenIsSent(x, parity);
    SendKeeps(x, DoOpen(x), y, Syn(x.ep.nextId), parity);
  }

  lemma NextIdIsNew(x: Side, y: Side, parity: nat)
    requires Both(x, y, parity)
    ensures x.ep.nextId !in x.ep.streams
  {
  }

  lemma CloseIsSent(x: Side, sid: nat, parity: nat)
    requires x.ep.nextId % 2 == parity && x.ep.nextId < 0x1_0000_0000
    requires sid in x.ep.streams && !x.ep.streams[sid].closed
    ensures Sent(x, DoClose(x, sid), Fin(sid), parity) && SameToPeer(x, DoClose(x, sid), parity)
  {
  }

  lemma CloseKeeps(x: Side, y: Side, parity: nat, sid: nat)
    requires Both(x, y, parity) && sid in x.ep.streams
    ensures Both(DoClose(x, sid), y, parity)
  {
    hide Opened, Conserved, Finished, Sent, SameToPeer;
    if x.ep.streams[sid].closed {
      assert x.sent + [] == x.sent;
      assert DoClose(x, sid) == x;
    } else {
      CloseIsSent(x, sid, parity);
      SendKeeps(x, DoClose(x, sid), y, Fin(sid), parity);
    }
  }

  /** `x'` differs from `x` only in what its own half of the invariant does not look at. */
  ghost predicate SameToSelf(x: Side, x': Side) {
    && x'.sent == x.sent && x'.wrote == x.wrote && x'.ep.nextId == x.ep.nextId
    && x'.ep.streams.Keys == x.ep.streams.Keys && forall sid :: Closed(x', sid) <==> Closed(x, sid)
  }

  lemma OwnHalfKept(x: Side, x': Side, y: Side, parity: nat)
    requires Half(x, y, parity) && SameToSelf(x, x')
    ensures Half(x', y, parity)
  {
  }

  lemma ReadIsInvisible(x: Side, sid: nat, len: nat, parity: nat)
    requires sid in x.ep.streams
    ensures SameToSelf(x, DoRead(x, sid, len)) && SameToPeer(x, DoRead(x, sid, len), parity)
  {
    var b := x.ep.streams[sid].buffer;
    var n := Taken(x.ep.streams[sid], len);
    assert b == b[..n] + b[n..];
    assert Of(x.read, sid) + b[..n] + b[n..] == Of(x.read, sid) + b;
  }

  lemma ReadKeeps(x: Side, y: Side, parity: nat, sid: nat, len: nat)
    requires Both(x, y, parity) && sid in x.ep.streams
    ensures Both(DoRead(x, sid, len), y, parity)
  {
    hide Half, SameToSelf, SameToPeer;
    ReadIsInvisible(x, sid, len, parity);
    OwnHalfKept(x, DoRead(x, sid, len), y, parity);
    PeerHalfKept(y, x, DoRead(x, sid, len), parity);
  }

  /** Every call of the public interface keeps the invariant, and `write` writes all or, when closed, nothing. */
  lemma LocalKeeps(x: Side, y: Side, parity: nat, op: Op)
    requires Both(x, y, parity) && Enabled(x, op)
    ensures Both(Local(x, op), y, parity)
  {
    hide Half;
    match op
    case Open => OpenKeeps(x, y, parity);
    case Write(sid, data) => if !x.ep.streams[sid].closed { WriteKeeps(x, y, parity, sid, data); }
    case Read(sid, len) => ReadKeeps(x, y, parity, sid, len);
    case Close(sid) => CloseKeeps(x, y, parity, sid);
    case Accept =>
      var x' := Local(x, op);
      assert SameToSelf(x, x') && SameToPeer(x, x', parity);
      OwnHalfKept(x, x', y, parity);
      PeerHalfKept(y, x, x', parity);
  }

  // ---- delivering a frame ----

  /** `y'` is `y` after dispatching `f`, as far as the sender's half of the invariant can tell. */
  ghost predicate Processed(y: Side, y': Side, f: Frame, parity: nat) {
    && y'.got == y.got + 1
    && (forall sid: nat :: sid % 2 == parity ==> (sid in y'.ep.streams <==> sid in y.ep.streams || f == Syn(sid)))
    && (forall sid :: Received(y', sid) == Received(y, sid) + if IsData(f, sid) then f.payload else [])
    && (forall sid :: Closed(y, sid) || f == Fin(sid) ==> Closed(y', sid))
  }

  lemma ProcessedKeepsOpened(x: Side, y: Side, y': Side, parity: nat)
    requires Opened(x, y, parity) && y.got < |x.sent| && Processed(y, y', x.sent[y.got], parity)
    ensures Opened(x, y', parity)
  {
    var f := x.sent[y.got];
    forall sid: nat ensures Announced(x.sent, y.got + 1, sid) <==> Announced(x.sent, y.got, sid) || f == Syn(sid) {
      if Announced(x.sent, y.got + 1, sid) {
        var i :| 0 <= i < y.got + 1 && x.sent[i] == Syn(sid);
        assert i < y.got ==> Announced(x.sent, y.got, sid);
      }
    }
  }

  lemma ProcessedKeepsConserved(x: Side, y: Side, y': Side, parity: nat)
    requires Conserved(x, y) && y.got < |x.sent| && Processed(y, y', x.sent[y.got], parity)
    ensures Conserved(x, y')
  {
    assert x.sent[..y.got + 1] == x.sent[..y.got] + [x.sent[y.got]];
    forall sid ensures Received(y', sid) == DataOf(x.sent[..y'.got], sid) {
      Snoc(x.sent[..y.got], x.sent[y.got], sid);
    }
  }

  lemma ProcessedKeepsFinished(x: Side, y: Side, y': Side, parity: nat)
    requires Finished(x, y) && y.got < |x.sent| && Processed(y, y', x.sent[y.got], parity)
    ensures Finished(x, y')
  {
    assert x.sent[..y.got + 1] == x.sent[..y.got] + [x.sent[y.got]];
    forall sid | FinsOf(x.sent[..y'.got], sid) > 0 ensures Closed(y', sid) {
      Snoc(x.sent[..y.got], x.sent[y.got], sid);
    }
  }

  lemma ProcessedKeepsHalf(x: Side, y: Side, y': Side, parity: nat)
    requires Half(x, y, parity) && y.got < |x.sent| && Processed(y, y', x.sent[y.got], parity)
    ensures Half(x, y', parity)
  {
    hide Shape, Opened, Conserved, Finished, Processed;
    ProcessedKeepsOpened(x, y, y', parity);
    ProcessedKeepsConserved(x, y, y', parity);
    ProcessedKeepsFinished(x, y, y', parity);
  }

  /** A SYN in flight is for a stream the receiver does not have; anything else is for one it has. */
  lemma KnownUnlessSyn(x: Side, y: Side, parity: nat)
    requires Both(x, y, parity) && y.got < |x.sent|
    ensures var f := x.sent[y.got];
      && (IsSyn(f) <==> f.sid !in y.ep.streams)
      && (IsSyn(f) ==> f.sid % 2 == parity)
      && f.sid < 0x1_0000_0000
  {
    var f := x.sent[y.got];
    if f.sid % 2 == parity {
      if IsSyn(f) {
        assert !Announced(x.sent, y.got, f.sid);
      } else {
        assert Announced(x.sent, y.got, f.sid);
      }
    } else {
      assert f.sid in x.ep.streams;
      assert Announced(y.sent, x.got, f.sid);
      var i :| 0 <= i < x.got && i < |y.sent| && y.sent[i] == Syn(f.sid);
      assert y.sent[i].sid in y.ep.streams;
    }
  }

  /** The effect of dispatching each kind of frame that can be in flight. */
  lemma DispatchIsProcessing(x: Side, y: Side, parity: nat)
    requires y.got < |x.sent|
    requires var f := x.sent[y.got];
      && (IsSyn(f) <==> f.sid !in y.ep.streams) && (IsSyn(f) ==> f.sid % 2 == parity)
      && (f == Data(f.sid, f.payload) || IsSyn(f) || f == Ack(f.sid) || f == Fin(f.sid))
    ensures Processed(y, Deliver(x, y), x.sent[y.got], parity)
  {
    var f, y' := x.sent[y.got], Deliver(x, y);
    forall sid ensures Received(y', sid) == Received(y, sid) + if IsData(f, sid) then f.payload else [] {
      assert Received(y, sid) + [] == Received(y, sid);
      if IsData(f, sid) {
        var b := y.ep.streams[sid].buffer;
        assert Of(y.read, sid) + (b + f.payload) == Of(y.read, sid) + b + f.payload;
      }
    }
  }

  /** `y` got a stream from its peer; its own half of the invariant does not care. */
  lemma ForeignAdded(y: Side, m: Side, x: Side, sid: nat, parity: nat)
    requires Half(y, x, parity) && sid % 2 != parity && sid !in y.ep.streams && sid < 0x1_0000_0000
    requires m.sent == y.sent && m.wrote == y.wrote && m.ep.nextId == y.ep.nextId
    requires m.ep.streams == y.ep.streams[sid := Stream([], false)]
    ensures Half(m, x, parity)
  {
    assert forall s :: Closed(m, s) <==> Closed(y, s);
  }

  lemma AckIsSent(m: Side, y': Side, sid: nat, parity: nat)
    requires m.ep.nextId % 2 == parity && m.ep.nextId < 0x1_0000_0000 && sid in m.ep.streams
    requires y'.sent == m.sent + [Ack(sid)] && y'.ep.streams == m.ep.streams && y'.ep.nextId == m.ep.nextId
      && y'.wrote == m.wrote
    ensures Sent(m, y', Ack(sid), parity)
  {
  }

  lemma FinIsAnswered(y: Side, y': Side, sid: nat, parity: nat)
    requires y.ep.nextId % 2 == parity && y.ep.nextId < 0x1_0000_0000 && sid in y.ep.streams
      && !y.ep.streams[sid].closed
    requires y'.sent == y.sent + [Fin(sid)] && y'.ep.nextId == y.ep.nextId && y'.wrote == y.wrote
    requires y'.ep.streams == y.ep.streams[sid := y.ep.streams[sid].(closed := true)]
    ensures Sent(y, y', Fin(sid), parity)
  {
  }

  lemma AcceptKeepsReceiver(x: Side, y: Side, parity: nat, sid: nat)
    requires parity <= 1 && Half(y, x, 1 - parity) && y.got < |x.sent| && x.sent[y.got] == Syn(sid)
    requires sid !in y.ep.streams && sid % 2 == parity && sid < 0x1_0000_0000
    ensures Half(Deliver(x, y), x, 1 - parity)
  {
    var m := y.(ep := y.ep.(streams := y.ep.streams[sid := Stream([], false)]));
    ForeignAdded(y, m, x, sid, 1 - parity);
    assert m.ep.nextId % 2 == 1 - parity && m.ep.nextId < 0x1_0000_0000 by { assert Shape(y, 1 - parity); }
    hide Half, Sent;
    AckIsSent(m, Deliver(x, y), sid, 1 - parity);
    SendKeepsHalf(m, Deliver(x, y), x, Ack(sid), 1 - parity);
  }

  lemma FinishKeepsReceiver(x: Side, y: Side, parity: nat, sid: nat)
    requires parity <= 1 && Half(y, x, 1 - parity) && y.got < |x.sent| && x.sent[y.got] == Fin(sid)
    requires sid in y.ep.streams && !y.ep.streams[sid].closed
    ensures Half(Deliver(x, y), x, 1 - parity)
  {
    assert y.ep.nextId % 2 == 1 - parity && y.ep.nextId < 0x1_0000_0000 by { assert Shape(y, 1 - parity); }
    hide Half, Sent;
    FinIsAnswered(y, Deliver(x, y), sid, 1 - parity);
    SendKeepsHalf(y, Deliver(x, y), x, Fin(sid), 1 - parity);
  }

  lemma QuietDispatch(x: Side, y: Side)
    requires y.got < |x.sent|
    requires var f := x.sent[y.got];
      && f.sid in y.ep.streams
      && (f == Data(f.sid, f.payload) || f == Ack(f.sid) || (f == Fin(f.sid) && y.ep.streams[f.sid].closed))
    ensures SameToSelf(y, Deliver(x, y))
  {
    assert y.sent + [] == y.sent;
  }

  /** The receiver's own half survives the dispatch, replies included. */
  lemma DeliverKeepsReceiver(x: Side, y: Side, parity: nat)
    requires parity <= 1 && Half(y, x, 1 - parity) && y.got < |x.sent|
    requires var f := x.sent[y.got];
      && (IsSyn(f) <==> f.sid !in y.ep.streams) && (IsSyn(f) ==> f.sid % 2 == parity) && f.sid < 0x1_0000_0000
      && (f == Data(f.sid, f.payload) || IsSyn(f) || f == Ack(f.sid) || f == Fin(f.sid))
    ensures Half(Deliver(x, y), x, 1 - parity)
  {
    hide Half, SameToSelf, Deliver;
    var f := x.sent[y.got];
    if IsSyn(f) {
      AcceptKeepsReceiver(x, y, parity, f.sid);
    } else if f == Fin(f.sid) && !y.ep.streams[f.sid].closed {
      FinishKeepsReceiver(x, y, parity, f.sid);
    } else {
      QuietDispatch(x, y);
      OwnHalfKept(y, Deliver(x, y), x, 1 - parity);
    }
  }

  /** Dispatching the next frame keeps the invariant of both directions. */
  lemma DeliverKeeps(x: Side, y: Side, parity: nat)
    requires Both(x, y, parity) && y.got < |x.sent|
    ensures Both(x, Deliver(x, y), parity)
  {
    KnownUnlessSyn(x, y, parity);
    FrameShape(x, parity, y.got);
    hide Half, Processed;
    DispatchIsProcessing(x, y, parity);
    ProcessedKeepsHalf(x, y, Deliver(x, y), parity);
    DeliverKeepsReceiver(x, y, parity);
  }

  lemma FrameShape(x: Side, parity: nat, i: nat)
    requires Shape(x, parity) && i < |x.sent|
    ensures var f := x.sent[i];
      && (f == Data(f.sid, f.payload) || IsSyn(f) || f == Ack(f.sid) || f == Fin(f.sid))
      && f.Valid() && f.typ != TYPE_GO_AWAY && |f.payload| <= DATA_FRAME_CAP
  {
  }

  // ---- what the invariant means ----

  /** The bytes readable here on a stream: already read, or waiting in the buffer. */
  lemma DeliveredIsPrefix(x: Side, y: Side, parity: nat, sid: nat)
    requires Both(x, y, parity)
    ensures Received(y, sid) <= Of(x.wrote, sid)
    ensures y.got == |x.sent| ==> Received(y, sid) == Of(x.wrote, sid)
  {
    DataOfPrefix(x.sent, y.got, sid);
    assert x.sent[..|x.sent|] == x.sent;
  }

  lemma {:induction false} DataOfPrefix(frames: seq<Frame>, n: nat, sid: nat)
    requires n <= |frames|
    ensures DataOf(frames[..n], sid) <= DataOf(frames, sid)
    decreases |frames|
  {
    if n < |frames| {
      DataOfPrefix(frames[..|frames| - 1], n, sid);
      assert frames[..|frames| - 1][..n] == frames[..n];
    } else {
      assert frames[..n] == frames;
    }
  }

  lemma {:induction false} FinsOfSplit(frames: seq<Frame>, n: nat, sid: nat)
    requires n <= |frames|
    ensures FinsOf(frames[..n], sid) <= FinsOf(frames, sid)
    ensures FinsOf(frames, sid) > FinsOf(frames[..n], sid) ==> exists i :: n <= i < |frames| && frames[i] == Fin(sid)
    decreases |frames|
  {
    if n < |frames| {
      var front := frames[..|frames| - 1];
      FinsOfSplit(front, n, sid);
      assert front[..n] == frames[..n];
      if FinsOf(frames, sid) > FinsOf(frames[..n], sid) && frames[|frames| - 1] != Fin(sid) {
        var i :| n <= i < |front| && front[i] == Fin(sid);
        assert frames[i] == Fin(sid);
      }
    } else {
      assert frames[..n] == frames;
    }
  }

  /** A stream closed on one side only has its FIN in flight to the other. */
  lemma ClosedHasFinInFlight(x: Side, y: Side, parity: nat, sid: nat)
    requires Both(x, y, parity) && Closed(x, sid) && !Closed(y, sid)
    ensures exists i :: y.got <= i < |x.sent| && x.sent[i] == Fin(sid)
  {
    FinsOfSplit(x.sent, y.got, sid);
  }

  lemma {:induction false} NoDataAfterFin(frames: seq<Frame>, n: nat, sid: nat, i: nat)
    requires FinLast(frames) && i < n <= |frames| && frames[i] == Fin(sid)
    ensures DataOf(frames[..n], sid) == DataOf(frames, sid)
    decreases |frames|
  {
    if n == |frames| {
      assert frames[..n] == frames;
    } else {
      var front := frames[..|frames| - 1];
      assert front[..n] == frames[..n];
      NoDataAfterFin(front, n, sid, i);
      assert !IsData(frames[|frames| - 1], sid);
    }
  }

  /** Once a stream's FIN is processed, everything written to the stream has been received. */
  lemma FinMeansComplete(x: Side, y: Side, parity: nat, sid: nat)
    requires Both(x, y, parity)
    ensures y.got <= |x.sent| && (FinsOf(x.sent[..y.got], sid) > 0 ==> Received(y, sid) == Of(x.wrote, sid))
  {
    if FinsOf(x.sent[..y.got], sid) > 0 {
      FinsOfSplit(x.sent[..y.got], 0, sid);
      var i :| 0 <= i < y.got && x.sent[..y.got][i] == Fin(sid);
      assert FinLast(x.sent);
      NoDataAfterFin(x.sent, y.got, sid, i);
    }
  }

  /** At most one FIN per stream and side; and once both channels are drained the two sides agree. */
  lemma CloseAgrees(x: Side, y: Side, parity: nat, sid: nat)
    requires Both(x, y, parity)
    ensures FinsOf(x.sent, sid) <= 1 && FinsOf(y.sent, sid) <= 1
    ensures y.got == |x.sent| && x.got == |y.sent| ==> (Closed(x, sid) <==> Closed(y, sid))
  {
    hide Shape, Opened, Conserved;
    assert x.sent[..|x.sent|] == x.sent && y.sent[..|y.sent|] == y.sent;
  }
}
