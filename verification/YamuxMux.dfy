/** `Mux` and `MuxStream` as objects (`src/tunnel/yamux.{hpp,cpp}`), proved against the endpoint's state machine. */
module YamuxMux {
  import opened Options
  import opened YamuxCodec
  import opened YamuxParser
  import opened YamuxEndpoint
  import opened YamuxNet

  class MuxStream {
    const mux: Mux
    const id: nat
    var buffer: seq<Byte>
    var closed: bool

    constructor (mux: Mux, id: nat)
      ensures this.mux == mux && this.id == id && buffer == [] && !closed
    {
      this.mux, this.id := mux, id;
      buffer, closed := [], false;
    }

    function View(): Stream
      reads this
    {
      Stream(buffer, closed)
    }

    method PushData(d: seq<Byte>)
      modifies this`buffer
      ensures buffer == old(buffer) + d
    {
      buffer := buffer + d;
    }

    /** Splits into frames of at most 16 KiB; a closed stream refuses any byte, and no bytes are always written. */
    method Write(buf: seq<Byte>) returns (ok: bool)
      requires mux.WireOk() && id < 0x1_0000_0000
      modifies mux`sent, mux`wire
      ensures mux.WireOk()
      ensures ok <==> buf == [] || !closed
      ensures mux.sent == old(mux.sent) + if closed then [] else Split(id, buf)
    {
      var rest := buf;
      while |rest| > 0
        invariant mux.WireOk() && (closed ==> rest == buf && mux.sent == old(mux.sent))
        invariant !closed ==> mux.sent + Split(id, rest) == old(mux.sent) + Split(id, buf)
        decreases |rest|
      {
        var chunk := if |rest| < DATA_FRAME_CAP then |rest| else DATA_FRAME_CAP;
        if closed {
          return false;
        }
        assert Split(id, rest) == [Data(id, rest[..chunk])] + Split(id, rest[chunk..]);
        mux.SendFrame(TYPE_DATA, 0, id, rest[..chunk]);
        rest := rest[chunk..];
      }
      return true;
    }

    /** The non-blocking read: -1 for nothing yet, 0 for a closed stream, else the number of bytes taken. */
    method TryRead(len: nat) returns (n: int, data: seq<Byte>)
      modifies this`buffer
      ensures old(buffer) == [] ==> n == (if closed then 0 else -1) && data == [] && buffer == []
      ensures old(buffer) != [] ==>
        && n == (if len < |old(buffer)| then len else |old(buffer)|)
        && data == old(buffer)[..n] && buffer == old(buffer)[n..]
      ensures len > 0 ==> (n == 0 <==> old(buffer) == [] && closed)
      ensures old(buffer) != [] ==> n == Taken(old(View()), len)
    {
      if |buffer| == 0 {
        return if closed then 0 else -1, [];
      }
      n := if len < |buffer| then len else |buffer|;
      data := buffer[..n];
      buffer := buffer[n..];
    }

    method Close()
      requires mux.WireOk() && id < 0x1_0000_0000
      modifies this`closed, mux`sent, mux`wire
      ensures mux.WireOk() && closed
      ensures mux.sent == old(mux.sent) + if old(closed) then [] else [Fin(id)]
    {
      var was := closed;
      closed := true;
      if !was {
        mux.SendFrame(TYPE_WINDOW_UPDATE, FLAG_FIN, id, []);
      }
    }
  }

  class Mux {
    var nextId: nat
    var streams: map<nat, MuxStream>
    var pending: MuxStream?
    var dead: bool
    var wire: seq<Byte>          // what was handed to the socket
    ghost var sent: seq<Frame>   // the same, as frames

    ghost predicate WireOk()
      reads this`sent, this`wire
    {
      AllValid(sent) && wire == EncodeAll(sent)
    }

    ghost predicate Valid()
      reads this`nextId, this`streams, this`sent, this`wire
    {
      && WireOk() && nextId < 0x1_0000_0000
      && forall id :: id in streams ==> streams[id].mux == this && streams[id].id == id < 0x1_0000_0000
    }

    ghost function View(): Endpoint
      reads this`nextId, this`streams, this`pending, streams.Values
    {
      Endpoint(nextId, map id | id in streams :: streams[id].View(), if pending == null then None else Some(pending.id))
    }

    constructor (client: bool)
      ensures Valid() && !dead && sent == []
      ensures View() == Start(client)
    {
      nextId := if client then 1 else 2;
      streams, pending, dead := map[], null, false;
      wire, sent := [], [];
    }

    /**
     The flags, the stream id and the length have their fields' widths; longer payloads would be cut in the header.
     */
    method SendFrame(typ: Byte, flags: nat, sid: nat, payload: seq<Byte>)
      requires WireOk() && flags < 0x1_0000 && sid < 0x1_0000_0000 && |payload| < 0x1_0000_0000
      modifies this`sent, this`wire
      ensures WireOk() && sent == old(sent) + [Frame(typ, flags, sid, payload)]
    {
      var hdr := [VERSION, typ] + PutU16(flags) + PutU32(sid) + PutU32(|payload|);
      wire := wire + (hdr + payload);
      ghost var f := Frame(typ, flags, sid, payload);
      EncodeAllSingle(f);
      EncodeAllConcat(sent, [f]);
      sent := sent + [f];
    }

    method OpenStream() returns (s: MuxStream)
      requires Valid()
      modifies this
      ensures Valid() && fresh(s) && dead == old(dead)
      ensures s.id == old(nextId) && streams == old(streams)[s.id := s]
      ensures View() == old(View()).(nextId := NextId(s.id), streams := old(View()).streams[s.id := Stream([], false)])
      ensures sent == old(sent) + [Syn(s.id)]
    {
      var id := nextId;
      nextId := NextId(nextId);
      s := new MuxStream(this, id);
      streams := streams[id := s];
      SendFrame(TYPE_WINDOW_UPDATE, FLAG_SYN, id, []);
    }

    /**
     One poll of the blocking accept: the single pending stream, if there is one; nothing once the session is dead.
     */
    method AcceptStream() returns (s: MuxStream?)
      requires Valid()
      modifies this`pending
      ensures Valid() && s == if dead then null else old(pending)
      ensures View() == if dead then old(View()) else old(View()).(pending := None)
    {
      if dead {
        return null;
      }
      s := pending;
      pending := null;
    }

    /** A SYN: a fresh stream replaces whatever had its id, and waits to be accepted if nothing else does. */
    method OnSyn(sid: nat)
      requires Valid() && sid < 0x1_0000_0000
      modifies this
      ensures Valid() && (forall s :: s in streams.Values ==> s in old(streams.Values) || fresh(s))
      ensures View() == AddStream(old(View()), sid)
      ensures sent == old(sent) + [Ack(sid)] && dead == old(dead)
    {
      hide EncodeAll, AllValid;
      var s := new MuxStream(this, sid);
      streams := streams[sid := s];
      if pending == null {
        pending := s;
      }
      SendFrame(TYPE_WINDOW_UPDATE, FLAG_ACK, sid, []);
    }

    method OnFin(s: MuxStream)
      requires Valid() && s.id in streams && streams[s.id] == s
      modifies this`sent, this`wire, s`closed
      ensures Valid()
      ensures View() == CloseStream(old(View()), s.id).0
      ensures sent == old(sent) + CloseStream(old(View()), s.id).1
    {
      hide EncodeAll, AllValid;
      s.Close();
    }

    method OnData(s: MuxStream, payload: seq<Byte>)
      requires Valid() && s.id in streams && streams[s.id] == s
      modifies s`buffer
      ensures Valid()
      ensures View() == Append(old(View()), s.id, payload)
    {
      s.PushData(payload);
    }

    method OnWindowUpdate(f: Frame)
      requires Valid() && f.Valid()
      modifies this, streams.Values
      ensures Valid() && (forall s :: s in streams.Values ==> s in old(streams.Values) || fresh(s))
      ensures View() == WindowUpdate(old(View()), f).0
      ensures sent == old(sent) + WindowUpdate(old(View()), f).1 && dead == old(dead)
    {
      hide AddStream, CloseStream;
      assert sent + [] == sent;
      if f.flags % 2 == 1 {
        OnSyn(f.sid);
      } else if f.flags / 4 % 2 == 1 {
        if f.sid in streams {
          OnFin(streams[f.sid]);
        }
      }
    }

    method DispatchFrame(f: Frame)
      requires Valid() && f.Valid()
      modifies this, streams.Values
      ensures Valid() && (forall s :: s in streams.Values ==> s in old(streams.Values) || fresh(s))
      ensures View() == Dispatch(old(View()), f).0
      ensures sent == old(sent) + Dispatch(old(View()), f).1
      ensures dead == (old(dead) || f.typ == TYPE_GO_AWAY)
    {
      hide WindowUpdate, Append;
      assert sent + [] == sent;
      if f.typ == TYPE_DATA {
        if f.sid in streams {
          OnData(streams[f.sid], f.payload);
        }
      } else if f.typ == TYPE_WINDOW_UPDATE {
        OnWindowUpdate(f);
      } else if f.typ == TYPE_PING {
        if f.flags == 0 {
          SendFrame(TYPE_PING, FLAG_ACK, 0, []);
        }
      } else if f.typ == TYPE_GO_AWAY {
        dead := true;
      }
    }

    /** What one `recv` does: parse and dispatch every complete frame, keep the rest, check the limit. */
    method ReceiveChunk(inbuf: seq<Byte>, chunk: seq<Byte>) returns (inbuf': seq<Byte>)
      requires Valid() && !dead
      modifies this, streams.Values
      ensures Valid() && (forall s :: s in streams.Values ==> s in old(streams.Values) || fresh(s))
      ensures var r := Receive(Reader(inbuf, [], false), chunk);
        && After(old(View()), old(sent), r.dispatched) && dead == r.dead && (!dead ==> inbuf' == r.inbuf)
    {
      AfterNothing();
      ProgressStarts(inbuf + chunk);
      hide Dispatch, DispatchAll, ScanAll, ParseOne, GetU16, GetU32;
      var buf := inbuf + chunk;
      ghost var done: seq<Frame> := [];
      var off: nat := 0;
      while |buf| - off >= HEADER_SIZE
        invariant Progress(buf, off, done) && Valid() && !dead
        invariant forall s :: s in streams.Values ==> s in old(streams.Values) || fresh(s)
        invariant After(old(View()), old(sent), done)
        decreases |buf| - off
      {
        ParseAt(buf, off);
        if buf[off] != VERSION {
          ProgressEnds(buf, off, done);
          dead := true;
          return buf;
        }
        var typ, flags, sid, plen := buf[off + 1], GetU16(buf, off + 2), GetU32(buf, off + 4), GetU32(buf, off + 8);
        if |buf| - off - HEADER_SIZE < plen {
          break;
        }
        var f := Frame(typ, flags, sid, buf[off + HEADER_SIZE..off + HEADER_SIZE + plen]);
        ProgressStep(buf, off, done, f);
        Snoc(old(View()), old(sent), done, f);
        done := done + [f];
        DispatchFrame(f);
        if dead {
          return buf;
        }
        off := off + HEADER_SIZE + plen;
      }
      ParseAt(buf, off);
      ProgressEnds(buf, off, done);
      inbuf' := buf[off..];
      if |inbuf'| > MAX_INBUF {
        dead := true;
      }
    }

    lemma AfterNothing()
      ensures After(View(), sent, [])
    {
      assert sent + [] == sent;
    }

    /** The session is where dispatching `frames` takes it from the endpoint `e` that had sent `sent0`. */
    ghost predicate After(e: Endpoint, sent0: seq<Frame>, frames: seq<Frame>)
      reads this`nextId, this`streams, this`pending, this`sent, streams.Values
    {
      View() == DispatchAll(e, frames).0 && sent == sent0 + DispatchAll(e, frames).1
    }

    lemma Snoc(e: Endpoint, sent0: seq<Frame>, frames: seq<Frame>, f: Frame)
      requires After(e, sent0, frames)
      ensures DispatchAll(e, frames + [f]).0 == Dispatch(View(), f).0
      ensures sent0 + DispatchAll(e, frames + [f]).1 == sent + Dispatch(View(), f).1
    {
      hide Dispatch;
      DispatchAllSnoc(e, frames, f);
      assert sent0 + (DispatchAll(e, frames).1 + Dispatch(View(), f).1) == sent + Dispatch(View(), f).1;
    }

    /** The reader thread, given what each `recv` returns; when there is nothing more the connection is gone. */
    method ReadLoop(recvs: seq<seq<Byte>>)
      requires Valid()
      modifies this, streams.Values
      ensures Valid() && dead
      ensures After(old(View()), old(sent), if old(dead) then [] else ReceiveAll(START, recvs).dispatched)
    {
      AfterNothing();
      if dead {
        return;
      }
      hide Dispatch, DispatchAll, ScanAll;
      var inbuf := [];
      ghost var r := START;
      for i := 0 to |recvs|
        invariant Valid() && !dead && r == ReceiveAll(START, recvs[..i]) && !r.dead && inbuf == r.inbuf
        invariant forall s :: s in streams.Values ==> s in old(streams.Values) || fresh(s)
        invariant After(old(View()), old(sent), r.dispatched)
      {
        ghost var e, sent1 := View(), sent;
        inbuf := ReceiveChunk(inbuf, recvs[i]);
        ReceiveLogs(r, recvs[i]);
        Chain(old(View()), old(sent), r.dispatched, e, sent1, Receive(Reader(r.inbuf, [], false), recvs[i]).dispatched);
        assert recvs[..i + 1][..i] == recvs[..i];
        r := Receive(r, recvs[i]);
        if dead {
          ReceiveAllStopsDead(recvs, i + 1);
          return;
        }
      }
      assert recvs[..|recvs|] == recvs;
      dead := true;
    }

    lemma Chain(e: Endpoint, sent0: seq<Frame>, a: seq<Frame>, e1: Endpoint, sent1: seq<Frame>, b: seq<Frame>)
      requires e1 == DispatchAll(e, a).0 && sent1 == sent0 + DispatchAll(e, a).1
      requires After(e1, sent1, b)
      ensures After(e, sent0, a + b)
    {
      DispatchAllConcat(e, a, b);
      hide DispatchAll;
      assert sent0 + (DispatchAll(e, a).1 + DispatchAll(e1, b).1) == sent1 + DispatchAll(e1, b).1;
    }
  }

  lemma EncodeAllSingle(f: Frame)
    requires f.Valid()
    ensures AllValid([f]) && EncodeAll([f]) == Encode(f)
  {
    assert [f][1..] == [];
  }

  lemma DispatchAllSnoc(e: Endpoint, frames: seq<Frame>, f: Frame)
    ensures var (e', replies) := DispatchAll(e, frames);
      var (e'', more) := Dispatch(e', f);
      DispatchAll(e, frames + [f]) == (e'', replies + more)
  {
    assert (frames + [f])[..|frames|] == frames;
  }

  lemma {:induction false} DispatchAllConcat(e: Endpoint, a: seq<Frame>, b: seq<Frame>)
    ensures var (e', replies) := DispatchAll(e, a);
      var (e'', more) := DispatchAll(e', b);
      DispatchAll(e, a + b) == (e'', replies + more)
    decreases |b|
  {
    hide Dispatch;
    var (e', replies) := DispatchAll(e, a);
    if b == [] {
      assert a + b == a && replies + [] == replies;
    } else {
      var front, f := b[..|b| - 1], b[|b| - 1];
      DispatchAllConcat(e, a, front);
      assert a + b == (a + front) + [f];
      DispatchAllSnoc(e, a + front, f);
      var (e'', more) := DispatchAll(e', front);
      var (_, last) := Dispatch(e'', f);
      assert replies + (more + last) == replies + more + last;
    }
  }

  /** Having parsed `done` up to offset `off`, the rest of the scan starts there. */
  ghost predicate Progress(buf: seq<Byte>, off: nat, done: seq<Frame>) {
    off <= |buf| && var s := ScanAll(buf[off..]); ScanAll(buf) == s.(frames := done + s.frames)
  }

  lemma ProgressStarts(buf: seq<Byte>)
    ensures Progress(buf, 0, [])
  {
    assert buf[0..] == buf && [] + ScanAll(buf).frames == ScanAll(buf).frames;
  }

  /** Reading the header in place, at offset `off`. */
  lemma ParseAt(buf: seq<Byte>, off: nat)
    requires off <= |buf|
    ensures ParseOne(buf[off..]) ==
      if |buf| - off < HEADER_SIZE then NeedMore
      else if buf[off] != VERSION then BadVersion
      else
        var plen := GetU32(buf, off + 8);
        if |buf| - off - HEADER_SIZE < plen then NeedMore
        else Got(Frame(buf[off + 1], GetU16(buf, off + 2), GetU32(buf, off + 4),
          buf[off + HEADER_SIZE..off + HEADER_SIZE + plen]))
  {
    if |buf| - off >= HEADER_SIZE && buf[off] == VERSION && |buf| - off - HEADER_SIZE >= GetU32(buf, off + 8) {
      var plen := GetU32(buf, off + 8);
      assert buf[off..][HEADER_SIZE..HEADER_SIZE + plen] == buf[off + HEADER_SIZE..off + HEADER_SIZE + plen];
    }
  }

  lemma ProgressStep(buf: seq<Byte>, off: nat, done: seq<Frame>, f: Frame)
    requires Progress(buf, off, done) && off + HEADER_SIZE + |f.payload| <= |buf| && ParseOne(buf[off..]) == Got(f)
    ensures f.typ == TYPE_GO_AWAY ==> ScanAll(buf).frames == done + [f] && ScanAll(buf).dead
    ensures f.typ != TYPE_GO_AWAY ==> Progress(buf, off + HEADER_SIZE + |f.payload|, done + [f])
  {
    hide ScanAll, ParseOne;
    ScanFront(buf[off..], f);
    var n := HEADER_SIZE + |f.payload|;
    assert buf[off..][n..] == buf[off + n..];
    AssocFrames(done, f, ScanAll(buf[off + n..]).frames);
  }

  lemma AssocFrames(done: seq<Frame>, f: Frame, more: seq<Frame>)
    ensures done + ([f] + more) == done + [f] + more
  {
  }

  lemma ProgressEnds(buf: seq<Byte>, off: nat, done: seq<Frame>)
    requires Progress(buf, off, done) && !ParseOne(buf[off..]).Got?
    ensures ScanAll(buf) == Scan(done, buf[off..], ParseOne(buf[off..]).BadVersion?)
  {
    assert done + [] == done;
  }

  lemma ReceiveLogs(r: Reader, chunk: seq<Byte>)
    requires !r.dead
    ensures var one := Receive(Reader(r.inbuf, [], false), chunk);
      Receive(r, chunk) == one.(dispatched := r.dispatched + one.dispatched)
  {
    hide ScanAll;
    var s := ScanAll(r.inbuf + chunk);
    assert [] + s.frames == s.frames;
  }

  /** A dead reader ignores whatever follows. */
  lemma {:induction false} ReceiveAllStopsDead(chunks: seq<seq<Byte>>, i: nat)
    requires i <= |chunks| && ReceiveAll(START, chunks[..i]).dead
    ensures ReceiveAll(START, chunks) == ReceiveAll(START, chunks[..i])
    decreases |chunks|
  {
    if i == |chunks| {
      assert chunks[..i] == chunks;
    } else {
      var front := chunks[..|chunks| - 1];
      assert front[..i] == chunks[..i];
      ReceiveAllStopsDead(front, i);
    }
  }
}
