/** One end of a multiplexed session: the state of `Mux` and of its `MuxStream`s, and what each call does to it. */
module YamuxEndpoint {
  import opened Options
  import opened YamuxCodec

  datatype Stream = Stream(buffer: seq<Byte>, closed: bool)

  datatype Endpoint = Endpoint(nextId: nat, streams: map<nat, Stream>, pending: Option<nat>)

  function Start(client: bool): Endpoint {
    Endpoint(if client then 1 else 2, map[], None)
  }

  /** `next_id_ += 2` on 32 bits. */
  function NextId(id: nat): nat {
    (id + 2) % 0x1_0000_0000
  }

  function Data(sid: nat, payload: seq<Byte>): Frame { Frame(TYPE_DATA, 0, sid, payload) }
  function Syn(sid: nat): Frame { Frame(TYPE_WINDOW_UPDATE, FLAG_SYN, sid, []) }
  function Ack(sid: nat): Frame { Frame(TYPE_WINDOW_UPDATE, FLAG_ACK, sid, []) }
  function Fin(sid: nat): Frame { Frame(TYPE_WINDOW_UPDATE, FLAG_FIN, sid, []) }
  function Pong(): Frame { Frame(TYPE_PING, FLAG_ACK, 0, []) }

  /** The data frames of one `write`. */
  function Split(sid: nat, data: seq<Byte>): (fs: seq<Frame>)
    ensures sid < 0x1_0000_0000 ==> forall i :: 0 <= i < |fs| ==> fs[i].Valid()
  {
    if data == [] then []
    else
      var chunk := if |data| < DATA_FRAME_CAP then |data| else DATA_FRAME_CAP;
      [Data(sid, data[..chunk])] + Split(sid, data[chunk..])
  }

  /** `close()` on a stream: the FIN goes out the first time only. */
  function CloseStream(e: Endpoint, sid: nat): (Endpoint, seq<Frame>)
    requires sid in e.streams
  {
    if e.streams[sid].closed then (e, [])
    else (e.(streams := e.streams[sid := e.streams[sid].(closed := true)]), [Fin(sid)])
  }

  /** What `read` and `try_read` take off the front of a buffer. */
  function Taken(s: Stream, len: nat): (n: nat)
    ensures n <= |s.buffer|
  {
    if len < |s.buffer| then len else |s.buffer|
  }

  /** A SYN: a new stream replaces whatever had its id, and waits to be accepted if nothing else does. */
  function AddStream(e: Endpoint, sid: nat): Endpoint {
    e.(streams := e.streams[sid := Stream([], false)], pending := if e.pending.None? then Some(sid) else e.pending)
  }

  function WindowUpdate(e: Endpoint, f: Frame): (Endpoint, seq<Frame>) {
    if f.HasSyn() then (AddStream(e, f.sid), [Ack(f.sid)])
    else if f.HasFin() && f.sid in e.streams then CloseStream(e, f.sid)
    else (e, [])
  }

  function Append(e: Endpoint, sid: nat, payload: seq<Byte>): Endpoint
    requires sid in e.streams
  {
    var s := e.streams[sid];
    e.(streams := e.streams[sid := s.(buffer := s.buffer + payload)])
  }

  /** One frame parsed by the read loop, and the frames sent in reply. GoAway only ends the loop. */
  function Dispatch(e: Endpoint, f: Frame): (Endpoint, seq<Frame>) {
    if f.typ == TYPE_DATA then (if f.sid in e.streams then Append(e, f.sid, f.payload) else e, [])
    else if f.typ == TYPE_WINDOW_UPDATE then WindowUpdate(e, f)
    else if f.typ == TYPE_PING && f.flags == 0 then (e, [Pong()])
    else (e, [])
  }

  function DispatchAll(e: Endpoint, frames: seq<Frame>): (Endpoint, seq<Frame>) {
    if frames == [] then (e, [])
    else
      var (e', replies) := DispatchAll(e, frames[..|frames| - 1]);
      var (e'', more) := Dispatch(e', frames[|frames| - 1]);
      (e'', replies + more)
  }
}
