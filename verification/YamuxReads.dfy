/** What the readers get, and how streams are numbered, offered and kept alive, over whole runs. */
module YamuxReads {
  import opened Options
  import opened YamuxCodec
  import opened YamuxParser
  import opened YamuxEndpoint
  import opened YamuxSystem
  import opened YamuxNet

  // ---- reading ----

  function Sum(sizes: seq<nat>): nat {
    if sizes == [] then 0 else sizes[0] + Sum(sizes[1..])
  }

  /** One read after another on one stream. */
  function Reads(onLeft: bool, sid: nat, sizes: seq<nat>): seq<NetStep> {
    if sizes == [] then [] else [Call(onLeft, Read(sid, sizes[0]))] + Reads(onLeft, sid, sizes[1..])
  }

  function SideOf(net: Net, onLeft: bool): Side {
    if onLeft then net.left else net.right
  }

  /** What waits in a stream's buffer. */
  function Waiting(y: Side, sid: nat): seq<Byte> {
    if sid in y.ep.streams then y.ep.streams[sid].buffer else []
  }

  /** The first `n` bytes, or all if there are fewer. */
  function UpTo(bytes: seq<Byte>, n: nat): seq<Byte> {
    if n < |bytes| then bytes[..n] else bytes
  }

  /** A read yields as much as waits and was asked for. */
  lemma ReadYields(y: Side, sid: nat, len: nat)
    requires sid in y.ep.streams
    ensures var y' := DoRead(y, sid, len); var got := UpTo(Waiting(y, sid), len);
      && Of(y'.read, sid) == Of(y.read, sid) + got
      && sid in y'.ep.streams && got + Waiting(y', sid) == Waiting(y, sid)
      && y'.wrote == y.wrote
  {
    var b := Waiting(y, sid);
    assert b[..|b|] == b;
  }

  lemma UpToTwice(bytes: seq<Byte>, a: nat, b: nat, rest: seq<Byte>)
    requires UpTo(bytes, a) + rest == bytes
    ensures UpTo(bytes, a) + UpTo(rest, b) == UpTo(bytes, a + b)
  {
    if a < |bytes| {
      assert bytes[..a] + rest == bytes && rest == bytes[a..];
      if a + b < |bytes| { assert bytes[..a] + bytes[a..][..b] == bytes[..a + b]; }
    } else {
      assert rest == [];
    }
  }

  lemma {:induction false} ReadsYield(net: Net, onLeft: bool, sid: nat, sizes: seq<nat>)
    requires sid in SideOf(net, onLeft).ep.streams
    ensures Possible(net, Reads(onLeft, sid, sizes))
    ensures var y, net' := SideOf(net, onLeft), Run(net, Reads(onLeft, sid, sizes));
      && Of(SideOf(net', onLeft).read, sid) == Of(y.read, sid) + UpTo(Waiting(y, sid), Sum(sizes))
      && SideOf(net', !onLeft) == SideOf(net, !onLeft)
    decreases |sizes|
  {
    hide *;
    ReadsAre(onLeft, sid, sizes);
    if sizes == [] {
      RunNothing(net);
      NothingAsked(SideOf(net, onLeft), sid, sizes);
    } else {
      var y, step := SideOf(net, onLeft), Call(onLeft, Read(sid, sizes[0]));
      ReadCall(net, onLeft, sid, sizes[0]);
      ReadYields(y, sid, sizes[0]);
      ReadsYield(Take(net, step), onLeft, sid, sizes[1..]);
      RunStep(net, step, Reads(onLeft, sid, sizes[1..]));
      SumIs(sizes);
      UpToTwice(Waiting(y, sid), sizes[0], Sum(sizes[1..]), Waiting(DoRead(y, sid, sizes[0]), sid));
    }
  }

  lemma ReadsAre(onLeft: bool, sid: nat, sizes: seq<nat>)
    ensures Reads(onLeft, sid, sizes)
      == if sizes == [] then [] else [Call(onLeft, Read(sid, sizes[0]))] + Reads(onLeft, sid, sizes[1..])
  {
  }

  lemma SumIs(sizes: seq<nat>)
    requires sizes != []
    ensures Sum(sizes) == sizes[0] + Sum(sizes[1..])
  {
  }

  lemma NothingAsked(y: Side, sid: nat, sizes: seq<nat>)
    requires sizes == []
    ensures Of(y.read, sid) + UpTo(Waiting(y, sid), Sum(sizes)) == Of(y.read, sid)
  {
    assert Of(y.read, sid) + [] == Of(y.read, sid);
  }

  lemma ReadCall(net: Net, onLeft: bool, sid: nat, len: nat)
    requires sid in SideOf(net, onLeft).ep.streams
    ensures var step := Call(onLeft, Read(sid, len));
      && CanStep(net, step)
      && SideOf(Take(net, step), onLeft) == DoRead(SideOf(net, onLeft), sid, len)
      && SideOf(Take(net, step), !onLeft) == SideOf(net, !onLeft)
  {
    hide DoRead;
  }

  lemma RunHead(net: Net, steps: seq<NetStep>)
    requires Possible(net, steps) && steps != []
    ensures CanStep(net, steps[0])
    ensures var mid := Take(net, steps[0]);
      Possible(mid, steps[1..]) && Run(net, steps) == Run(mid, steps[1..])
  {
    hide CanStep, Take;
  }

  lemma RunStep(net: Net, step: NetStep, rest: seq<NetStep>)
    requires CanStep(net, step) && Possible(Take(net, step), rest)
    ensures Possible(net, [step] + rest) && Run(net, [step] + rest) == Run(Take(net, step), rest)
  {
    hide CanStep, Take;
    assert ([step] + rest)[1..] == rest;
  }

  lemma RunNothing(net: Net)
    ensures Possible(net, []) && Run(net, []) == net
  {
  }

  lemma {:induction false} RunConcat(net: Net, a: seq<NetStep>, b: seq<NetStep>)
    requires Possible(net, a) && Possible(Run(net, a), b)
    ensures Possible(net, a + b) && Run(net, a + b) == Run(Run(net, a), b)
    decreases |a|
  {
    hide *;
    if a == [] {
      RunNothing(net);
      assert a + b == b;
    } else {
      RunHead(net, a);
      RunConcat(Take(net, a[0]), a[1..], b);
      RunStep(net, a[0], a[1..] + b);
      assert [a[0]] + (a[1..] + b) == a + b;
    }
  }

  /** A stream of one side is known to the other once that has processed everything. */
  lemma KnownOnceProcessed(x: Side, y: Side, parity: nat, sid: nat)
    requires Both(x, y, parity) && y.got == |x.sent| && sid in x.ep.streams
    ensures sid in y.ep.streams
  {
    if sid % 2 == parity {
      assert Announced(x.sent, |x.sent|, sid);
    } else {
      assert Announced(y.sent, x.got, sid);
      var i :| 0 <= i < x.got && i < |y.sent| && y.sent[i] == Syn(sid);
      assert y.sent[i].sid in y.ep.streams;
    }
  }

  function InboxOf(net: Net, onLeft: bool): Inbox {
    if onLeft then net.atLeft else net.atRight
  }

  /** What one side's read loop has of the other's frames. */
  lemma SidesAreFine(net: Net, onLeft: bool)
    requires NetInv(net)
    ensures var x, y := SideOf(net, !onLeft), SideOf(net, onLeft);
      Both(x, y, if onLeft then 0 else 1) && InboxOk(x, y, InboxOf(net, onLeft))
  {
    hide Both, InboxOk;
    Symmetric(net.left, net.right, 1);
  }

  /** Once everything has arrived, what was read and what waits are what was written. */
  lemma WaitingIsRest(net: Net, onLeft: bool, sid: nat)
    requires NetInv(net) && Drained(SideOf(net, !onLeft), InboxOf(net, onLeft))
    requires sid in SideOf(net, !onLeft).ep.streams
    ensures var x, y := SideOf(net, !onLeft), SideOf(net, onLeft);
      sid in y.ep.streams && Of(y.read, sid) + Waiting(y, sid) == Of(x.wrote, sid)
  {
    var x, y := SideOf(net, !onLeft), SideOf(net, onLeft);
    SidesAreFine(net, onLeft);
    hide NetInv, Both, InboxOk, Drained;
    DrainedIsProcessed(x, y, InboxOf(net, onLeft));
    KnownOnceProcessed(x, y, if onLeft then 0 else 1, sid);
    DeliveredIsPrefix(x, y, if onLeft then 0 else 1, sid);
  }

  lemma UpToAll(read: seq<Byte>, waiting: seq<Byte>, n: nat)
    ensures read + UpTo(waiting, n) == UpTo(read + waiting, |read| + n)
    ensures UpTo(read + waiting, |read| + n) == read + waiting <==> |read| + n >= |read + waiting|
  {
    if n < |waiting| { assert (read + waiting)[..|read| + n] == read + waiting[..n]; }
  }

  /**
   After any run whose bytes have arrived: reads on a stream yield, in order, what was written to it on the other side,
   as much as was asked for; and all of it exactly if enough was asked for. Here on either side.
   */
  lemma EverythingIsRead(steps: seq<NetStep>, onLeft: bool, sid: nat, sizes: seq<nat>)
    requires Possible(BEGIN, steps)
    requires Drained(SideOf(Run(BEGIN, steps), !onLeft), InboxOf(Run(BEGIN, steps), onLeft))
    requires sid in SideOf(Run(BEGIN, steps), !onLeft).ep.streams
    ensures var net, calls := Run(BEGIN, steps), Reads(onLeft, sid, sizes);
      && Possible(BEGIN, steps + calls)
      && var net' := Run(BEGIN, steps + calls);
         var before, after := Of(SideOf(net, onLeft).read, sid), Of(SideOf(net', onLeft).read, sid);
         var wrote := Of(SideOf(net', !onLeft).wrote, sid);
         && wrote == Of(SideOf(net, !onLeft).wrote, sid)
         && after == UpTo(wrote, |before| + Sum(sizes))
         && (after == wrote <==> |before| + Sum(sizes) >= |wrote|)
  {
    hide *;
    var net, calls := Run(BEGIN, steps), Reads(onLeft, sid, sizes);
    BeginIsFine();
    RunKeeps(BEGIN, steps);
    WaitingIsRest(net, onLeft, sid);
    ReadsYield(net, onLeft, sid, sizes);
    RunConcat(BEGIN, steps, calls);
    UpToAll(Of(SideOf(net, onLeft).read, sid), Waiting(SideOf(net, onLeft), sid), Sum(sizes));
  }

  // ---- the numbers of streams ----

  /** The streams announced by some frames, in order. */
  function SynsOf(frames: seq<Frame>): seq<nat> {
    if frames == [] then []
    else SynsOf(frames[..|frames| - 1]) + if IsSyn(frames[|frames| - 1]) then [frames[|frames| - 1].sid] else []
  }

  ghost predicate NoSyns(frames: seq<Frame>) {
    forall i :: 0 <= i < |frames| ==> !IsSyn(frames[i])
  }

  lemma {:induction false} NoMoreSyns(frames: seq<Frame>, more: seq<Frame>)
    requires NoSyns(more)
    ensures SynsOf(frames + more) == SynsOf(frames)
    decreases |more|
  {
    if more == [] {
      assert frames + more == frames;
    } else {
      var front := more[..|more| - 1];
      assert (frames + more)[..|frames + more| - 1] == frames + front;
      NoMoreSyns(frames, front);
    }
  }

  /** The side has announced `first`, `first + 2`, `first + 4`, ..., and the next comes next. */
  ghost predicate Numbered(x: Side, first: nat) {
    && x.ep.nextId == first + 2 * |SynsOf(x.sent)|
    && forall k :: 0 <= k < |SynsOf(x.sent)| ==> SynsOf(x.sent)[k] == first + 2 * k
  }

  lemma {:induction false} SplitHasNoSyns(sid: nat, data: seq<Byte>)
    ensures NoSyns(Split(sid, data))
    decreases |data|
  {
    if data != [] { SplitHasNoSyns(sid, data[Chunk(data)..]); }
  }

  lemma LocalNumbers(x: Side, op: Op, first: nat)
    requires Enabled(x, op) && Numbered(x, first)
    ensures Numbered(Local(x, op), first)
  {
    match op
    case Open =>
      var id := x.ep.nextId;
      assert (x.sent + [Syn(id)])[..|x.sent|] == x.sent;
    case Write(sid, data) =>
      if !x.ep.streams[sid].closed {
        hide SynsOf;
        WriteSendsSplit(x, sid, data);
        SplitHasNoSyns(sid, data);
        NoMoreSyns(x.sent, Split(sid, data));
      }
    case Read(_, _) =>
    case Close(sid) =>
      hide SynsOf;
      NoMoreSyns(x.sent, CloseStream(x.ep, sid).1);
    case Accept =>
  }

  lemma DispatchNumbers(e: Endpoint, f: Frame)
    ensures NoSyns(Dispatch(e, f).1) && Dispatch(e, f).0.nextId == e.nextId
  {
  }

  lemma {:induction false} DispatchAllNumbers(e: Endpoint, frames: seq<Frame>)
    ensures NoSyns(DispatchAll(e, frames).1) && DispatchAll(e, frames).0.nextId == e.nextId
    decreases |frames|
  {
    if frames != [] {
      DispatchAllNumbers(e, frames[..|frames| - 1]);
      DispatchNumbers(DispatchAll(e, frames[..|frames| - 1]).0, frames[|frames| - 1]);
      hide Dispatch;
    }
  }

  lemma RecvNumbers(x: Side, y: Side, inbox: Inbox, n: nat, first: nat)
    requires CanRecv(x, inbox, n) && Numbered(y, first)
    ensures Numbered(RecvStep(x, y, inbox, n).0, first)
  {
    hide *;
    RecvIs(x, y, inbox, n);
    var chunk := EncodeAll(x.sent)[inbox.received..inbox.received + n];
    var r := Receive(Reader(inbox.inbuf, [], inbox.dead), chunk);
    DispatchAllNumbers(y.ep, r.dispatched);
    RepliesKeepNumbers(y, RecvStep(x, y, inbox, n).0, DispatchAll(y.ep, r.dispatched).1, first);
  }

  lemma RecvIs(x: Side, y: Side, inbox: Inbox, n: nat)
    requires CanRecv(x, inbox, n)
    ensures Sendable(x.sent) && inbox.received + n <= |EncodeAll(x.sent)|
    ensures var r := Receive(Reader(inbox.inbuf, [], inbox.dead),
        EncodeAll(x.sent)[inbox.received..inbox.received + n]);
      var (ep, replies) := DispatchAll(y.ep, r.dispatched);
      var y' := RecvStep(x, y, inbox, n).0; y'.ep == ep && y'.sent == y.sent + replies
  {
    hide Sendable, Receive, DispatchAll, EncodeAll;
  }

  lemma RepliesKeepNumbers(y: Side, y': Side, replies: seq<Frame>, first: nat)
    requires Numbered(y, first) && NoSyns(replies) && y'.sent == y.sent + replies && y'.ep.nextId == y.ep.nextId
    ensures Numbered(y', first)
  {
    hide SynsOf;
    NoMoreSyns(y.sent, replies);
  }

  /** Over every run the client's streams are 1, 3, 5, ..., and the server's 2, 4, 6, ..., in the order of opening. */
  lemma {:induction false} StreamsAreNumbered(net: Net, steps: seq<NetStep>)
    requires Possible(net, steps) && Numbered(net.left, 1) && Numbered(net.right, 2)
    ensures Numbered(Run(net, steps).left, 1) && Numbered(Run(net, steps).right, 2)
    decreases |steps|
  {
    if steps != [] {
      hide Numbered, Local, RecvStep, CanRecv, Enabled;
      match steps[0] {
        case Call(onLeft, op) => LocalNumbers(SideOf(net, onLeft), op, if onLeft then 1 else 2);
        case Recv(onLeft, n) =>
          RecvNumbers(SideOf(net, !onLeft), SideOf(net, onLeft), InboxOf(net, onLeft), n, if onLeft then 1 else 2);
      }
      StreamsAreNumbered(Take(net, steps[0]), steps[1..]);
    }
  }

  /** The next number keeps its parity and, past the last one, starts again. */
  lemma NextIdExactly(id: nat)
    requires id < 0x1_0000_0000
    ensures NextId(id) == if id + 2 < 0x1_0000_0000 then id + 2 else id + 2 - 0x1_0000_0000
    ensures NextId(id) % 2 == id % 2
  {
  }

  lemma BeginIsNumbered()
    ensures Numbered(BEGIN.left, 1) && Numbered(BEGIN.right, 2)
  {
  }

  ghost predicate Full(sid: nat, fs: seq<Frame>) {
    && (forall i :: 0 <= i < |fs| ==> fs[i] == Data(sid, fs[i].payload) && 0 < |fs[i].payload| <= DATA_FRAME_CAP)
    && (forall i :: 0 <= i < |fs| - 1 ==> |fs[i].payload| == DATA_FRAME_CAP)
  }

  lemma FullCons(sid: nat, payload: seq<Byte>, fs: seq<Frame>)
    requires Full(sid, fs) && 0 < |payload| <= DATA_FRAME_CAP && (fs == [] || |payload| == DATA_FRAME_CAP)
    ensures Full(sid, [Data(sid, payload)] + fs)
  {
  }

  lemma SplitCons(sid: nat, data: seq<Byte>)
    requires data != []
    ensures Split(sid, data) == [Data(sid, data[..Chunk(data)])] + Split(sid, data[Chunk(data)..])
    ensures 0 < Chunk(data) <= |data| && Chunk(data) <= DATA_FRAME_CAP
    ensures Chunk(data) < DATA_FRAME_CAP || |data| == DATA_FRAME_CAP ==> Split(sid, data[Chunk(data)..]) == []
    ensures Split(sid, []) == []
  {
  }

  /** All frames of a `write` but the last are as long as a frame may be, and the last is not empty. */
  lemma {:induction false} SplitIsFull(sid: nat, data: seq<Byte>)
    ensures Full(sid, Split(sid, data))
    decreases |data|
  {
    hide *;
    if data == [] {
      NoFrameIsFull(sid);
    } else {
      SplitCons(sid, data);
      SplitIsFull(sid, data[Chunk(data)..]);
      FullCons(sid, data[..Chunk(data)], Split(sid, data[Chunk(data)..]));
    }
  }

  lemma NoFrameIsFull(sid: nat)
    ensures Full(sid, Split(sid, []))
  {
  }

  // ---- announcements and pings ----

  /** A frame that announces a stream, whatever its other flags are. */
  predicate Announces(f: Frame) {
    f.typ == TYPE_WINDOW_UPDATE && f.HasSyn()
  }

  /** `i` is the first of the frames that announces a stream. */
  ghost predicate FirstAnnounces(frames: seq<Frame>, i: int) {
    0 <= i < |frames| && Announces(frames[i]) && forall j :: 0 <= j < i ==> !Announces(frames[j])
  }

  lemma PendingAfter(e: Endpoint, f: Frame)
    ensures Dispatch(e, f).0.pending == if e.pending.None? && Announces(f) then Some(f.sid) else e.pending
  {
  }

  /**
   With nothing pending, the stream offered to `accept_stream` is the first announced; with something pending it stays,
   and those announced meanwhile are not offered.
   */
  lemma {:induction false} OfferedExactly(e: Endpoint, frames: seq<Frame>)
    ensures var e' := DispatchAll(e, frames).0;
      && (e.pending.Some? ==> e'.pending == e.pending)
      && (e.pending.None? ==>
            && (e'.pending.None? <==> forall i :: 0 <= i < |frames| ==> !Announces(frames[i]))
            && (e'.pending.Some? ==> exists i :: FirstAnnounces(frames, i) && e'.pending == Some(frames[i].sid)))
    decreases |frames|
  {
    if frames != [] {
      var front, last := frames[..|frames| - 1], frames[|frames| - 1];
      OfferedExactly(e, front);
      PendingAfter(DispatchAll(e, front).0, last);
      hide Dispatch, Announces;
      assert frames == front + [last];
      if e.pending.None? {
        var mid := DispatchAll(e, front).0.pending;
        if mid.Some? {
          var i :| FirstAnnounces(front, i) && mid == Some(front[i].sid);
          assert FirstAnnounces(frames, i) && Announces(frames[i]);
        } else if Announces(last) {
          assert FirstAnnounces(frames, |front|);
        }
      }
    }
  }

  function CountOf(frames: seq<Frame>, f: Frame): nat {
    if frames == [] then 0
    else CountOf(frames[..|frames| - 1], f) + if frames[|frames| - 1] == f then 1 else 0
  }

  lemma {:induction false} CountConcat(a: seq<Frame>, b: seq<Frame>, f: Frame)
    ensures CountOf(a + b, f) == CountOf(a, f) + CountOf(b, f)
    decreases |b|
  {
    if b == [] {
      assert a + b == a;
    } else {
      assert (a + b)[..|a + b| - 1] == a + b[..|b| - 1];
      CountConcat(a, b[..|b| - 1], f);
    }
  }

  /** How many of the frames are requests for an answer: a ping without flags. */
  function Pings(frames: seq<Frame>): nat {
    if frames == [] then 0
    else
      var f := frames[|frames| - 1];
      Pings(frames[..|frames| - 1]) + if f.typ == TYPE_PING && f.flags == 0 then 1 else 0
  }

  function Announcements(frames: seq<Frame>, sid: nat): nat {
    if frames == [] then 0
    else
      var f := frames[|frames| - 1];
      Announcements(frames[..|frames| - 1], sid) + if Announces(f) && f.sid == sid then 1 else 0
  }

  lemma ReplyCounts(e: Endpoint, f: Frame, sid: nat)
    ensures var replies := Dispatch(e, f).1;
      && CountOf(replies, Pong()) == (if f.typ == TYPE_PING && f.flags == 0 then 1 else 0)
      && CountOf(replies, Ack(sid)) == (if Announces(f) && f.sid == sid then 1 else 0)
  {
    var replies := Dispatch(e, f).1;
    assert |replies| <= 1;
    if |replies| == 1 { assert replies[..0] == []; }
  }

  /** Each ping is answered once, no answer is answered, and each announcement is acknowledged once. */
  lemma {:induction false} AnsweredExactly(e: Endpoint, frames: seq<Frame>, sid: nat)
    ensures var replies := DispatchAll(e, frames).1;
      CountOf(replies, Pong()) == Pings(frames) && CountOf(replies, Ack(sid)) == Announcements(frames, sid)
    ensures Pings([Pong()]) == 0 && Pings([Ack(sid)]) == 0 && Announcements([Ack(sid)], sid) == 0
    decreases |frames|
  {
    AnswersAreNotAnswered(sid);
    hide *;
    if frames == [] {
      NothingAnswered(e, sid);
    } else {
      var front, last := frames[..|frames| - 1], frames[|frames| - 1];
      AnsweredExactly(e, front, sid);
      var (e', replies) := DispatchAll(e, front);
      ReplyCounts(e', last, sid);
      CountConcat(replies, Dispatch(e', last).1, Pong());
      CountConcat(replies, Dispatch(e', last).1, Ack(sid));
      OneMoreFrame(e, frames, sid);
    }
  }

  lemma AnswersAreNotAnswered(sid: nat)
    ensures Pings([Pong()]) == 0 && Pings([Ack(sid)]) == 0 && Announcements([Ack(sid)], sid) == 0
  {
    assert [Pong()][..0] == [] && [Ack(sid)][..0] == [];
  }

  lemma NothingAnswered(e: Endpoint, sid: nat)
    ensures DispatchAll(e, []).1 == [] && CountOf([], Pong()) == CountOf([], Ack(sid)) == 0
    ensures Pings([]) == 0 && Announcements([], sid) == 0
  {
  }

  lemma OneMoreFrame(e: Endpoint, frames: seq<Frame>, sid: nat)
    requires frames != []
    ensures var front, last := frames[..|frames| - 1], frames[|frames| - 1];
      var (e', replies) := DispatchAll(e, front);
      && DispatchAll(e, frames).1 == replies + Dispatch(e', last).1
      && Pings(frames) == Pings(front) + (if last.typ == TYPE_PING && last.flags == 0 then 1 else 0)
      && Announcements(frames, sid) == Announcements(front, sid) + (if Announces(last) && last.sid == sid then 1 else 0)
  {
    hide Dispatch, Announces;
  }

  /** `accept_stream` takes the stream offered, so that the next announced one is offered again. */
  lemma AcceptedMakesRoom(x: Side, y: Side)
    requires y.got < |x.sent| && Announces(x.sent[y.got])
    ensures var free := Local(y, Accept);
      && free.ep.pending == None && free.ep.streams == y.ep.streams && free.got == y.got
      && Deliver(x, free).ep.pending == Some(x.sent[y.got].sid)
  {
  }

  /** An announced stream is fresh, even under an id in use; data for an unknown stream is dropped. */
  lemma AnnouncedIsFresh(e: Endpoint, f: Frame)
    ensures Announces(f) ==> f.sid in Dispatch(e, f).0.streams && Dispatch(e, f).0.streams[f.sid] == Stream([], false)
    ensures f.typ == TYPE_DATA && f.sid !in e.streams ==> Dispatch(e, f) == (e, [])
    ensures forall sid :: sid != f.sid ==>
      (sid in Dispatch(e, f).0.streams <==> sid in e.streams)
      && (sid in e.streams ==> Dispatch(e, f).0.streams[sid] == e.streams[sid])
  {
  }

  // ---- the end of a session ----

  ghost predicate NoGoAway(frames: seq<Frame>) {
    forall i :: 0 <= i < |frames| ==> frames[i].typ != TYPE_GO_AWAY
  }

  /** Whole frames are dispatched before whatever follows is looked at. */
  lemma {:induction false} FramesFirst(frames: seq<Frame>, rest: seq<Byte>)
    requires AllValid(frames) && NoGoAway(frames)
    ensures var s := ScanAll(rest);
      ScanAll(EncodeAll(frames) + rest) == s.(frames := frames + s.frames)
    decreases |frames|
  {
    hide *;
    if frames == [] {
      NoFrames(rest);
    } else {
      Unfold(frames);
      TailHasNoGoAway(frames);
      FramesFirst(frames[1..], rest);
      OneFrameFirst(frames[0], frames[1..], rest, EncodeAll(frames));
      assert frames == [frames[0]] + frames[1..];
    }
  }

  lemma NoFrames(rest: seq<Byte>)
    ensures var s := ScanAll(rest); ScanAll(EncodeAll([]) + rest) == s.(frames := [] + s.frames)
  {
    assert EncodeAll([]) + rest == rest;
  }

  lemma TailHasNoGoAway(frames: seq<Frame>)
    requires NoGoAway(frames) && frames != []
    ensures frames[0].typ != TYPE_GO_AWAY && NoGoAway(frames[1..])
  {
  }

  lemma OneFrameFirst(f: Frame, frames: seq<Frame>, rest: seq<Byte>, bytes: seq<Byte>)
    requires f.Valid() && f.typ != TYPE_GO_AWAY && AllValid(frames) && bytes == Encode(f) + EncodeAll(frames)
    requires var s := ScanAll(rest); ScanAll(EncodeAll(frames) + rest) == s.(frames := frames + s.frames)
    ensures var s := ScanAll(rest); ScanAll(bytes + rest) == s.(frames := ([f] + frames) + s.frames)
  {
    hide *;
    ScanFrameFirst(f, EncodeAll(frames) + rest);
    Assoc(Encode(f), EncodeAll(frames), rest);
    var s := ScanAll(rest);
    assert ([f] + frames) + s.frames == [f] + (frames + s.frames);
  }

  /**
   A session ends at a GoAway frame, which is still dispatched, and at a header of another version, at once; it goes on
   while the next frame is incomplete.
   */
  lemma SessionEnds(frames: seq<Frame>, bye: Frame, rest: seq<Byte>)
    requires AllValid(frames) && NoGoAway(frames) && bye.Valid() && bye.typ == TYPE_GO_AWAY
    ensures var s := ScanAll(EncodeAll(frames) + (Encode(bye) + rest)); s.dead && s.frames == frames + [bye]
    ensures |rest| >= HEADER_SIZE && rest[0] != 0 ==>
      var s := ScanAll(EncodeAll(frames) + rest); s.dead && s.frames == frames
    ensures |rest| < HEADER_SIZE ==>
      var s := ScanAll(EncodeAll(frames) + rest); !s.dead && s.frames == frames && s.rest == rest
  {
    FramesFirst(frames, Encode(bye) + rest);
    FramesFirst(frames, rest);
    ParseInvertsEncode(bye, rest);
    assert frames + [] == frames;
    hide EncodeAll, Encode;
  }

  /** Which bits of the flags mean SYN and FIN, whatever the others are. */
  lemma FlagBits(f: Frame, syn: nat, ack: nat, fin: nat, others: nat)
    requires syn < 2 && ack < 2 && fin < 2 && f.flags == syn + 2 * ack + 4 * fin + 8 * others
    ensures (f.HasSyn() <==> syn == 1) && (f.HasFin() <==> fin == 1)
  {
    Parity(f.flags, syn, ack + 2 * fin + 4 * others);
    Quarter(f.flags, fin + 2 * others, syn + 2 * ack);
    Parity(fin + 2 * others, fin, others);
  }

  lemma Parity(n: nat, low: nat, half: nat)
    requires low < 2 && n == low + 2 * half
    ensures n % 2 == low
  {
  }

  lemma Quarter(n: nat, q: nat, r: nat)
    requires r < 4 && n == r + 4 * q
    ensures n / 4 == q
  {
  }

  /** The header as it goes over the wire. */
  lemma WireBytes()
    ensures Encode(Syn(0x0102_0304)) == [0, 1, 0, 1, 1, 2, 3, 4, 0, 0, 0, 0]
    ensures Encode(Ack(3)) == [0, 1, 0, 2, 0, 0, 0, 3, 0, 0, 0, 0]
    ensures Encode(Fin(3)) == [0, 1, 0, 4, 0, 0, 0, 3, 0, 0, 0, 0]
    ensures Encode(Data(3, [7, 8])) == [0, 0, 0, 0, 0, 0, 0, 3, 0, 0, 0, 2, 7, 8]
    ensures Encode(Pong()) == [0, 2, 0, 2, 0, 0, 0, 0, 0, 0, 0, 0]
  {
    assert PutU32(0) == [0, 0, 0, 0] && PutU32(2) == [0, 0, 0, 2] && PutU32(3) == [0, 0, 0, 3];
    assert PutU32(0x0102_0304) == [1, 2, 3, 4];
    assert PutU16(0) == [0, 0] && PutU16(1) == [0, 1] && PutU16(2) == [0, 2] && PutU16(4) == [0, 4];
    hide PutU16, PutU32;
  }
}
