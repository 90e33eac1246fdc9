/** Two endpoints exchanging bytes: any interleaving of calls, and any way of cutting the bytes into `recv` chunks. */
module YamuxNet {
  import opened YamuxCodec
  import opened YamuxParser
  import opened YamuxEndpoint
  import opened YamuxSystem

  /** How much of the peer's byte stream a read loop has received, what it has not yet parsed, and whether it died. */
  datatype Inbox = Inbox(received: nat, inbuf: seq<Byte>, dead: bool)

  datatype Net = Net(left: Side, right: Side, atLeft: Inbox, atRight: Inbox)

  /** A public call on one side, or a `recv` of `n` bytes on one side. */
  datatype NetStep = Call(onLeft: bool, op: Op) | Recv(onLeft: bool, n: nat)

  // ---- bytes on the wire ----

  predicate AllValid(frames: seq<Frame>) {
    forall i :: 0 <= i < |frames| ==> frames[i].Valid()
  }

  /** Frames as the streams send them. */
  ghost function Sendable(frames: seq<Frame>): (b: bool)
    ensures b ==> AllValid(frames)
  {
    forall i :: 0 <= i < |frames| ==>
      frames[i].Valid() && frames[i].typ != TYPE_GO_AWAY && |frames[i].payload| <= DATA_FRAME_CAP
  }

  ghost function EncodeAll(frames: seq<Frame>): seq<Byte>
    requires AllValid(frames)
  {
    if frames == [] then [] else Encode(frames[0]) + EncodeAll(frames[1..])
  }

  lemma AllValidConcat(a: seq<Frame>, b: seq<Frame>)
    requires AllValid(a) && AllValid(b)
    ensures AllValid(a + b)
  {
  }

  lemma {:induction false} EncodeAllConcat(a: seq<Frame>, b: seq<Frame>)
    requires AllValid(a) && AllValid(b)
    ensures AllValid(a + b) && EncodeAll(a + b) == EncodeAll(a) + EncodeAll(b)
  {
    AllValidConcat(a, b);
    if a == [] {
      assert a + b == b;
    } else {
      assert AllValid(a[1..]);
      EncodeAllConcat(a[1..], b);
      hide AllValid;
      EncodeAllCons(a, b);
    }
  }

  lemma Unfold(frames: seq<Frame>)
    requires AllValid(frames) && frames != []
    ensures frames[0].Valid() && AllValid(frames[1..])
      && EncodeAll(frames) == Encode(frames[0]) + EncodeAll(frames[1..])
  {
  }

  lemma Assoc(a: seq<Byte>, b: seq<Byte>, c: seq<Byte>)
    ensures a + (b + c) == (a + b) + c
  {
  }

  lemma EncodeAllCons(a: seq<Frame>, b: seq<Frame>)
    requires AllValid(a) && AllValid(b) && AllValid(a + b) && a != [] && AllValid(a[1..]) && AllValid(a[1..] + b)
    requires EncodeAll(a[1..] + b) == EncodeAll(a[1..]) + EncodeAll(b)
    ensures EncodeAll(a + b) == EncodeAll(a) + EncodeAll(b)
  {
    hide EncodeAll, Encode, AllValid;
    Unfold(a);
    Unfold(a + b);
    assert (a + b)[1..] == a[1..] + b && (a + b)[0] == a[0];
    Assoc(Encode(a[0]), EncodeAll(a[1..]), EncodeAll(b));
  }

  lemma SlicesAreSendable(frames: seq<Frame>, n: nat)
    requires Sendable(frames) && n <= |frames|
    ensures Sendable(frames[..n]) && Sendable(frames[n..])
  {
    forall i | 0 <= i < |frames| - n ensures frames[n..][i] == frames[n + i] {
    }
  }

  lemma SplitAt(frames: seq<Frame>, n: nat)
    requires Sendable(frames) && n <= |frames|
    ensures Sendable(frames[..n]) && Sendable(frames[n..])
    ensures EncodeAll(frames) == EncodeAll(frames[..n]) + EncodeAll(frames[n..])
  {
    hide *;
    SlicesAreSendable(frames, n);
    assert frames == frames[..n] + frames[n..];
    EncodeAllConcat(frames[..n], frames[n..]);
  }

  lemma CancelLeft(a: seq<Byte>, b: seq<Byte>, c: seq<Byte>)
    requires a + b == a + c
    ensures b == c
  {
    assert (a + b)[|a|..] == b && (a + c)[|a|..] == c;
  }

  /** What scanning the first `k` bytes of the encoded frames should give: whole frames, and part of the next. */
  ghost predicate ScanOf(frames: seq<Frame>, k: nat, s: Scan)
    requires Sendable(frames) && k <= |EncodeAll(frames)|
  {
    && !s.dead && s.frames <= frames && Sendable(s.frames)
    && EncodeAll(frames)[..k] == EncodeAll(s.frames) + s.rest
    && ParseOne(s.rest) == NeedMore && |s.rest| < HEADER_SIZE + DATA_FRAME_CAP
  }

  lemma ScanPartOfFrame(frames: seq<Frame>, k: nat)
    requires Sendable(frames) && frames != [] && k < |Encode(frames[0])| && k <= |EncodeAll(frames)|
    ensures ScanOf(frames, k, ScanAll(EncodeAll(frames)[..k]))
  {
    assert EncodeAll(frames)[..k] == Encode(frames[0])[..k];
    PrefixNeedsMore(frames[0], k);
    assert EncodeAll([]) == [];
  }

  lemma ScanFrameFirst(f: Frame, rest: seq<Byte>)
    requires f.Valid() && f.typ != TYPE_GO_AWAY
    ensures var s := ScanAll(rest); ScanAll(Encode(f) + rest) == s.(frames := [f] + s.frames)
  {
    ParseInvertsEncode(f, rest);
    assert (Encode(f) + rest)[|Encode(f)|..] == rest;
  }

  lemma SendableCons(f: Frame, frames: seq<Frame>)
    requires Sendable(frames) && f.Valid() && f.typ != TYPE_GO_AWAY && |f.payload| <= DATA_FRAME_CAP
    ensures Sendable([f] + frames)
  {
  }

  lemma EncodeCons(f: Frame, frames: seq<Frame>)
    requires Sendable(frames) && f.Valid() && f.typ != TYPE_GO_AWAY && |f.payload| <= DATA_FRAME_CAP
    ensures Sendable([f] + frames) && EncodeAll([f] + frames) == Encode(f) + EncodeAll(frames)
  {
    SendableCons(f, frames);
    assert ([f] + frames)[1..] == frames;
    Unfold([f] + frames);
  }

  lemma ScanWholeFrame(f: Frame, frames: seq<Frame>, k: nat)
    requires f.Valid() && f.typ != TYPE_GO_AWAY && |f.payload| <= DATA_FRAME_CAP
    requires Sendable([f] + frames) && Sendable(frames) && k <= |EncodeAll(frames)|
      && |Encode(f)| + k <= |EncodeAll([f] + frames)|
    requires ScanOf(frames, k, ScanAll(EncodeAll(frames)[..k]))
    ensures ScanOf([f] + frames, |Encode(f)| + k, ScanAll(EncodeAll([f] + frames)[..|Encode(f)| + k]))
  {
    hide ScanAll, EncodeAll, Encode, ParseOne, Sendable;
    var part := EncodeAll(frames)[..k];
    var s := ScanAll(part);
    EncodeCons(f, frames);
    EncodeCons(f, s.frames);
    ScanFrameFirst(f, part);
    Assoc(Encode(f), EncodeAll(s.frames), s.rest);
    assert EncodeAll([f] + frames)[..|Encode(f)| + k] == Encode(f) + part;
  }

  /** Scanning any prefix of an encoded stream yields a prefix of its frames, and less than one frame is left over. */
  lemma {:induction false} ScanWire(frames: seq<Frame>, k: nat)
    requires Sendable(frames) && k <= |EncodeAll(frames)|
    ensures ScanOf(frames, k, ScanAll(EncodeAll(frames)[..k]))
    decreases frames, 0
  {
    if frames == [] {
    } else if k < |Encode(frames[0])| {
      ScanPartOfFrame(frames, k);
    } else {
      assert frames == [frames[0]] + frames[1..];
      ScanWireStep(frames[0], frames[1..], k);
    }
  }

  lemma {:induction false} ScanWireStep(f: Frame, rest: seq<Frame>, k: nat)
    requires f.Valid() && f.typ != TYPE_GO_AWAY && |f.payload| <= DATA_FRAME_CAP
    requires Sendable(rest) && Sendable([f] + rest) && |Encode(f)| <= k <= |EncodeAll([f] + rest)|
    ensures ScanOf([f] + rest, k, ScanAll(EncodeAll([f] + rest)[..k]))
    decreases rest, 1
  {
    hide ScanOf, ScanAll, Encode, EncodeAll, Sendable;
    EncodeCons(f, rest);
    ScanWire(rest, k - |Encode(f)|);
    ScanWholeFrame(f, rest, k - |Encode(f)|);
  }

  // ---- steps ----

  function DeliverMany(x: Side, y: Side, m: nat): Side
    requires y.got + m <= |x.sent|
    ensures DeliverMany(x, y, m).got == y.got + m
  {
    if m == 0 then y else Deliver(x, DeliverMany(x, y, m - 1))
  }

  ghost predicate CanRecv(x: Side, inbox: Inbox, n: nat) {
    Sendable(x.sent) && 0 < n <= RECV_SIZE && inbox.received + n <= |EncodeAll(x.sent)|
  }

  /** The read loop of `y` receives the next `n` bytes that `x` sent and dispatches every complete frame. */
  ghost function RecvStep(x: Side, y: Side, inbox: Inbox, n: nat): (Side, Inbox)
    requires CanRecv(x, inbox, n)
  {
    var chunk := EncodeAll(x.sent)[inbox.received..inbox.received + n];
    var r := Receive(Reader(inbox.inbuf, [], inbox.dead), chunk);
    var (ep, replies) := DispatchAll(y.ep, r.dispatched);
    (y.(ep := ep, sent := y.sent + replies, got := y.got + |r.dispatched|),
     Inbox(inbox.received + n, r.inbuf, r.dead))
  }

  ghost predicate CanStep(net: Net, step: NetStep) {
    match step
    case Call(onLeft, op) => Enabled(if onLeft then net.left else net.right, op)
    case Recv(onLeft, n) => if onLeft then CanRecv(net.right, net.atLeft, n) else CanRecv(net.left, net.atRight, n)
  }

  ghost function Take(net: Net, step: NetStep): Net
    requires CanStep(net, step)
  {
    match step
    case Call(onLeft, op) =>
      if onLeft then net.(left := Local(net.left, op)) else net.(right := Local(net.right, op))
    case Recv(onLeft, n) =>
      if onLeft then
        var (y, inbox) := RecvStep(net.right, net.left, net.atLeft, n);
        net.(left := y, atLeft := inbox)
      else
        var (y, inbox) := RecvStep(net.left, net.right, net.atRight, n);
        net.(right := y, atRight := inbox)
  }

  // ---- what every step keeps ----

  /** The bytes received are the frames processed and then the bytes waiting, and the read loop lives. */
  ghost predicate InboxOk(x: Side, y: Side, inbox: Inbox) {
    && Sendable(x.sent) && y.got <= |x.sent| && inbox.received <= |EncodeAll(x.sent)|
    && !inbox.dead && ParseOne(inbox.inbuf) == NeedMore
    && EncodeAll(x.sent)[..inbox.received] == EncodeAll(x.sent[..y.got]) + inbox.inbuf
  }

  ghost predicate NetInv(net: Net) {
    && Both(net.left, net.right, 1)
    && InboxOk(net.left, net.right, net.atRight)
    && InboxOk(net.right, net.left, net.atLeft)
  }

  lemma Symmetric(x: Side, y: Side, parity: nat)
    requires Both(x, y, parity)
    ensures Both(y, x, 1 - parity)
  {
    hide Half;
  }

  lemma ShapeIsSendable(x: Side, parity: nat)
    requires Shape(x, parity)
    ensures Sendable(x.sent)
  {
  }

  /** The peer sends more: the bytes already received stay what they were. */
  lemma InboxSurvivesSends(x: Side, x': Side, y: Side, inbox: Inbox)
    requires InboxOk(x, y, inbox) && x.sent <= x'.sent && Sendable(x'.sent)
    ensures InboxOk(x', y, inbox)
  {
    var more := x'.sent[|x.sent|..];
    assert x'.sent == x.sent + more;
    EncodeAllConcat(x.sent, more);
    assert x'.sent[..y.got] == x.sent[..y.got];
    assert EncodeAll(x'.sent)[..inbox.received] == EncodeAll(x.sent)[..inbox.received];
  }

  lemma {:induction false} WriteExtends(x: Side, sid: nat, data: seq<Byte>)
    ensures x.sent <= WriteChunks(x, sid, data).sent && WriteChunks(x, sid, data).got == x.got
    decreases |data|
  {
    if data != [] {
      var chunk := if |data| < DATA_FRAME_CAP then |data| else DATA_FRAME_CAP;
      WriteExtends(SendData(x, sid, data[..chunk]), sid, data[chunk..]);
    }
  }

  lemma LocalExtends(x: Side, op: Op)
    requires Enabled(x, op)
    ensures x.sent <= Local(x, op).sent && Local(x, op).got == x.got
  {
    if op.Write? { WriteExtends(x, op.sid, op.data); }
  }

  /** Dispatching a run of frames is delivering them one at a time. */
  lemma {:induction false} DispatchAllDelivers(x: Side, y: Side, frames: seq<Frame>)
    requires y.got + |frames| <= |x.sent| && frames == x.sent[y.got..y.got + |frames|]
    ensures var (ep, replies) := DispatchAll(y.ep, frames);
      y.(ep := ep, sent := y.sent + replies, got := y.got + |frames|) == DeliverMany(x, y, |frames|)
    decreases |frames|
  {
    hide Dispatch;
    if frames == [] {
      assert y.sent + [] == y.sent;
    } else {
      var front := frames[..|frames| - 1];
      DispatchAllDelivers(x, y, front);
      var (ep, replies) := DispatchAll(y.ep, front);
      var (ep', more) := Dispatch(ep, frames[|frames| - 1]);
      assert y.sent + (replies + more) == y.sent + replies + more;
    }
  }

  lemma {:induction false} DeliverManyKeeps(x: Side, y: Side, parity: nat, m: nat)
    requires Both(x, y, parity) && y.got + m <= |x.sent|
    ensures Both(x, DeliverMany(x, y, m), parity) && y.sent <= DeliverMany(x, y, m).sent
  {
    hide Half;
    if m > 0 {
      DeliverManyKeeps(x, y, parity, m - 1);
      DeliverKeeps(x, DeliverMany(x, y, m - 1), parity);
    }
  }

  /** The bytes waiting and the bytes just received are the front of what the peer's unprocessed frames encode. */
  lemma WaitingAndNew(x: Side, y: Side, inbox: Inbox, n: nat)
    requires InboxOk(x, y, inbox) && CanRecv(x, inbox, n)
    ensures Sendable(x.sent[y.got..]) && |inbox.inbuf| + n <= |EncodeAll(x.sent[y.got..])|
    ensures inbox.inbuf + EncodeAll(x.sent)[inbox.received..inbox.received + n]
      == EncodeAll(x.sent[y.got..])[..|inbox.inbuf| + n]
  {
    SplitAt(x.sent, y.got);
    hide EncodeAll;
    WaitingBytes(EncodeAll(x.sent), EncodeAll(x.sent[..y.got]), EncodeAll(x.sent[y.got..]), inbox.inbuf,
      inbox.received, n);
  }

  lemma WaitingBytes(wire: seq<Byte>, done: seq<Byte>, todo: seq<Byte>, inbuf: seq<Byte>, received: nat, n: nat)
    requires wire == done + todo && received + n <= |wire| && wire[..received] == done + inbuf
    ensures |inbuf| + n <= |todo| && inbuf + wire[received..received + n] == todo[..|inbuf| + n]
  {
    var k := |inbuf| + n;
    assert |done| + |inbuf| == received;
    assert wire[..received + n] == wire[..received] + wire[received..received + n];
    assert (done + inbuf) + wire[received..received + n] == done + (inbuf + wire[received..received + n]);
    assert wire[..received + n] == done + todo[..k];
    CancelLeft(done, inbuf + wire[received..received + n], todo[..k]);
  }

  lemma ReceivedBytes(wire: seq<Byte>, done: seq<Byte>, more: seq<Byte>, rest: seq<Byte>, inbuf: seq<Byte>,
                      received: nat, n: nat)
    requires received + n <= |wire| && wire[..received] == done + inbuf
    requires inbuf + wire[received..received + n] == more + rest
    ensures wire[..received + n] == (done + more) + rest
  {
    assert wire[..received + n] == wire[..received] + wire[received..received + n];
    assert (done + inbuf) + wire[received..received + n] == done + (inbuf + wire[received..received + n]);
    assert done + (more + rest) == (done + more) + rest;
  }

  /** What one `recv` makes of them: the next frames of the peer, whole. */
  lemma RecvScans(x: Side, y: Side, inbox: Inbox, n: nat)
    requires InboxOk(x, y, inbox) && CanRecv(x, inbox, n)
    ensures var s := ScanAll(inbox.inbuf + EncodeAll(x.sent)[inbox.received..inbox.received + n]);
      && y.got + |s.frames| <= |x.sent| && s.frames == x.sent[y.got..y.got + |s.frames|]
      && !s.dead && ParseOne(s.rest) == NeedMore && |s.rest| <= MAX_INBUF
      && EncodeAll(x.sent)[..inbox.received + n] == EncodeAll(x.sent[..y.got + |s.frames|]) + s.rest
  {
    hide ScanAll, EncodeAll, Encode, Sendable, ParseOne;
    WaitingAndNew(x, y, inbox, n);
    SplitAt(x.sent, y.got);
    var todo := x.sent[y.got..];
    ScanWire(todo, |inbox.inbuf| + n);
    var s := ScanAll(inbox.inbuf + EncodeAll(x.sent)[inbox.received..inbox.received + n]);
    assert x.sent[..y.got + |s.frames|] == x.sent[..y.got] + s.frames;
    EncodeAllConcat(x.sent[..y.got], s.frames);
    ReceivedBytes(EncodeAll(x.sent), EncodeAll(x.sent[..y.got]), EncodeAll(s.frames), s.rest, inbox.inbuf,
      inbox.received, n);
  }

  /** A `recv` is some number of whole-frame deliveries. */
  lemma RecvDelivers(x: Side, y: Side, inbox: Inbox, n: nat)
    requires InboxOk(x, y, inbox) && CanRecv(x, inbox, n)
    ensures var (y', inbox') := RecvStep(x, y, inbox, n);
      && y.got <= y'.got <= |x.sent| && y' == DeliverMany(x, y, y'.got - y.got)
      && InboxOk(x, y', inbox')
  {
    hide ScanAll, EncodeAll, Encode, Sendable, ParseOne, DispatchAll, DeliverMany;
    RecvScans(x, y, inbox, n);
    var s := ScanAll(inbox.inbuf + EncodeAll(x.sent)[inbox.received..inbox.received + n]);
    assert [] + s.frames == s.frames;
    DispatchAllDelivers(x, y, s.frames);
  }

  lemma RecvKeeps(x: Side, y: Side, parity: nat, toY: Inbox, toX: Inbox, n: nat)
    requires Both(x, y, parity) && InboxOk(x, y, toY) && InboxOk(y, x, toX) && CanRecv(x, toY, n)
    ensures var (y', toY') := RecvStep(x, y, toY, n);
      Both(x, y', parity) && InboxOk(x, y', toY') && InboxOk(y', x, toX)
  {
    hide Half, RecvStep, InboxOk, DeliverMany, CanRecv;
    var (y', toY') := RecvStep(x, y, toY, n);
    RecvDelivers(x, y, toY, n);
    DeliverManyKeeps(x, y, parity, y'.got - y.got);
    HalfIsSendable(y', x, 1 - parity);
    InboxSurvivesSends(y, y', x, toX);
  }

  lemma HalfIsSendable(x: Side, y: Side, parity: nat)
    requires Half(x, y, parity)
    ensures Sendable(x.sent)
  {
    hide Opened, Conserved, Finished;
    ShapeIsSendable(x, parity);
  }

  lemma CallKeeps(x: Side, y: Side, parity: nat, toY: Inbox, toX: Inbox, op: Op)
    requires Both(x, y, parity) && InboxOk(x, y, toY) && InboxOk(y, x, toX) && Enabled(x, op)
    ensures var x' := Local(x, op); Both(x', y, parity) && InboxOk(x', y, toY) && InboxOk(y, x', toX)
  {
    var x' := Local(x, op);
    hide Half, Local;
    LocalKeeps(x, y, parity, op);
    LocalExtends(x, op);
    HalfIsSendable(x', y, parity);
    InboxSurvivesSends(x, x', y, toY);
  }

  lemma StepKeeps(net: Net, step: NetStep)
    requires NetInv(net) && CanStep(net, step)
    ensures NetInv(Take(net, step))
  {
    hide Both, InboxOk, RecvStep, Local, CanRecv, Enabled;
    Symmetric(net.left, net.right, 1);
    match step
    case Call(onLeft, op) =>
      if onLeft {
        CallKeeps(net.left, net.right, 1, net.atRight, net.atLeft, op);
      } else {
        CallKeeps(net.right, net.left, 0, net.atLeft, net.atRight, op);
        Symmetric(Local(net.right, op), net.left, 0);
      }
    case Recv(onLeft, n) =>
      if onLeft {
        RecvKeeps(net.right, net.left, 0, net.atLeft, net.atRight, n);
        Symmetric(net.right, RecvStep(net.right, net.left, net.atLeft, n).0, 0);
      } else {
        RecvKeeps(net.left, net.right, 1, net.atRight, net.atLeft, n);
      }
  }

  // ---- runs ----

  const BEGIN := Net(Begin(true), Begin(false), Inbox(0, [], false), Inbox(0, [], false))

  ghost predicate Possible(net: Net, steps: seq<NetStep>)
    decreases |steps|
  {
    steps == [] || (CanStep(net, steps[0]) && Possible(Take(net, steps[0]), steps[1..]))
  }

  ghost function Run(net: Net, steps: seq<NetStep>): Net
    requires Possible(net, steps)
    decreases |steps|
  {
    if steps == [] then net else Run(Take(net, steps[0]), steps[1..])
  }

  lemma {:induction false} RunKeeps(net: Net, steps: seq<NetStep>)
    requires NetInv(net) && Possible(net, steps)
    ensures NetInv(Run(net, steps))
    decreases |steps|
  {
    hide NetInv, CanStep, Take;
    if steps != [] {
      StepKeeps(net, steps[0]);
      RunKeeps(Take(net, steps[0]), steps[1..]);
    }
  }

  lemma BeginIsFine()
    ensures NetInv(BEGIN)
  {
    BeginBoth();
  }

  /** Every byte of `x` has arrived at `y`. */
  ghost predicate Drained(x: Side, inbox: Inbox) {
    Sendable(x.sent) && inbox.received == |EncodeAll(x.sent)|
  }

  lemma DrainedIsProcessed(x: Side, y: Side, inbox: Inbox)
    requires InboxOk(x, y, inbox) && Drained(x, inbox)
    ensures y.got == |x.sent|
  {
    var todo := x.sent[y.got..];
    SplitAt(x.sent, y.got);
    assert EncodeAll(x.sent)[..inbox.received] == EncodeAll(x.sent);
    CancelLeft(EncodeAll(x.sent[..y.got]), inbox.inbuf, EncodeAll(todo));
    if todo != [] {
      ParseInvertsEncode(todo[0], EncodeAll(todo[1..]));
    }
  }

  /**
   End to end, for every interleaving of calls on any number of streams and every cutting of the bytes: no
   read loop dies (so the buffer guard never fires), what has reached a stream, read or waiting, is a prefix of
   what was written to it on the other side, and it is all of it once the bytes have arrived.
   */
  lemma EndToEnd(steps: seq<NetStep>, sid: nat)
    requires Possible(BEGIN, steps)
    ensures var net := Run(BEGIN, steps);
      && !net.atLeft.dead && !net.atRight.dead
      && Received(net.right, sid) <= Of(net.left.wrote, sid)
      && Received(net.left, sid) <= Of(net.right.wrote, sid)
      && (Drained(net.left, net.atRight) ==> Received(net.right, sid) == Of(net.left.wrote, sid))
      && (Drained(net.right, net.atLeft) ==> Received(net.left, sid) == Of(net.right.wrote, sid))
  {
    BeginIsFine();
    RunKeeps(BEGIN, steps);
    var net := Run(BEGIN, steps);
    hide Both, Run, Possible;
    Symmetric(net.left, net.right, 1);
    DeliveredIsPrefix(net.left, net.right, 1, sid);
    DeliveredIsPrefix(net.right, net.left, 0, sid);
    if Drained(net.left, net.atRight) { DrainedIsProcessed(net.left, net.right, net.atRight); }
    if Drained(net.right, net.atLeft) { DrainedIsProcessed(net.right, net.left, net.atLeft); }
  }

  /** After every run: at most one FIN per side and stream, and with both channels drained the two sides agree. */
  lemma TwoPartyClose(steps: seq<NetStep>, sid: nat)
    requires Possible(BEGIN, steps)
    ensures var net := Run(BEGIN, steps);
      && FinsOf(net.left.sent, sid) <= 1 && FinsOf(net.right.sent, sid) <= 1
      && (Closed(net.left, sid) && !Closed(net.right, sid) ==>
            exists i :: net.right.got <= i < |net.left.sent| && net.left.sent[i] == Fin(sid))
      && (Closed(net.right, sid) && !Closed(net.left, sid) ==>
            exists i :: net.left.got <= i < |net.right.sent| && net.right.sent[i] == Fin(sid))
      && (Drained(net.left, net.atRight) && Drained(net.right, net.atLeft) ==>
            (Closed(net.left, sid) <==> Closed(net.right, sid)))
  {
    BeginIsFine();
    RunKeeps(BEGIN, steps);
    var net := Run(BEGIN, steps);
    hide Both, Run, Possible;
    Symmetric(net.left, net.right, 1);
    CloseAgrees(net.left, net.right, 1, sid);
    if Closed(net.left, sid) && !Closed(net.right, sid) { ClosedHasFinInFlight(net.left, net.right, 1, sid); }
    if Closed(net.right, sid) && !Closed(net.left, sid) { ClosedHasFinInFlight(net.right, net.left, 0, sid); }
    if Drained(net.left, net.atRight) && Drained(net.right, net.atLeft) {
      DrainedIsProcessed(net.left, net.right, net.atRight);
      DrainedIsProcessed(net.right, net.left, net.atLeft);
    }
  }

  /** After every run: a stream whose FIN was processed has received everything that was written to it. */
  lemma FinishedIsComplete(steps: seq<NetStep>, sid: nat)
    requires Possible(BEGIN, steps)
    ensures var net := Run(BEGIN, steps);
      && net.right.got <= |net.left.sent| && net.left.got <= |net.right.sent|
      && (FinsOf(net.left.sent[..net.right.got], sid) > 0 ==> Received(net.right, sid) == Of(net.left.wrote, sid))
      && (FinsOf(net.right.sent[..net.left.got], sid) > 0 ==> Received(net.left, sid) == Of(net.right.wrote, sid))
  {
    BeginIsFine();
    RunKeeps(BEGIN, steps);
    var net := Run(BEGIN, steps);
    hide Both, Run, Possible;
    Symmetric(net.left, net.right, 1);
    FinMeansComplete(net.left, net.right, 1, sid);
    FinMeansComplete(net.right, net.left, 0, sid);
  }
}
