/**
 Frames on the wire: header, encoder, the output queue drained record by record, and the
 receive loop that collects records until a frame is complete. TLS delivers records in
 order; a record never spans two frames, because the queue sends from one frame at a time.
 */
module Framing {
  import opened Octets
  import opened Bundles

  const HDR: int := 5
  const FRAME_MAX: int := HDR + SIG_SIZE + MAX_PAYLOAD

  datatype Frame = Frame(kind: Byte, sig: Bytes, payload: Bytes)

  /** What the senders produce. `fixedSig`: towards the coordinator every frame carries a full-size signature. */
  predicate Sendable(fixedSig: bool, f: Frame) {
    |f.payload| <= MAX_PAYLOAD && |f.sig| <= SIG_SIZE && (fixedSig ==> |f.sig| == SIG_SIZE)
  }

  /** What the C field types admit, and the signature in its place. */
  predicate Shaped(fixedSig: bool, f: Frame) {
    |f.payload| < U16_LIMIT && |f.sig| <= SIG_SIZE && (fixedSig ==> |f.sig| == SIG_SIZE)
  }

  function Header(kind: Byte, plen: int, slen: int): (r: Bytes)
    requires 0 <= plen < U16_LIMIT && 0 <= slen < U16_LIMIT
    ensures |r| == HDR
  {
    [kind] + PutU16(plen) + PutU16(slen)
  }

  function Encode(f: Frame): (r: Bytes)
    requires |f.payload| < U16_LIMIT && |f.sig| < U16_LIMIT
    ensures |r| == HDR + |f.sig| + |f.payload|
  {
    Header(f.kind, |f.payload|, |f.sig|) + f.sig + f.payload
  }

  /** Bytes a frame occupies, as the receiver computes it from the header. */
  function Need(fixedSig: bool, p: Bytes): nat
    requires |p| >= HDR
  {
    HDR + (if fixedSig then SIG_SIZE else GetU16(p[3], p[4])) + GetU16(p[1], p[2])
  }

  function FrameIn(fixedSig: bool, p: Bytes): Frame
    requires |p| >= HDR && |p| >= Need(fixedSig, p)
  {
    var slen := GetU16(p[3], p[4]);
    var body := HDR + if fixedSig then SIG_SIZE else slen;
    Frame(p[0], p[HDR..if HDR + slen <= |p| then HDR + slen else |p|], p[body..body + GetU16(p[1], p[2])])
  }

  /** One record: what stays in the buffer, and the frame it completes, if any. */
  function Feed(fixedSig: bool, pending: Bytes, record: Bytes): (Bytes, Option<Frame>) {
    Collect(fixedSig, pending + record)
  }

  function Collect(fixedSig: bool, p: Bytes): (Bytes, Option<Frame>) {
    if |p| < HDR || |p| < Need(fixedSig, p) then (p, None) else ([], Some(FrameIn(fixedSig, p)))
  }

  // ---------------------------------------------------------------- encoder and receiver

  /** `frost_encode_frame`. */
  method EncodeFrame(dst: array<Byte>, f: Frame) returns (r: int)
    requires |f.payload| < U16_LIMIT && |f.sig| < U16_LIMIT && HDR + |f.sig| + |f.payload| <= dst.Length
    modifies dst
    ensures r == -1 <==> |f.payload| > MAX_PAYLOAD
    ensures r == -1 ==> dst[..] == old(dst[..])
    ensures r != -1 ==> 0 <= r <= dst.Length && dst[..r] == Encode(f)
  {
    if |f.payload| > MAX_PAYLOAD { return -1; }
    dst[0] := f.kind;
    WriteU16(dst, 1, |f.payload|);
    WriteU16(dst, 3, |f.sig|);
    assert dst[..HDR] == Header(f.kind, |f.payload|, |f.sig|);
    CopyInto(dst, HDR, f.sig);
    CopyInto(dst, HDR + |f.sig|, f.payload);
    return HDR + |f.sig| + |f.payload|;
  }

  lemma SliceOfPrefix(s: Bytes, n: nat, i: nat, j: nat)
    requires i <= j <= n <= |s|
    ensures s[..n][i..j] == s[i..j]
  {
  }

  /** A connection's input buffer and its write pointer. */
  class Receiver {
    const fixedSig: bool
    const buf: array<Byte>
    var inptr: nat

    ghost predicate Valid()
      reads this
    {
      buf.Length == FRAME_MAX && inptr <= FRAME_MAX
    }

    ghost function Pending(): Bytes
      requires Valid()
      reads this, buf
    {
      buf[..inptr]
    }

    constructor (fixedSig: bool)
      ensures Valid() && Pending() == [] && this.fixedSig == fixedSig && fresh(buf)
    {
      this.fixedSig := fixedSig;
      buf := new Byte[FRAME_MAX](_ => 0);
      inptr := 0;
    }

    /** Hand over the frame in the buffer once it is whole. */
    method TakeFrame() returns (got: Option<Frame>)
      requires Valid()
      modifies this`inptr
      ensures Valid() && (Pending(), got) == Collect(fixedSig, old(Pending()))
    {
      if inptr < HDR { return None; }
      var plen, slen := GetU16(buf[1], buf[2]), GetU16(buf[3], buf[4]);
      var body := HDR + if fixedSig then SIG_SIZE else slen;
      if inptr < body + plen { return None; }
      var sigEnd := if HDR + slen <= inptr then HDR + slen else inptr;
      got := Some(Frame(buf[0], buf[HDR..sigEnd], buf[body..body + plen]));
      SliceOfPrefix(buf[..], inptr, HDR, sigEnd);
      SliceOfPrefix(buf[..], inptr, body, body + plen);
      inptr := 0;
    }

    /** One pass of the receive loop. */
    method Receive(record: Bytes) returns (got: Option<Frame>)
      requires Valid() && inptr + |record| <= FRAME_MAX
      modifies this`inptr, buf
      ensures Valid() && (Pending(), got) == Feed(fixedSig, old(Pending()), record)
    {
      CopyInto(buf, inptr, record);
      inptr := inptr + |record|;
      got := TakeFrame();
    }
  }

  // ---------------------------------------------------------------- one frame

  predicate IsPrefix(a: Bytes, b: Bytes) {
    |a| <= |b| && a == b[..|a|]
  }

  /** The header alone fixes how long the frame is. */
  lemma HeaderTells(fixedSig: bool, f: Frame, p: Bytes)
    requires Shaped(fixedSig, f) && IsPrefix(p, Encode(f)) && |p| >= HDR
    ensures Need(fixedSig, p) == |Encode(f)| && p[0] == f.kind
    ensures GetU16(p[3], p[4]) == |f.sig| && GetU16(p[1], p[2]) == |f.payload|
  {
    var e := Encode(f);
    assert p[0] == e[0] && p[1] == e[1] && p[2] == e[2] && p[3] == e[3] && p[4] == e[4];
    assert e[1] == PutU16(|f.payload|)[0] && e[2] == PutU16(|f.payload|)[1];
    assert e[3] == PutU16(|f.sig|)[0] && e[4] == PutU16(|f.sig|)[1];
  }

  /** A whole frame is recognised and comes back; a proper prefix of one never is. */
  lemma FeedIs(fixedSig: bool, f: Frame, pending: Bytes, record: Bytes)
    requires Shaped(fixedSig, f) && IsPrefix(pending + record, Encode(f))
    ensures Feed(fixedSig, pending, record) ==
            if pending + record == Encode(f) then ([], Some(f)) else (pending + record, None)
  {
    var p, e := pending + record, Encode(f);
    if |p| >= HDR {
      HeaderTells(fixedSig, f, p);
      if |p| == |e| {
        assert p == e;
        assert e[HDR..HDR + |f.sig|] == f.sig;
        assert e[HDR + |f.sig|..HDR + |f.sig| + |f.payload|] == f.payload;
      }
    }
  }

  // ---------------------------------------------------------------- the channel

  /** A queued frame and how much of it was sent. */
  datatype OutMsg = OutMsg(data: Bytes, sent: nat)

  /** Sender queue, records on the wire, receive buffer; `entered` and `delivered` are the history. */
  datatype Channel = Channel(fixedSig: bool, outq: seq<OutMsg>, wire: seq<Bytes>, pending: Bytes,
                             entered: seq<Frame>, delivered: seq<Frame>)

  datatype Event = Enqueue(f: Frame) | Drain(k: nat) | Receive

  /** `drain_outq` and `drain_signer_write`: a record of `k` bytes of the first frame goes out. */
  function DrainQueue(outq: seq<OutMsg>, k: nat): seq<OutMsg>
    requires outq != []
  {
    if outq[0].sent + k >= |outq[0].data| then outq[1..]
    else [OutMsg(outq[0].data, outq[0].sent + k)] + outq[1..]
  }

  predicate CanDrain(outq: seq<OutMsg>, k: nat) {
    outq != [] && 0 < k && outq[0].sent + k <= |outq[0].data|
  }

  function Step(c: Channel, e: Event): Channel {
    match e
    case Enqueue(f) =>
      if Sendable(c.fixedSig, f) then c.(outq := c.outq + [OutMsg(Encode(f), 0)], entered := c.entered + [f]) else c
    case Drain(k) =>
      if CanDrain(c.outq, k)
      then c.(outq := DrainQueue(c.outq, k), wire := c.wire + [c.outq[0].data[c.outq[0].sent..c.outq[0].sent + k]])
      else c
    case Receive =>
      if c.wire == [] then c else
      var r := Feed(c.fixedSig, c.pending, c.wire[0]);
      c.(wire := c.wire[1..], pending := r.0, delivered := c.delivered + if r.1.Some? then [r.1.value] else [])
  }

  function Run(c: Channel, es: seq<Event>): Channel {
    if es == [] then c else Step(Run(c, es[..|es| - 1]), es[|es| - 1])
  }

  function Start(fixedSig: bool): Channel {
    Channel(fixedSig, [], [], [], [], [])
  }

  /**
   The bytes queued for a frame, in a buffer that held `memory`. The encoder refuses an oversized
   payload, and its callers queue the untouched buffer all the same.
   */
  function Outgoing(f: Frame, memory: Bytes): (r: Bytes)
    requires |f.payload| < U16_LIMIT && |f.sig| < U16_LIMIT && |memory| == HDR + |f.sig| + |f.payload|
    ensures |r| == |memory|
  {
    if |f.payload| <= MAX_PAYLOAD then Encode(f) else memory
  }

  /** After an oversized payload the receiver takes whatever frame the buffer happened to spell. */
  lemma OversizedIsReadAsMemory(fixedSig: bool, f: Frame, memory: Bytes, g: Frame)
    requires MAX_PAYLOAD < |f.payload| < U16_LIMIT && |f.sig| < U16_LIMIT && |memory| == HDR + |f.sig| + |f.payload|
    requires Sendable(fixedSig, g) && Encode(g) <= memory
    ensures Feed(fixedSig, [], Outgoing(f, memory)[..|Encode(g)|]) == ([], Some(g))
  {
    var p := memory[..|Encode(g)|];
    assert [] + p == p;
    FeedIs(fixedSig, g, [], p);
  }

  // ---------------------------------------------------------------- which frames are delivered

  function Joined(pieces: seq<Bytes>): Bytes {
    if pieces == [] then [] else pieces[0] + Joined(pieces[1..])
  }

  /** The frames that the records of `pieces` complete. A full buffer ends the connection. */
  function FeedAll(fixedSig: bool, pending: Bytes, pieces: seq<Bytes>): seq<Frame>
    decreases |pieces|
  {
    if pieces == [] || |pending| + |pieces[0]| > FRAME_MAX then [] else
    var r := Feed(fixedSig, pending, pieces[0]);
    (if r.1.Some? then [r.1.value] else []) + FeedAll(fixedSig, r.0, pieces[1..])
  }

  /** Every record carries something. */
  predicate NoneEmpty(pieces: seq<Bytes>) {
    forall i :: 0 <= i < |pieces| ==> pieces[i] != []
  }

  lemma JoinedHead(pieces: seq<Bytes>, pending: Bytes)
    requires pieces != [] && NoneEmpty(pieces)
    ensures pending + Joined(pieces) == (pending + pieces[0]) + Joined(pieces[1..]) && NoneEmpty(pieces[1..])
  {
  }

  lemma {:induction false} NothingJoined(pieces: seq<Bytes>)
    requires NoneEmpty(pieces) && Joined(pieces) == []
    ensures pieces == []
  {
  }

  /** The encoding of a frame that fits the buffer is delivered as that frame, however it is cut. */
  lemma {:induction false} EncodedIsDelivered(fixedSig: bool, f: Frame, pending: Bytes, pieces: seq<Bytes>)
    requires Shaped(fixedSig, f) && |Encode(f)| <= FRAME_MAX && NoneEmpty(pieces)
    requires pending + Joined(pieces) == Encode(f) && |pending| < |Encode(f)|
    ensures FeedAll(fixedSig, pending, pieces) == [f]
    decreases |pieces|
  {
    assert pieces == [] ==> pending + [] == pending;
    var p := pending + pieces[0];
    JoinedHead(pieces, pending);
    FeedIs(fixedSig, f, pending, pieces[0]);
    if p == Encode(f) {
      NothingJoined(pieces[1..]);
    } else {
      assert |p| < |Encode(f)|;
      EncodedIsDelivered(fixedSig, f, p, pieces[1..]);
    }
  }

  /** Bytes that complete an oversized frame spell all of it. */
  lemma CompletedIsEncoded(fixedSig: bool, f: Frame, p: Bytes)
    requires Shaped(fixedSig, f) && f.payload != [] && |p| <= |Encode(f)| && Collect(fixedSig, p).1 == Some(f)
    ensures p == Encode(f)
  {
    var e, slen, plen := Encode(f), GetU16(p[3], p[4]), GetU16(p[1], p[2]);
    assert plen == |f.payload| && slen == |f.sig|;
    assert p[1] == PutU16(plen)[0] && p[2] == PutU16(plen)[1] && p[3] == PutU16(slen)[0] && p[4] == PutU16(slen)[1];
    assert p[..HDR] == Header(f.kind, plen, slen);
    assert p == p[..HDR] + p[HDR..HDR + slen] + p[HDR + slen..];
  }

  lemma {:induction false} DeliveredIsEncoded(fixedSig: bool, f: Frame, pending: Bytes, pieces: seq<Bytes>)
    requires Shaped(fixedSig, f) && f.payload != [] && NoneEmpty(pieces)
    requires |pending + Joined(pieces)| <= |Encode(f)| && f in FeedAll(fixedSig, pending, pieces)
    ensures pending + Joined(pieces) == Encode(f)
    decreases |pieces|
  {
    var r := Feed(fixedSig, pending, pieces[0]);
    JoinedHead(pieces, pending);
    if r.1 == Some(f) {
      CompletedIsEncoded(fixedSig, f, pending + pieces[0]);
    } else {
      assert f in FeedAll(fixedSig, r.0, pieces[1..]);
      assert r.1.Some? ==> r.0 == [] && [] + Joined(pieces[1..]) == Joined(pieces[1..]);
      DeliveredIsEncoded(fixedSig, f, r.0, pieces[1..]);
    }
  }

  /**
   Whatever the new buffer held and however the bytes are cut into records: the frame that was sent is
   delivered if and only if its payload is within the limit, or the buffer by chance already spelled its
   encoding and that fits the receive buffer.
   */
  lemma DeliveredIff(fixedSig: bool, f: Frame, memory: Bytes, pieces: seq<Bytes>)
    requires Shaped(fixedSig, f) && |memory| == HDR + |f.sig| + |f.payload|
    requires NoneEmpty(pieces) && Joined(pieces) == Outgoing(f, memory)
    ensures f in FeedAll(fixedSig, [], pieces) <==>
            |f.payload| <= MAX_PAYLOAD || (memory == Encode(f) && |memory| <= FRAME_MAX)
  {
    assert [] + Joined(pieces) == Joined(pieces);
    if |f.payload| <= MAX_PAYLOAD || (memory == Encode(f) && |memory| <= FRAME_MAX) {
      EncodedIsDelivered(fixedSig, f, [], pieces);
    }
    if |f.payload| > MAX_PAYLOAD && f in FeedAll(fixedSig, [], pieces) {
      DeliveredIsEncoded(fixedSig, f, [], pieces);
      DeliveredFits(fixedSig, f, [], pieces);
    }
  }

  lemma {:induction false} DeliveredFits(fixedSig: bool, f: Frame, pending: Bytes, pieces: seq<Bytes>)
    requires Shaped(fixedSig, f) && f.payload != [] && f in FeedAll(fixedSig, pending, pieces)
    ensures |Encode(f)| <= FRAME_MAX
    decreases |pieces|
  {
    var r := Feed(fixedSig, pending, pieces[0]);
    if r.1 != Some(f) {
      DeliveredFits(fixedSig, f, r.0, pieces[1..]);
    }
  }

  /** The output queue of a connection, drained in place. */
  class Sender {
    var outq: seq<OutMsg>

    constructor ()
      ensures outq == []
    {
      outq := [];
    }

    /** `signer_send` and `queue_to_coord_signed`; `memory` is what the new buffer holds. */
    method Send(f: Frame, memory: Bytes)
      requires |f.payload| < U16_LIMIT && |f.sig| < U16_LIMIT && |memory| == HDR + |f.sig| + |f.payload|
      modifies this
      ensures outq == old(outq) + [OutMsg(Outgoing(f, memory), 0)]
    {
      var data := new Byte[|memory|](i requires 0 <= i < |memory| => memory[i]);
      assert data[..] == memory;
      var len := EncodeFrame(data, f);
      assert len != -1 ==> data[..len] == data[..];
      outq := outq + [OutMsg(data[..], 0)];
    }

    /** One call of the drain routine when TLS takes `k` bytes of what it is offered. */
    method DrainOne(k: nat) returns (record: Bytes)
      requires CanDrain(outq, k)
      modifies this
      ensures outq == DrainQueue(old(outq), k)
      ensures record == old(outq)[0].data[old(outq)[0].sent..old(outq)[0].sent + k]
    {
      var m := outq[0];
      record := m.data[m.sent..m.sent + k];
      m := m.(sent := m.sent + k);
      outq := outq[0 := m];
      if m.sent >= |m.data| {
        outq := outq[1..];
      }
    }
  }

  // ---------------------------------------------------------------- what is in flight

  /** Non-empty pieces that, after `pending`, spell out the frames of `rest`, none crossing a frame's end. */
  predicate Flow(fixedSig: bool, pending: Bytes, pieces: seq<Bytes>, rest: seq<Frame>)
    decreases |pieces|
  {
    if pieces == [] then pending == [] && rest == [] else
    && rest != [] && pieces[0] != [] && Sendable(fixedSig, rest[0])
    && var p := pending + pieces[0];
       && IsPrefix(p, Encode(rest[0]))
       && if p == Encode(rest[0]) then Flow(fixedSig, [], pieces[1..], rest[1..])
          else Flow(fixedSig, p, pieces[1..], rest)
  }

  function Unsent(outq: seq<OutMsg>): seq<Bytes>
    requires forall i :: 0 <= i < |outq| ==> outq[i].sent <= |outq[i].data|
  {
    seq(|outq|, i requires 0 <= i < |outq| => outq[i].data[outq[i].sent..])
  }

  lemma {:induction false} FlowAppend(fixedSig: bool, pending: Bytes, pieces: seq<Bytes>, rest: seq<Frame>, f: Frame)
    requires Flow(fixedSig, pending, pieces, rest) && Sendable(fixedSig, f)
    ensures Flow(fixedSig, pending, pieces + [Encode(f)], rest + [f])
    decreases |pieces|
  {
    var ps, fs := pieces + [Encode(f)], rest + [f];
    if pieces == [] {
      assert ps == [Encode(f)] && fs == [f] && ps[1..] == [] && fs[1..] == [];
      assert [] + Encode(f) == Encode(f);
    } else {
      var p := pending + pieces[0];
      assert ps[0] == pieces[0] && fs[0] == rest[0];
      assert ps[1..] == pieces[1..] + [Encode(f)] && fs[1..] == rest[1..] + [f];
      if p == Encode(rest[0]) {
        FlowAppend(fixedSig, [], pieces[1..], rest[1..], f);
      } else {
        FlowAppend(fixedSig, p, pieces[1..], rest, f);
      }
    }
  }

  /** Sending a piece in two parts does not disturb the flow. */
  lemma {:induction false} FlowSplit(fixedSig: bool, pending: Bytes, a: seq<Bytes>, x: Bytes, b: seq<Bytes>,
                                     rest: seq<Frame>, k: nat)
    requires Flow(fixedSig, pending, a + [x] + b, rest) && 0 < k < |x|
    ensures Flow(fixedSig, pending, a + [x[..k], x[k..]] + b, rest)
    decreases |a|
  {
    var ps, qs := a + [x] + b, a + [x[..k], x[k..]] + b;
    if a == [] {
      assert ps[0] == x && ps[1..] == b;
      assert qs[0] == x[..k] && qs[1..] == [x[k..]] + b && qs[1..][0] == x[k..] && qs[1..][1..] == b;
      assert pending + x[..k] + x[k..] == pending + x;
      assert IsPrefix(pending + x[..k], Encode(rest[0]));
    } else {
      assert ps[0] == a[0] && ps[1..] == a[1..] + [x] + b;
      assert qs[0] == a[0] && qs[1..] == a[1..] + [x[..k], x[k..]] + b;
      var p := pending + a[0];
      if p == Encode(rest[0]) {
        FlowSplit(fixedSig, [], a[1..], x, b, rest[1..], k);
      } else {
        FlowSplit(fixedSig, p, a[1..], x, b, rest, k);
      }
    }
  }

  ghost predicate Inv(c: Channel) {
    && (forall i :: 0 <= i < |c.outq| ==> c.outq[i].sent < |c.outq[i].data|)
    && |c.delivered| <= |c.entered| && c.delivered == c.entered[..|c.delivered|]
    && Flow(c.fixedSig, c.pending, c.wire + Unsent(c.outq), c.entered[|c.delivered|..])
  }

  lemma EnqueueKeeps(c: Channel, f: Frame)
    requires Inv(c) && Sendable(c.fixedSig, f)
    ensures Inv(Step(c, Enqueue(f)))
  {
    var r := Step(c, Enqueue(f));
    FlowAppend(c.fixedSig, c.pending, c.wire + Unsent(c.outq), c.entered[|c.delivered|..], f);
    assert Encode(f)[0..] == Encode(f);
    assert r.wire + Unsent(r.outq) == (c.wire + Unsent(c.outq)) + [Encode(f)];
    assert r.entered[|c.delivered|..] == c.entered[|c.delivered|..] + [f];
  }

  lemma DrainKeeps(c: Channel, k: nat)
    requires Inv(c) && CanDrain(c.outq, k)
    ensures Inv(Step(c, Drain(k)))
  {
    var r := Step(c, Drain(k));
    var m := c.outq[0];
    var x, b := m.data[m.sent..], Unsent(c.outq[1..]);
    assert Unsent(c.outq) == [x] + b;
    assert c.wire + Unsent(c.outq) == c.wire + [x] + b;
    assert x[..k] == m.data[m.sent..m.sent + k];
    if k == |x| {
      assert x[..k] == x;
      assert r.outq == c.outq[1..] && r.wire == c.wire + [x];
    } else {
      FlowSplit(c.fixedSig, c.pending, c.wire, x, b, c.entered[|c.delivered|..], k);
      assert x[k..] == m.data[m.sent + k..];
      assert Unsent(r.outq) == [x[k..]] + b;
      assert r.wire + Unsent(r.outq) == c.wire + [x[..k], x[k..]] + b;
    }
  }

  lemma ReceiveKeeps(c: Channel)
    requires Inv(c) && c.wire != []
    ensures Inv(Step(c, Receive))
  {
    var r := Step(c, Receive);
    var pieces, rest := c.wire + Unsent(c.outq), c.entered[|c.delivered|..];
    FeedIs(c.fixedSig, rest[0], c.pending, pieces[0]);
    assert pieces[0] == c.wire[0] && pieces[1..] == r.wire + Unsent(r.outq);
    if c.pending + pieces[0] == Encode(rest[0]) {
      assert r.delivered == c.entered[..|c.delivered| + 1];
      assert rest[1..] == c.entered[|r.delivered|..];
    } else {
      assert r.delivered == c.delivered;
    }
  }

  lemma {:induction false} RunKeeps(fixedSig: bool, es: seq<Event>)
    ensures Inv(Run(Start(fixedSig), es)) && Run(Start(fixedSig), es).fixedSig == fixedSig
  {
    if es != [] {
      RunKeeps(fixedSig, es[..|es| - 1]);
      var c, e := Run(Start(fixedSig), es[..|es| - 1]), es[|es| - 1];
      match e
      case Enqueue(f) => if Sendable(c.fixedSig, f) { EnqueueKeeps(c, f); }
      case Drain(k) => if CanDrain(c.outq, k) { DrainKeeps(c, k); }
      case Receive => if c.wire != [] { ReceiveKeeps(c); }
    }
  }

  // ---------------------------------------------------------------- the guarantees

  /** The channel delivers the frames that entered it, in order, none lost, changed or invented. */
  lemma ChannelIsFifo(fixedSig: bool, es: seq<Event>)
    ensures var c := Run(Start(fixedSig), es);
            && |c.delivered| <= |c.entered| && c.delivered == c.entered[..|c.delivered|]
            && (c.outq == [] && c.wire == [] ==> c.delivered == c.entered && c.pending == [])
  {
    RunKeeps(fixedSig, es);
    var c := Run(Start(fixedSig), es);
    if c.outq == [] && c.wire == [] {
      assert c.wire + Unsent(c.outq) == [];
      assert c.entered == c.entered[..|c.delivered|] + c.entered[|c.delivered|..];
    }
  }

  /** The next record always fits what is left of the receive buffer, and there is always room for more. */
  lemma BufferNeverOverflows(fixedSig: bool, es: seq<Event>)
    ensures var c := Run(Start(fixedSig), es);
            && |c.pending| < FRAME_MAX
            && (c.wire != [] ==> 0 < |c.wire[0]| && |c.pending| + |c.wire[0]| <= FRAME_MAX)
  {
    RunKeeps(fixedSig, es);
    var c := Run(Start(fixedSig), es);
    var pieces := c.wire + Unsent(c.outq);
    if pieces != [] {
      assert c.wire != [] ==> pieces[0] == c.wire[0];
    }
  }
}
