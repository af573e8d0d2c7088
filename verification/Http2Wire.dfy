/** HTTP/2 frames as bytes (section 4.1 of RFC 7540): an encoder, and what the gRPC variant of the stream
    parser (rakaia/grpc/strparser.c) makes of a connection that carries encoded frames. */
module Http2Wire {
  import opened Framing
  import opened Http2

  /** What a frame header can hold, and the size limit of the parser. */
  predicate Sendable(f: Frame, max: nat) {
    f.id < 0x8000_0000 && f.kind < 0x100 && f.flag < 0x100 && |f.payload| < 0x100_0000 && 9 + |f.payload| <= max
  }

  /** 24 bits of length, 8 of type, 8 of flags, a reserved bit, 31 of stream id, the payload. */
  function Encode(f: Frame, reserved: bool): (b: Bytes)
    requires f.id < 0x8000_0000 && f.kind < 0x100 && f.flag < 0x100 && |f.payload| < 0x100_0000
    ensures |b| == 9 + |f.payload|
  {
    Prefix(|f.payload|, f.kind, f.flag, f.id, reserved) + f.payload
  }

  function Prefix(n: nat, kind: nat, flag: nat, id: nat, reserved: bool): (b: Bytes)
    requires id < 0x8000_0000 && kind < 0x100 && flag < 0x100 && n < 0x100_0000
    ensures |b| == 9
  {
    [n / 0x1_0000, n / 0x100 % 0x100, n % 0x100, kind, flag,
     (if reserved then 0x80 else 0) + id / 0x100_0000, id / 0x1_0000 % 0x100, id / 0x100 % 0x100, id % 0x100]
  }

  lemma Digits3(n: nat)
    ensures 0x1_0000 * (n / 0x1_0000) + 0x100 * (n / 0x100 % 0x100) + n % 0x100 == n
  {
  }

  lemma DropBit(n: nat, m: nat)
    requires n < 0x8000_0000 && (m == n || m == n + 0x8000_0000)
    ensures m % 0x8000_0000 == n
  {
  }

  /** The length callback reads the length off the first three bytes, whatever follows. */
  lemma LengthOfFrame(f: Frame, reserved: bool, max: nat, rest: Bytes)
    requires Sendable(f, max)
    ensures H2Length(Encode(f, reserved) + rest) == 9 + |f.payload|
  {
    Digits3(|f.payload|);
  }

  /** Decoding undoes encoding; the reserved bit is ignored. */
  lemma FrameRoundTrip(f: Frame, reserved: bool, max: nat)
    requires Sendable(f, max)
    ensures FrameOf(Encode(f, reserved)) == f
  {
    var b, r := Encode(f, reserved), if reserved then 0x80 else 0;
    assert b[9..] == f.payload;
    var b5: int, b6: int, b7: int, b8: int := b[5], b[6], b[7], b[8];
    assert b5 == r + f.id / 0x100_0000 && b6 == f.id / 0x1_0000 % 0x100;
    assert b7 == f.id / 0x100 % 0x100 && b8 == f.id % 0x100;
    Digits(f.id);
    DropBit(f.id, 0x100_0000 * b5 + 0x1_0000 * b6 + 0x100 * b7 + b8);
  }

  /** The window update that the parser sends is a frame of type 8 on stream 0 with the increment as its
      four bytes. */
  lemma UpdateIsFrame(inc: nat)
    requires inc < 0x8000_0000
    ensures
      var p: Bytes := [inc / 0x100_0000, inc / 0x1_0000 % 0x100, inc / 0x100 % 0x100, inc % 0x100];
      EncodeUpdate(inc) == Encode(Frame(0, 8, 0, p), false)
  {
  }

  // ---- a connection of encoded frames ----

  datatype Sent = Sent(frame: Frame, reserved: bool)

  predicate AllSendable(ss: seq<Sent>, max: nat) { forall i :: 0 <= i < |ss| ==> Sendable(ss[i].frame, max) }

  function Frames(ss: seq<Sent>): (fs: seq<Frame>)
    ensures |fs| == |ss|
  {
    seq(|ss|, i requires 0 <= i < |ss| => ss[i].frame)
  }

  function Packets(ss: seq<Sent>, max: nat): (ms: seq<Bytes>)
    requires AllSendable(ss, max)
    ensures |ms| == |ss|
  {
    seq(|ss|, i requires 0 <= i < |ss| => Encode(ss[i].frame, ss[i].reserved))
  }

  lemma PacketIsFrame(s: Sent, max: nat)
    requires Sendable(s.frame, max)
    ensures var b := Encode(s.frame, s.reserved); WellFormed(H2Format(max), b) && FrameOf(b) == s.frame
  {
    var b := Encode(s.frame, s.reserved);
    LengthOfFrame(s.frame, s.reserved, max, []);
    assert b + [] == b;
    FrameRoundTrip(s.frame, s.reserved, max);
  }

  lemma PacketsAreFrames(ss: seq<Sent>, max: nat)
    requires AllSendable(ss, max)
    ensures forall m :: m in Packets(ss, max) ==> WellFormed(H2Format(max), m)
    ensures FramesOf(Packets(ss, max)) == Frames(ss)
  {
    var ms := Packets(ss, max);
    forall i | 0 <= i < |ss| ensures WellFormed(H2Format(max), ms[i]) && FrameOf(ms[i]) == ss[i].frame {
      PacketIsFrame(ss[i], max);
    }
  }

  lemma PartAtEnd(s: Sent, max: nat, n: nat)
    requires Sendable(s.frame, max) && 9 <= n < 9 + |s.frame.payload|
    ensures H2Length(Encode(s.frame, s.reserved)[..n]) == 9 + |s.frame.payload|
  {
    LengthOfFrame(s.frame, s.reserved, max, []);
  }

  /** However the bytes of the frames ss, with the first n bytes of one more, are cut into buffers, exactly
      the frames ss are received, and those n bytes are held. */
  lemma FramesReceived(max: nat, ss: seq<Sent>, last: Sent, n: nat, bufs: seq<Bytes>)
    requires AllSendable(ss, max) && Sendable(last.frame, max) && n < 9 + |last.frame.payload|
    requires Concat(bufs) == Concat(Packets(ss, max)) + Encode(last.frame, last.reserved)[..n]
    ensures
      var r := ReceiveAll(H2Format(max), START, bufs);
      && !r.error && r.held == Encode(last.frame, last.reserved)[..n]
      && (forall m :: m in r.msgs ==> |m| >= 9) && FramesOf(r.msgs) == Frames(ss)
  {
    LooksAtHeader(max);
    PacketsAreFrames(ss, max);
    if n >= 9 { PartAtEnd(last, max, n); }
    StreamDelivered(H2Format(max), Packets(ss, max), Encode(last.frame, last.reserved)[..n], bufs);
  }

  // ---- the messages of a stream, read from the front ----

  /** Frames of types DATA (0), HEADERS (1), RST_STREAM (3) and CONTINUATION (9) on stream id. */
  predicate Own(f: Frame, id: nat) {
    f.id == id && (f.kind == 0 || f.kind == 1 || f.kind == 3 || f.kind == 9)
  }

  /** END_STREAM is bit 0 of the flags; RST_STREAM ends a message as well. */
  predicate Ends(f: Frame) { f.flag % 2 == 1 || f.kind == 3 }

  function OwnFrames(fs: seq<Frame>, id: nat): seq<Frame> {
    if fs == [] then [] else (if Own(fs[0], id) then [fs[0]] else []) + OwnFrames(fs[1..], id)
  }

  /** Up to and including the first frame that ends a message. */
  function FirstEnd(fs: seq<Frame>): (n: nat)
    ensures n <= |fs| && (n < |fs| ==> Ends(fs[n])) && forall i :: 0 <= i < n ==> !Ends(fs[i])
  {
    if fs == [] || Ends(fs[0]) then 0 else 1 + FirstEnd(fs[1..])
  }

  function SplitMessages(fs: seq<Frame>): seq<seq<Frame>>
    decreases |fs|
  {
    var n := FirstEnd(fs);
    if n == |fs| then [] else [fs[..n + 1]] + SplitMessages(fs[n + 1..])
  }

  /** Payload bytes of DATA and RST_STREAM frames. */
  function PayloadBytes(fs: seq<Frame>): nat {
    if fs == [] then 0 else (if fs[0].kind == 0 || fs[0].kind == 3 then |fs[0].payload| else 0) + PayloadBytes(fs[1..])
  }

  lemma {:induction false} OwnSnoc(fs: seq<Frame>, f: Frame, id: nat)
    ensures OwnFrames(fs + [f], id) == OwnFrames(fs, id) + if Own(f, id) then [f] else []
    decreases |fs|
  {
    if fs == [] {
      assert fs + [f] == [f] && [f][1..] == [];
    } else {
      assert (fs + [f])[0] == fs[0] && (fs + [f])[1..] == fs[1..] + [f];
      OwnSnoc(fs[1..], f, id);
      Assoc(if Own(fs[0], id) then [fs[0]] else [], OwnFrames(fs[1..], id), if Own(f, id) then [f] else []);
    }
  }

  lemma {:induction false} PayloadSnoc(fs: seq<Frame>, f: Frame)
    ensures PayloadBytes(fs + [f]) == PayloadBytes(fs) + if f.kind == 0 || f.kind == 3 then |f.payload| else 0
    decreases |fs|
  {
    if fs == [] {
      assert fs + [f] == [f] && [f][1..] == [];
    } else {
      assert (fs + [f])[1..] == fs[1..] + [f];
      PayloadSnoc(fs[1..], f);
    }
  }

  lemma {:induction false} ProjectIsOwn(fs: seq<Frame>, id: nat)
    ensures Project(fs, id) == OwnFrames(fs, id) && CountedBytes(fs) == PayloadBytes(fs)
    decreases |fs|
  {
    if fs != [] {
      var n := |fs| - 1;
      ProjectIsOwn(fs[..n], id);
      OwnSnoc(fs[..n], fs[n], id);
      PayloadSnoc(fs[..n], fs[n]);
      assert fs[..n] + [fs[n]] == fs;
    }
  }

  lemma {:induction false} NoneEnds(fs: seq<Frame>)
    requires forall i :: 0 <= i < |fs| ==> !Ends(fs[i])
    ensures Messages(fs) == [] && Open(fs) == fs
    decreases |fs|
  {
    if fs != [] {
      var n := |fs| - 1;
      NoneEnds(fs[..n]);
      assert fs[..n] + [fs[n]] == fs;
    }
  }

  /** A first message in front adds itself in front. */
  lemma {:induction false} MessagesAfter(a: seq<Frame>, b: seq<Frame>)
    requires a != [] && Ends(a[|a| - 1]) && forall i :: 0 <= i < |a| - 1 ==> !Ends(a[i])
    ensures Messages(a + b) == [a] + Messages(b) && Open(a + b) == Open(b)
    decreases |b|
  {
    if b == [] {
      var n := |a| - 1;
      assert a + b == a && a[..n] + [a[n]] == a;
      NoneEnds(a[..n]);
    } else {
      var n := |b| - 1;
      MessagesAfter(a, b[..n]);
      Assoc(a, b[..n], [b[n]]);
      assert b[..n] + [b[n]] == b;
      MessagesSnoc(a + b[..n], b[n]);
      MessagesSnoc(b[..n], b[n]);
    }
  }

  lemma {:induction false} MessagesAreSplit(fs: seq<Frame>)
    ensures Messages(fs) == SplitMessages(fs)
    decreases |fs|
  {
    var n := FirstEnd(fs);
    if n == |fs| {
      NoneEnds(fs);
    } else {
      MessagesAfter(fs[..n + 1], fs[n + 1..]);
      assert fs[..n + 1] + fs[n + 1..] == fs;
      MessagesAreSplit(fs[n + 1..]);
    }
  }

  // ---- end to end ----

  /** However the bytes of a connection are cut, each stream gets the messages made of its own frames as
      they were encoded, and the account balances with the payload bytes encoded. */
  lemma EncodedFramesDelivered(max: nat, ss: seq<Sent>, last: Sent, n: nat, bufs: seq<Bytes>, id: nat, window: int)
    requires AllSendable(ss, max) && Sendable(last.frame, max) && n < 9 + |last.frame.payload|
    requires Concat(bufs) == Concat(Packets(ss, max)) + Encode(last.frame, last.reserved)[..n]
    ensures
      var msgs := ReceiveAll(H2Format(max), START, bufs).msgs;
      && (forall m :: m in msgs ==> |m| >= 9)
      && DeliveredTo(DispatchAll(FramesOf(msgs)).delivered, id) == SplitMessages(OwnFrames(Frames(ss), id))
      && var a := ChargeAll(window, FramesOf(msgs));
         a.unacked >= 0 && Sum(a.sent) + a.unacked == PayloadBytes(Frames(ss))
  {
    var fs := Frames(ss);
    FramesReceived(max, ss, last, n, bufs);
    StreamsAreIndependent(fs, id);
    ProjectIsOwn(fs, id);
    MessagesAreSplit(OwnFrames(fs, id));
    AccountBalances(window, fs);
  }
}
