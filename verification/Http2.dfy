/** The gRPC variant of the stream parser (rakaia/grpc/strparser.c): HTTP/2 frames are grouped per
    stream, and received payload is acknowledged with connection-level window updates
    (sections 4.1 and 6.9 of RFC 7540). */
module Http2 {
  import opened Framing

  const DATA := 0
  const HEADERS := 1
  const RST_STREAM := 3
  const WINDOW_UPDATE := 8
  const CONTINUATION := 9

  const H2_HEADER := 9
  const MAX31 := 0x8000_0000

  datatype Frame = Frame(id: nat, kind: nat, flag: nat, payload: Bytes) {
    predicate EndStream() { flag % 2 == 1 }
    /** Frames that are kept for the application. */
    predicate Kept() { kind == DATA || kind == HEADERS || kind == CONTINUATION || kind == RST_STREAM }
    /** The last frame of a message. */
    predicate Last() { EndStream() || kind == RST_STREAM }
    /** Frames charged to the connection window. */
    predicate Counted() { kind == DATA || kind == RST_STREAM }
  }

  // ---- frame headers ----

  /** `parse_msg_http2`, 0 without a whole header. */
  function H2Length(b: Bytes): int {
    if |b| < H2_HEADER then 0 else 0x1_0000 * b[0] + 0x100 * b[1] + b[2] + H2_HEADER
  }

  function H2Format(max: nat): Format { Format(H2Length, H2_HEADER, max) }

  function FrameOf(b: Bytes): Frame
    requires |b| >= H2_HEADER
  {
    Frame((0x100_0000 * b[5] + 0x1_0000 * b[6] + 0x100 * b[7] + b[8]) % MAX31, b[3], b[4], b[9..])
  }

  lemma LooksAtHeader(max: nat)
    ensures HeaderOnly(H2Format(max))
  {
  }

  lemma {:induction false} NeverUndercut(max: nat, b: Bytes)
    ensures !Undercut(H2Format(max), b)
    decreases |b|
  {
    if |b| >= H2_HEADER {
      var n := H2Length(b);
      if n <= max && n <= |b| { NeverUndercut(max, b[n..]); }
    }
  }

  /** Frames never depend on how the byte stream is cut: a length includes its header. */
  lemma FramesCuttingFree(max: nat, b: Bytes)
    ensures CuttingFree(H2Format(max), b)
  {
    LooksAtHeader(max);
    NeverUndercut(max, b);
    CuttingFreeIff(H2Format(max), b);
  }

  // ---- per-stream reference: cut the stream's own frames after each last one ----

  function Project(fs: seq<Frame>, id: nat): seq<Frame> {
    if fs == [] then [] else
      var p, f := Project(fs[..|fs| - 1], id), fs[|fs| - 1];
      if f.Kept() && f.id == id then p + [f] else p
  }

  /** Complete messages of one stream. */
  function Messages(fs: seq<Frame>): seq<seq<Frame>> {
    if fs == [] then [] else
      var n := |fs| - 1;
      if fs[n].Last() then Messages(fs[..n]) + [Open(fs[..n]) + [fs[n]]] else Messages(fs[..n])
  }

  /** Frames of the message that is still incomplete. */
  function Open(fs: seq<Frame>): seq<Frame> {
    if fs == [] || fs[|fs| - 1].Last() then [] else Open(fs[..|fs| - 1]) + [fs[|fs| - 1]]
  }

  // ---- what handle_h2_frame does, on the abstract table ----

  datatype Delivery = Delivery(id: nat, frames: seq<Frame>)

  /** Buffered streams and deliveries so far. */
  datatype Streams = Streams(open: map<nat, seq<Frame>>, delivered: seq<Delivery>)

  function Chain(open: map<nat, seq<Frame>>, id: nat): seq<Frame> { if id in open then open[id] else [] }

  function Dispatch(s: Streams, f: Frame): Streams {
    if !f.Kept() then s
    else
      var chain := Chain(s.open, f.id) + [f];
      if f.Last() then Streams(s.open - {f.id}, s.delivered + [Delivery(f.id, chain)])
      else s.(open := s.open[f.id := chain])
  }

  function DispatchAll(fs: seq<Frame>): Streams {
    if fs == [] then Streams(map[], []) else Dispatch(DispatchAll(fs[..|fs| - 1]), fs[|fs| - 1])
  }

  function DeliveredTo(ds: seq<Delivery>, id: nat): seq<seq<Frame>> {
    if ds == [] then [] else
      var r, d := DeliveredTo(ds[..|ds| - 1], id), ds[|ds| - 1];
      if d.id == id then r + [d.frames] else r
  }

  /** For any interleaving, what is delivered and what is buffered for a stream depend on that
      stream's own frames only: its messages, cut after each last frame. */
  lemma {:induction false} StreamsAreIndependent(fs: seq<Frame>, id: nat)
    ensures
      var s, own := DispatchAll(fs), Project(fs, id);
      && DeliveredTo(s.delivered, id) == Messages(own)
      && Chain(s.open, id) == Open(own)
      && (id in s.open <==> Open(own) != [])
  {
    if fs != [] {
      var n := |fs| - 1;
      var f, s := fs[n], DispatchAll(fs[..n]);
      StreamsAreIndependent(fs[..n], id);
      if f.Kept() {
        MessagesSnoc(Project(fs[..n], id), f);
        DeliveredSnoc(s.delivered, Delivery(f.id, Chain(s.open, f.id) + [f]), id);
      }
    }
  }

  lemma MessagesSnoc(own: seq<Frame>, f: Frame)
    ensures Messages(own + [f]) == if f.Last() then Messages(own) + [Open(own) + [f]] else Messages(own)
    ensures Open(own + [f]) == if f.Last() then [] else Open(own) + [f]
  {
    assert (own + [f])[..|own|] == own;
  }

  lemma DeliveredSnoc(ds: seq<Delivery>, d: Delivery, id: nat)
    ensures DeliveredTo(ds + [d], id) == if d.id == id then DeliveredTo(ds, id) + [d.frames] else DeliveredTo(ds, id)
  {
    assert (ds + [d])[..|ds|] == ds;
  }

  // ---- from bytes to messages ----

  /** The frames of a parsed byte stream. */
  function FramesOf(msgs: seq<Bytes>): (fs: seq<Frame>)
    requires forall m :: m in msgs ==> |m| >= H2_HEADER
    ensures |fs| == |msgs|
  {
    seq(|msgs|, i requires 0 <= i < |msgs| => FrameOf(msgs[i]))
  }

  lemma {:induction false} ParsedAreFrames(max: nat, b: Bytes)
    ensures forall m :: m in Parse(H2Format(max), b).msgs ==> |m| == H2Length(m) >= H2_HEADER
    decreases |b|
  {
    var n := H2Length(b);
    if |b| >= H2_HEADER && n <= max && n <= |b| {
      ParsedAreFrames(max, b[n..]);
      assert H2Length(b[..n]) == n;
    }
  }

  /** End to end: however the connection's byte stream b is cut into buffers, each stream gets the
      messages made of its own frames in b. */
  lemma ConnectionDelivers(max: nat, b: Bytes, bufs: seq<Bytes>, id: nat)
    requires Concat(bufs) == b
    ensures
      var received, parsed := ReceiveAll(H2Format(max), START, bufs).msgs, Parse(H2Format(max), b).msgs;
      && (forall m :: m in received ==> |m| >= H2_HEADER) && (forall m :: m in parsed ==> |m| >= H2_HEADER)
      && DeliveredTo(DispatchAll(FramesOf(received)).delivered, id) == Messages(Project(FramesOf(parsed), id))
      && Framed(FramesOf(received))
  {
    FramesCuttingFree(max, b);
    ParsedAreFrames(max, b);
    var parsed := Parse(H2Format(max), b).msgs;
    StreamsAreIndependent(FramesOf(parsed), id);
    forall f | f in FramesOf(parsed) ensures |f.payload| < 0x100_0000 {
      var i :| 0 <= i < |parsed| && FramesOf(parsed)[i] == f;
      assert parsed[i] in parsed;
    }
  }

  // ---- flow control accounting ----

  /** A frame length has 24 bits. */
  ghost predicate Framed(fs: seq<Frame>) { forall f :: f in fs ==> |f.payload| < 0x100_0000 }

  /** C division of an int by 4 truncates toward zero. */
  function Quarter(window: int): int { if window >= 0 then window / 4 else -(-window / 4) }

  /** Bytes not yet acknowledged and the increments sent. */
  datatype Account = Account(unacked: int, sent: seq<int>)

  function Charge(window: int, a: Account, f: Frame): Account {
    if !f.Counted() then a
    else
      var u := a.unacked + |f.payload|;
      if u >= Quarter(window) then Account(0, a.sent + [u]) else a.(unacked := u)
  }

  function ChargeAll(window: int, fs: seq<Frame>): Account {
    if fs == [] then Account(0, []) else Charge(window, ChargeAll(window, fs[..|fs| - 1]), fs[|fs| - 1])
  }

  function Sum(s: seq<int>): int {
    if s == [] then 0 else Sum(s[..|s| - 1]) + s[|s| - 1]
  }

  function CountedBytes(fs: seq<Frame>): nat {
    if fs == [] then 0 else
      CountedBytes(fs[..|fs| - 1]) + if fs[|fs| - 1].Counted() then |fs[|fs| - 1].payload| else 0
  }

  /** Nothing is lost or acknowledged twice, whatever the window. */
  lemma {:induction false} AccountBalances(window: int, fs: seq<Frame>)
    ensures var a := ChargeAll(window, fs); a.unacked >= 0 && Sum(a.sent) + a.unacked == CountedBytes(fs)
  {
    if fs != [] {
      var n := |fs| - 1;
      AccountBalances(window, fs[..n]);
      var a := ChargeAll(window, fs[..n]);
      assert forall u: int :: (a.sent + [u])[..|a.sent|] == a.sent;
    }
  }

  ghost predicate LegalIncrement(inc: int) { 1 <= inc < MAX31 }

  /** With a window of at least 4 every increment is legal and less than a quarter stays
      unacknowledged. */
  lemma {:induction false} IncrementsLegal(window: int, fs: seq<Frame>)
    requires 4 <= window < MAX31 && Framed(fs)
    ensures
      var a := ChargeAll(window, fs);
      a.unacked < Quarter(window) && forall i :: 0 <= i < |a.sent| ==> LegalIncrement(a.sent[i])
  {
    if fs != [] {
      var n := |fs| - 1;
      assert forall f :: f in fs[..n] ==> f in fs;
      IncrementsLegal(window, fs[..n]);
      AccountBalances(window, fs[..n]);
      assert fs[n] in fs;
    }
  }

  ghost predicate AlwaysLegal(window: int) {
    forall fs: seq<Frame> :: Framed(fs) ==>
      var a := ChargeAll(window, fs);
      forall i :: 0 <= i < |a.sent| ==> LegalIncrement(a.sent[i])
  }

  /** A window below 4 acknowledges every frame at once, an empty one with the illegal increment 0. */
  lemma AlwaysLegalIff(window: int)
    requires -MAX31 <= window < MAX31
    ensures AlwaysLegal(window) <==> window >= 4
  {
    if window >= 4 {
      forall fs: seq<Frame> | Framed(fs)
        ensures var a := ChargeAll(window, fs); forall i :: 0 <= i < |a.sent| ==> LegalIncrement(a.sent[i])
      {
        IncrementsLegal(window, fs);
      }
    } else {
      var fs := [Frame(1, DATA, 0, [])];
      assert fs[..0] == [] && Framed(fs) && Quarter(window) <= 0;
      assert ChargeAll(window, fs[..0]) == Account(0, []);
      var a := ChargeAll(window, fs);
      assert a == Charge(window, Account(0, []), fs[0]);
      assert a.sent == [0] && !LegalIncrement(a.sent[0]);
    }
  }

  // ---- the window update frame ----

  /** The 13 bytes of `send_window_update`. */
  function EncodeUpdate(inc: nat): Bytes
    requires inc < MAX31
  {
    [0, 0, 4, WINDOW_UPDATE, 0, 0, 0, 0, 0,
     inc / 0x100_0000 % 0x80, inc / 0x1_0000 % 0x100, inc / 0x100 % 0x100, inc % 0x100]
  }

  /** The increment `process_incoming_window_update` adds to the send quota, if any. It reads four bytes
      behind the frame header, whatever the frame's length; `behind` is what follows the frame in the
      socket buffer. */
  function DecodeUpdate(f: Frame, behind: Bytes): nat {
    var p := f.payload + behind;
    if f.id != 0 || |p| < 4 then 0 else Word(p) % MAX31
  }

  function Word(p: Bytes): nat
    requires |p| >= 4
  {
    var a: int, b: int, c: int, d: int := p[0], p[1], p[2], p[3];
    0x100_0000 * a + 0x1_0000 * b + 0x100 * c + d
  }

  /** The increment comes from the frame alone exactly when its payload has four bytes or its stream is
      not 0. */
  lemma UpdateStandsAloneIff(f: Frame)
    ensures (forall x: Bytes, y: Bytes :: DecodeUpdate(f, x) == DecodeUpdate(f, y)) <==> f.id != 0 || |f.payload| >= 4
  {
    if f.id == 0 && |f.payload| < 4 {
      var x: Bytes := [1, 1, 1, 1];
      var p := f.payload + x;
      assert p[3] == 1;
      NotMultiple(Word(p));
      assert f.payload + [] == f.payload;
      assert DecodeUpdate(f, x) != 0 && DecodeUpdate(f, []) == 0;
    } else {
      forall x: Bytes, y: Bytes ensures DecodeUpdate(f, x) == DecodeUpdate(f, y) {
        if f.id == 0 {
          assert (f.payload + x)[..4] == f.payload[..4] == (f.payload + y)[..4];
        }
      }
    }
  }

  lemma NotMultiple(n: nat)
    requires 0 < n < 2 * MAX31 && n != MAX31
    ensures n % MAX31 != 0
  {
  }

  /** An update sent is framed as one message and its increment is recovered exactly. */
  lemma UpdateRoundTrip(inc: nat, max: nat, behind: Bytes)
    requires 1 <= inc < MAX31 && max >= 13
    ensures
      var b := EncodeUpdate(inc);
      && WellFormed(H2Format(max), b)
      && FrameOf(b).kind == WINDOW_UPDATE && FrameOf(b).id == 0
      && DecodeUpdate(FrameOf(b), behind) == inc
  {
    var b := EncodeUpdate(inc);
    assert b[9..] == [b[9], b[10], b[11], b[12]];
    Digits(inc);
  }

  lemma Digits(inc: nat)
    requires inc < MAX31
    ensures 0x100_0000 * (inc / 0x100_0000 % 0x80) + 0x1_0000 * (inc / 0x1_0000 % 0x100) +
            0x100 * (inc / 0x100 % 0x100) + inc % 0x100 == inc
  {
  }

  // ---- the demultiplexer with its hash table ----

  const BUCKETS := 16

  /** hash_min for 4 bits: the upper bits of a multiplicative hash. */
  function Hash(id: nat): nat { (id * 0x61C8_8647) % 0x1_0000_0000 / 0x1000_0000 }

  datatype StreamBuffer = StreamBuffer(id: nat, chain: seq<Frame>)

  /** Bucket b holds exactly the streams of m that hash to b, each once. */
  ghost predicate BucketShows(bucket: seq<StreamBuffer>, b: nat, m: map<nat, seq<Frame>>) {
    && (forall i :: 0 <= i < |bucket| ==>
        Hash(bucket[i].id) == b && bucket[i].id in m && m[bucket[i].id] == bucket[i].chain)
    && (forall id :: id in m && Hash(id) == b ==> exists i :: 0 <= i < |bucket| && bucket[i].id == id)
    && (forall i, j :: 0 <= i < j < |bucket| ==> bucket[i].id != bucket[j].id)
  }

  ghost predicate TableShows(table: seq<seq<StreamBuffer>>, m: map<nat, seq<Frame>>) {
    |table| == BUCKETS && forall b :: 0 <= b < BUCKETS ==> BucketShows(table[b], b, m)
  }

  lemma OtherBucket(bucket: seq<StreamBuffer>, b: nat, m: map<nat, seq<Frame>>, m': map<nat, seq<Frame>>, id: nat)
    requires BucketShows(bucket, b, m) && Hash(id) != b
    requires forall k :: k != id ==> (k in m' <==> k in m) && (k in m ==> m'[k] == m[k])
    ensures BucketShows(bucket, b, m')
  {
  }

  lemma PushBucket(bucket: seq<StreamBuffer>, m: map<nat, seq<Frame>>, id: nat, chain: seq<Frame>)
    requires BucketShows(bucket, Hash(id), m) && id !in m
    ensures BucketShows([StreamBuffer(id, chain)] + bucket, Hash(id), m[id := chain])
  {
    var bucket' := [StreamBuffer(id, chain)] + bucket;
    forall k | k in m[id := chain] && Hash(k) == Hash(id)
      ensures exists i :: 0 <= i < |bucket'| && bucket'[i].id == k
    {
      if k == id {
        assert bucket'[0].id == k;
      } else {
        var i :| 0 <= i < |bucket| && bucket[i].id == k;
        assert bucket'[i + 1].id == k;
      }
    }
  }

  lemma ExtendBucket(bucket: seq<StreamBuffer>, m: map<nat, seq<Frame>>, i: nat, chain: seq<Frame>)
    requires i < |bucket| && BucketShows(bucket, Hash(bucket[i].id), m)
    ensures BucketShows(bucket[i := StreamBuffer(bucket[i].id, chain)], Hash(bucket[i].id), m[bucket[i].id := chain])
  {
    var id := bucket[i].id;
    var bucket' := bucket[i := StreamBuffer(id, chain)];
    forall k | k in m[id := chain] && Hash(k) == Hash(id)
      ensures exists j :: 0 <= j < |bucket'| && bucket'[j].id == k
    {
      var j :| 0 <= j < |bucket| && bucket[j].id == k;
      assert bucket'[j].id == k;
    }
  }

  lemma DeleteBucket(bucket: seq<StreamBuffer>, m: map<nat, seq<Frame>>, i: nat)
    requires i < |bucket| && BucketShows(bucket, Hash(bucket[i].id), m)
    ensures BucketShows(bucket[..i] + bucket[i + 1..], Hash(bucket[i].id), m - {bucket[i].id})
  {
    var id := bucket[i].id;
    var bucket' := bucket[..i] + bucket[i + 1..];
    assert forall j :: 0 <= j < |bucket'| ==> bucket'[j] == bucket[if j < i then j else j + 1];
    forall k | k in m - {id} && Hash(k) == Hash(id)
      ensures exists j :: 0 <= j < |bucket'| && bucket'[j].id == k
    {
      var j :| 0 <= j < |bucket| && bucket[j].id == k;
      assert bucket'[if j < i then j else j - 1].id == k;
    }
  }

  lemma Snoc(window: int, seen: seq<Frame>, f: Frame)
    ensures DispatchAll(seen + [f]) == Dispatch(DispatchAll(seen), f)
    ensures ChargeAll(window, seen + [f]) == Charge(window, ChargeAll(window, seen), f)
  {
    assert (seen + [f])[..|seen|] == seen;
  }

  class Demux {
    const window: int
    var table: seq<seq<StreamBuffer>>
    var delivered: seq<Delivery>
    var unacked: int
    var sent: seq<int>             // increments of the window updates queued
    ghost var seen: seq<Frame>

    /** The state is what the reference functions make of all frames seen. */
    ghost predicate Valid()
      reads this
    {
      && TableShows(table, DispatchAll(seen).open)
      && delivered == DispatchAll(seen).delivered
      && Account(unacked, sent) == ChargeAll(window, seen)
    }

    constructor (window: int)
      ensures Valid() && seen == [] && this.window == window
    {
      this.window := window;
      table := seq(BUCKETS, _ => []);
      delivered, unacked, sent, seen := [], 0, [], [];
    }

    /** `stream_lookup`: position in the stream's bucket, or -1. */
    method Lookup(id: nat, ghost m: map<nat, seq<Frame>>) returns (i: int)
      requires TableShows(table, m)
      ensures Hash(id) < BUCKETS && -1 <= i < |table[Hash(id)]|
      ensures i >= 0 ==> id in m && table[Hash(id)][i] == StreamBuffer(id, m[id])
      ensures i == -1 ==> id !in m
    {
      var bucket := table[Hash(id)];
      i := 0;
      while i < |bucket|
        invariant 0 <= i <= |bucket|
        invariant forall j :: 0 <= j < i ==> bucket[j].id != id
      {
        if bucket[i].id == id { return; }
        i := i + 1;
      }
      assert BucketShows(bucket, Hash(id), m);
      i := -1;
    }

    /** `add_skb_to_stream`: chain the frame to its stream, or start one. */
    method Add(f: Frame, ghost m: map<nat, seq<Frame>>)
      requires TableShows(table, m)
      modifies this`table
      ensures TableShows(table, m[f.id := Chain(m, f.id) + [f]])
    {
      var i := Lookup(f.id, m);
      var b := Hash(f.id);
      ghost var m' := m[f.id := Chain(m, f.id) + [f]];
      if i >= 0 {
        var x := table[b][i];
        ExtendBucket(table[b], m, i, x.chain + [f]);
        table := table[b := table[b][i := StreamBuffer(f.id, x.chain + [f])]];
      } else {
        PushBucket(table[b], m, f.id, [f]);
        assert [] + [f] == [f];
        table := table[b := [StreamBuffer(f.id, [f])] + table[b]];
      }
      forall c | 0 <= c < BUCKETS && c != b ensures BucketShows(table[c], c, m') {
        OtherBucket(old(table)[c], c, m, m', f.id);
      }
    }

    /** `flush_stream`: hand the chain up and delete the stream. */
    method Flush(id: nat, ghost m: map<nat, seq<Frame>>)
      requires TableShows(table, m) && id in m
      modifies this`table, this`delivered
      ensures TableShows(table, m - {id}) && delivered == old(delivered) + [Delivery(id, m[id])]
    {
      var i := Lookup(id, m);
      var b := Hash(id);
      delivered := delivered + [Delivery(id, table[b][i].chain)];
      DeleteBucket(table[b], m, i);
      table := table[b := table[b][..i] + table[b][i + 1..]];
      forall c | 0 <= c < BUCKETS && c != b ensures BucketShows(table[c], c, m - {id}) {
        OtherBucket(old(table)[c], c, m, m - {id}, id);
      }
    }

    /** Flow control bookkeeping for a DATA or RST_STREAM frame. */
    method Acknowledge(f: Frame)
      requires f.Counted()
      modifies this`unacked, this`sent
      ensures Account(unacked, sent) == Charge(window, old(Account(unacked, sent)), f)
    {
      unacked := unacked + |f.payload|;
      if unacked >= Quarter(window) {
        sent := sent + [unacked];
        unacked := 0;
      }
    }

    /** Keep a frame for the application, and hand its message up when it is the last one. */
    method Keep(f: Frame, ghost s: Streams)
      requires f.Kept() && TableShows(table, s.open) && delivered == s.delivered
      modifies this`table, this`delivered
      ensures TableShows(table, Dispatch(s, f).open) && delivered == Dispatch(s, f).delivered
    {
      ghost var m := s.open[f.id := Chain(s.open, f.id) + [f]];
      Add(f, s.open);
      if f.EndStream() || f.kind == RST_STREAM {
        Flush(f.id, m);
        assert m - {f.id} == s.open - {f.id};
      }
    }

    /** `handle_h2_frame`, for the frames of the connection in arrival order. */
    method Handle(f: Frame)
      requires Valid()
      modifies this
      ensures Valid() && seen == old(seen) + [f]
    {
      Snoc(window, seen, f);
      if f.kind == RST_STREAM || f.kind == DATA {
        Acknowledge(f);
      }
      if f.kind == RST_STREAM || f.kind == DATA || f.kind == HEADERS || f.kind == CONTINUATION {
        Keep(f, DispatchAll(seen));
      }
      seen := seen + [f];
    }
  }
}
