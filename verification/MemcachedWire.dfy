/** Requests of the memcached binary protocol as bytes: the layout of `struct binary_header_t`
    (rakaia/plain-tcp/rakaia.h), written by an encoder, and what the kernel's length callback and the pool
    server's parser read off it. */
module MemcachedWire {
  import opened Framing
  import opened StreamParser
  import P = PoolParser

  /** The fields in order; lengths are big-endian, and the id, vbucket, opaque (here correlation) and
      version are kept as the bytes they are. */
  datatype Header = Header(
    magic: Byte, opcode: Byte, id: Bytes, keyLen: nat, extraLen: Byte, dataType: Byte, vbucket: Bytes,
    bodyLen: nat, correlation: Bytes, version: Bytes)

  predicate Fits(h: Header) {
    |h.id| == 4 && h.keyLen < 0x1_0000 && |h.vbucket| == 2 && h.bodyLen < 0x1_0000_0000 && |h.correlation| == 4 &&
    |h.version| == 8
  }

  function Two(n: nat): Bytes
    requires n < 0x1_0000
  {
    [n / 0x100, n % 0x100]
  }

  function Four(n: nat): Bytes
    requires n < 0x1_0000_0000
  {
    [n / 0x100_0000, n / 0x1_0000 % 0x100, n / 0x100 % 0x100, n % 0x100]
  }

  /** The 28 bytes of a header. */
  function Encode(h: Header): (b: Bytes)
    requires Fits(h)
    ensures |b| == 28
  {
    [h.magic, h.opcode] + h.id + Two(h.keyLen) + [h.extraLen, h.dataType] + h.vbucket + Four(h.bodyLen) +
    h.correlation + h.version
  }

  lemma Slots(h: Header, rest: Bytes)
    requires Fits(h)
    ensures
      var b := Encode(h) + rest;
      && b[0] == h.magic && b[1] == h.opcode && b[2..6] == h.id && b[6..8] == Two(h.keyLen) && b[8] == h.extraLen
      && b[12..16] == Four(h.bodyLen)
  {
  }

  lemma BigEndianTwo(n: nat)
    requires n < 0x1_0000
    ensures BigEndian(Two(n)) == n
  {
    var b := Two(n);
    assert b[..1] == [n / 0x100] && [n / 0x100][..0] == [];
    assert BigEndian([n / 0x100]) == n / 0x100;
  }

  lemma BigEndianFour(n: nat)
    requires n < 0x1_0000_0000
    ensures BigEndian(Four(n)) == n
  {
    var b := Four(n);
    var c, d := n / 0x100_0000, n / 0x1_0000 % 0x100;
    assert b[..3] == [c, d, n / 0x100 % 0x100] && [c, d, n / 0x100 % 0x100][..2] == Two(n / 0x1_0000);
    BigEndianTwo(n / 0x1_0000);
    assert BigEndian(b[..3]) == 0x100 * (n / 0x1_0000) + n / 0x100 % 0x100;
    Digits(n);
  }

  lemma Digits(n: nat)
    ensures 0x100 * (0x100 * (n / 0x1_0000) + n / 0x100 % 0x100) + n % 0x100 == n
  {
  }

  // ---- what is read off a header ----

  lemma Lengths(h: Header, rest: Bytes)
    requires Fits(h)
    ensures var b := Encode(h) + rest; KeyLen(b) == h.keyLen && BodyLen(b) == h.bodyLen
  {
    Slots(h, rest);
    BigEndianTwo(h.keyLen);
    BigEndianFour(h.bodyLen);
  }

  /** The length callback: header, key and extra bytes, or header and body for a SET (opcode 1), where the
      32-bit sum is read as a signed number. */
  lemma LengthOfHeader(h: Header, rest: Bytes)
    requires Fits(h)
    ensures
      var n := 28 + if h.opcode == 1 then h.bodyLen else h.keyLen + h.extraLen;
      Length(Encode(h) + rest) == if n < 0x8000_0000 then n else n - 0x1_0000_0000
  {
    Slots(h, rest);
    Lengths(h, rest);
    Wrapped(28 + h.bodyLen);
  }

  lemma Wrapped(n: nat)
    requires n < U32 + 28
    ensures AsInt(n % U32) == if n < 0x8000_0000 then n else n - U32
  {
    if n >= U32 { assert n % U32 == n - U32; }
  }

  /** The server accepts a header with the request magic and one of the opcodes GET (0), SET (1) and GETK (12),
      whose body, for a SET, has room for the key and the extra bytes. */
  predicate Served(h: Header) {
    && h.magic == 0x80 && (h.opcode == 0 || h.opcode == 1 || h.opcode == 12)
    && (h.opcode == 1 ==> h.keyLen + h.extraLen <= h.bodyLen)
  }

  /** Bytes behind the header. */
  function DataLen(h: Header): nat {
    if h.opcode == 1 then h.bodyLen else h.keyLen + h.extraLen
  }

  lemma ServerReads(h: Header, rest: Bytes)
    requires Fits(h)
    ensures
      var b := Encode(h) + rest;
      && P.Id(b) == h.id
      && (P.ValidStart(b) && P.ValidBody(b) <==> Served(h))
      && (Served(h) ==> P.RequestLen(b) == 28 + DataLen(h))
  {
    Slots(h, rest);
    Lengths(h, rest);
  }

  // ---- streams of requests ----

  datatype Request = Request(header: Header, data: Bytes)

  predicate Sound(r: Request) {
    Fits(r.header) && Served(r.header) && |r.data| == DataLen(r.header)
  }

  predicate AllSound(rs: seq<Request>) { forall i :: 0 <= i < |rs| ==> Sound(rs[i]) }

  function Packet(r: Request): Bytes
    requires Sound(r)
  {
    Encode(r.header) + r.data
  }

  /** The requests as bytes, one by one. */
  function Packets(rs: seq<Request>): seq<Bytes>
    requires AllSound(rs)
  {
    if rs == [] then [] else [Packet(rs[0])] + Packets(rs[1..])
  }

  function Wire(rs: seq<Request>): Bytes
    requires AllSound(rs)
  {
    if rs == [] then [] else Packet(rs[0]) + Wire(rs[1..])
  }

  function RequestIds(rs: seq<Request>): (ids: seq<Bytes>)
    ensures |ids| == |rs|
  {
    seq(|rs|, i requires 0 <= i < |rs| => rs[i].header.id)
  }

  /** How many requests are whole within the first n bytes. */
  function Arrived(rs: seq<Request>, n: nat): (k: nat)
    requires AllSound(rs)
    ensures k <= |rs|
    decreases |rs|
  {
    if rs != [] && |Packet(rs[0])| <= n then 1 + Arrived(rs[1..], n - |Packet(rs[0])|) else 0
  }

  lemma PacketIsRequest(r: Request)
    requires Sound(r)
    ensures var b := Packet(r); P.Complete(b) && P.RequestLen(b) == |b| && P.Id(b) == r.header.id
    ensures P.Whole(Packet(r)) && P.Ids(Packet(r)) == [r.header.id]
  {
    ServerReads(r.header, r.data);
    P.OneRequest(Packet(r));
  }

  /** Part of a request is not a request. */
  lemma PartOfPacket(r: Request, n: nat)
    requires Sound(r) && n < |Packet(r)|
    ensures !P.Complete(Packet(r)[..n])
    ensures n >= 28 ==> P.ValidStart(Packet(r)[..n]) && P.ValidBody(Packet(r)[..n])
  {
    var b := Packet(r);
    PacketIsRequest(r);
    if n >= 28 {
      assert b == b[..n] + b[n..];
      P.HeaderFields(b[..n], b[n..]);
    }
  }

  /** A beginning of the stream holds the first request, or is part of it. */
  lemma WireSplit(rs: seq<Request>, b: Bytes)
    requires AllSound(rs) && rs != [] && b <= Wire(rs)
    ensures
      var p := Packet(rs[0]);
      if |p| <= |b| then b == p + b[|p|..] && b[|p|..] <= Wire(rs[1..]) else b == p[..|b|]
  {
    Beginning(Packet(rs[0]), Wire(rs[1..]), b);
  }

  lemma Beginning(a: Bytes, rest: Bytes, b: Bytes)
    requires b <= a + rest
    ensures if |a| <= |b| then b == a + b[|a|..] && b[|a|..] <= rest else b == a[..|b|]
  {
  }

  lemma IdsCons(r: Request, rest: Bytes)
    requires Sound(r)
    ensures P.Ids(Packet(r) + rest) == [r.header.id] + P.Ids(rest)
    ensures P.Whole(Packet(r) + rest) <==> P.Whole(rest)
  {
    PacketIsRequest(r);
    P.IdsAppend(Packet(r), rest);
  }

  lemma FirstId(rs: seq<Request>, k: nat)
    requires 0 < k <= |rs|
    ensures RequestIds(rs)[..k] == [rs[0].header.id] + RequestIds(rs[1..])[..k - 1]
  {
  }

  /** The server's reference takes, from any beginning b of the stream, the ids of the requests that are
      whole in it. */
  lemma {:induction false} IdsOnWire(rs: seq<Request>, b: Bytes)
    requires AllSound(rs) && b <= Wire(rs)
    ensures P.Ids(b) == RequestIds(rs)[..Arrived(rs, |b|)]
    decreases |rs|
  {
    if rs != [] {
      WireSplit(rs, b);
      var p := Packet(rs[0]);
      if |p| <= |b| {
        IdsOnWire(rs[1..], b[|p|..]);
        IdsCons(rs[0], b[|p|..]);
        FirstId(rs, Arrived(rs, |b|));
      } else {
        PartOfPacket(rs[0], |b|);
      }
    }
  }

  /** The stream begins with the header of its first request. */
  lemma HeadSound(rs: seq<Request>, b: Bytes)
    requires AllSound(rs) && 28 <= |b| && b <= Wire(rs)
    ensures P.ValidStart(b) && P.ValidBody(b)
  {
    var p := Packet(rs[0]);
    WireSplit(rs, b);
    if |p| <= |b| {
      PacketIsRequest(rs[0]);
      P.HeaderFields(p, b[|p|..]);
    } else {
      PartOfPacket(rs[0], |b|);
    }
  }

  /** Whole requests at the beginning of the stream begin with its first request. */
  lemma FirstTaken(rs: seq<Request>, done: Bytes)
    requires AllSound(rs) && rs != [] && done != [] && done <= Wire(rs) && P.Whole(done)
    ensures
      var p := Packet(rs[0]);
      |p| <= |done| && done == p + done[|p|..] && P.Whole(done[|p|..])
  {
    var p := Packet(rs[0]);
    WireSplit(rs, done);
    if |done| < |p| {
      PartOfPacket(rs[0], |done|);
    } else {
      IdsCons(rs[0], done[|p|..]);
    }
  }

  lemma Cancel(a: Bytes, done: Bytes, rest: Bytes, b: Bytes)
    requires (a + done) + rest <= a + b
    ensures done + rest <= b
  {
    Assoc(a, done, rest);
    var x := a + (done + rest);
    assert forall i :: 0 <= i < |done + rest| ==> (done + rest)[i] == x[|a| + i] == (a + b)[|a| + i] == b[i];
  }

  /** Behind whole requests of the stream there is no malformed header. */
  lemma {:induction false} NothingMalformed(rs: seq<Request>, done: Bytes, rest: Bytes)
    requires AllSound(rs) && done + rest <= Wire(rs) && P.Whole(done) && |rest| >= 28
    ensures P.ValidStart(rest) && P.ValidBody(rest)
    decreases |rs|
  {
    if done == [] {
      assert done + rest == rest;
      HeadSound(rs, rest);
    } else {
      var p := Packet(rs[0]);
      assert done <= Wire(rs);
      FirstTaken(rs, done);
      Cancel(p, done[|p|..], rest, Wire(rs[1..]));
      NothingMalformed(rs[1..], done[|p|..], rest);
    }
  }

  // ---- the kernel ----

  lemma {:induction false} PacketsOnWire(rs: seq<Request>)
    requires AllSound(rs)
    ensures Concat(Packets(rs)) == Wire(rs) && |Packets(rs)| == |rs|
    ensures forall i :: 0 <= i < |rs| ==> Packets(rs)[i] == Packet(rs[i])
    decreases |rs|
  {
    if rs != [] {
      PacketsOnWire(rs[1..]);
      assert Packets(rs)[1..] == Packets(rs[1..]);
    }
  }

  lemma PacketWellFormed(max: nat, r: Request)
    requires Sound(r) && |Packet(r)| <= max < 0x8000_0000
    ensures WellFormed(Memcached(max), Packet(r))
  {
    LengthOfHeader(r.header, r.data);
  }

  lemma PartAtEnd(r: Request, n: nat)
    requires Sound(r) && 28 <= n < |Packet(r)| < 0x8000_0000
    ensures Length(Packet(r)[..n]) == |Packet(r)|
  {
    LengthOfHeader(r.header, r.data[..n - 28]);
    assert Packet(r)[..n] == Encode(r.header) + r.data[..n - 28];
  }

  lemma {:induction false} WholeOnWire(rs: seq<Request>)
    requires AllSound(rs)
    ensures P.Whole(Wire(rs)) && P.Ids(Wire(rs)) == RequestIds(rs)
    decreases |rs|
  {
    if rs != [] {
      WholeOnWire(rs[1..]);
      IdsCons(rs[0], Wire(rs[1..]));
      FirstId(rs, |rs|);
      assert RequestIds(rs)[..|rs|] == RequestIds(rs);
      assert RequestIds(rs[1..])[..|rs| - 1] == RequestIds(rs[1..]);
    }
  }

  /** However a stream of requests, with the first n bytes of one more, is cut into buffers, the kernel
      delivers exactly the requests and holds those n bytes, and the ids that the server takes from it are the
      ids sent. Each request must have at most max bytes. */
  lemma SameRequests(max: nat, rs: seq<Request>, last: Request, n: nat, bufs: seq<Bytes>)
    requires AllSound(rs) && Sound(last) && n < |Packet(last)| <= max < 0x8000_0000
    requires forall i :: 0 <= i < |rs| ==> |Packet(rs[i])| <= max
    requires Concat(bufs) == Wire(rs) + Packet(last)[..n]
    ensures
      var r := ReceiveAll(Memcached(max), START, bufs);
      r.msgs == Packets(rs) && r.held == Packet(last)[..n] && !r.error
    ensures P.Ids(Concat(bufs)) == RequestIds(rs)
  {
    var t := Packet(last)[..n];
    KernelDelivers(max, rs, last, n, bufs);
    WholeOnWire(rs);
    PartOfPacket(last, n);
    P.IdsAppend(Wire(rs), t);
    assert P.Ids(t) == [];
  }

  lemma KernelDelivers(max: nat, rs: seq<Request>, last: Request, n: nat, bufs: seq<Bytes>)
    requires AllSound(rs) && Sound(last) && n < |Packet(last)| <= max < 0x8000_0000
    requires forall i :: 0 <= i < |rs| ==> |Packet(rs[i])| <= max
    requires Concat(bufs) == Wire(rs) + Packet(last)[..n]
    ensures
      var r := ReceiveAll(Memcached(max), START, bufs);
      r.msgs == Packets(rs) && r.held == Packet(last)[..n] && !r.error
  {
    var f := Memcached(max);
    LooksAtHeader(max);
    PacketsOnWire(rs);
    forall m | m in Packets(rs) ensures WellFormed(f, m) {
      var i :| 0 <= i < |rs| && Packets(rs)[i] == m;
      PacketWellFormed(max, rs[i]);
    }
    if n >= 28 { PartAtEnd(last, n); }
    StreamDelivered(f, Packets(rs), Packet(last)[..n], bufs);
  }

  // ---- the server ----

  /** However the reads of a connection come out, over any number of calls of `process_conn_reads`, the jobs
      are the ids of the requests sent, in order and as many as have wholly arrived, but for those dropped
      at the end of the stream. The connection is closed only at that end. */
  method Serve(rs: seq<Request>, events: seq<seq<P.Outcome>>) returns (c: P.Conn)
    requires AllSound(rs)
    ensures c.Bounds() && c.fed + c.wire == Wire(rs)
    ensures c.jobs + c.Dropped() == RequestIds(rs)[..Arrived(rs, |c.fed|)]
    ensures c.closed ==> c.Cut()
  {
    c := new P.Conn(Wire(rs), []);
    var i := 0;
    assert [] + Wire(rs) == Wire(rs);
    while i < |events| && !c.closed
      invariant 0 <= i <= |events| && c.Bounds() && fresh(c) && fresh(c.buf)
      invariant c.fed + c.wire == Wire(rs)
      invariant P.Ids(c.fed) == c.jobs + c.Dropped()
      invariant if c.closed then c.Malformed() || c.Cut() else c.Valid()
    {
      c.script := events[i];
      var _ := c.ProcessReads();
      i := i + 1;
    }
    ServedAll(rs, c);
  }

  lemma ServedAll(rs: seq<Request>, c: P.Conn)
    requires AllSound(rs) && c.fed + c.wire == Wire(rs)
    ensures P.Ids(c.fed) == RequestIds(rs)[..Arrived(rs, |c.fed|)] && !c.Malformed()
  {
    assert c.fed <= Wire(rs);
    IdsOnWire(rs, c.fed);
    if c.Malformed() {
      var rest := c.fed[|c.done|..];
      assert c.done + rest == c.fed;
      NothingMalformed(rs, c.done, rest);
    }
  }
}
