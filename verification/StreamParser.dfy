/** `__strp_recv` (rakaia/plain-tcp/strparser.c): the loop that turns the buffers of a byte stream
    into messages, and the length callback for the memcached-like protocol
    (rakaia/plain-tcp/rakaiasock.c). A chain of buffers is the sequence of its bytes. */
module StreamParser {
  import opened Framing

  /** `strp->skb_head` with the fields of its control block. data is every byte of the chain, the
      message starts at offset. */
  datatype Head = NoHead | Head(data: Bytes, offset: nat, fullLen: nat, accumLen: nat)

  /** A buffer that completes the message of length n goes on with the bytes after it. */
  lemma Completed(f: Format, rx: Rx, buf: Bytes, n: nat, m: Bytes, rest: Bytes)
    requires !rx.error && |rx.held| < n <= |rx.held| + |buf|
    requires n == (if rx.full > 0 then rx.full else f.length(rx.held + buf)) && (rx.full > 0 || n <= f.max)
    requires m == (rx.held + buf)[..n] && rest == (rx.held + buf)[n..]
    ensures Receive(f, rx, buf) == Receive(f, Rx(rx.msgs + [m], [], 0, false), rest)
  {
  }

  /** A buffer that leaves the message unfinished, its length known (n > 0) or not. */
  lemma Unfinished(f: Format, rx: Rx, buf: Bytes, data: Bytes, n: nat)
    requires !rx.error && buf != [] && data == rx.held + buf
    requires n == (if rx.full > 0 then rx.full else f.length(data)) && (rx.full > 0 || n <= f.max)
    requires n == 0 || |data| < n
    ensures Receive(f, rx, buf) == Rx(rx.msgs, data, n, false)
  {
  }

  lemma RestOf(held: Bytes, buf: Bytes, eaten: nat, n: nat)
    requires eaten <= |buf| && |held| <= n <= |held| + |buf| - eaten
    ensures (held + buf[eaten..])[n..] == buf[eaten + n - |held|..]
  {
  }

  class StrParser {
    const f: Format
    var head: Head
    var delivered: seq<Bytes>
    var aborted: bool

    ghost predicate Valid()
      reads this
    {
      && (aborted ==> head.NoHead?)
      && (head.Head? ==> head.offset <= |head.data| && head.accumLen == |head.data| - head.offset)
      && (head.Head? && head.fullLen > 0 ==> head.accumLen < head.fullLen)
    }

    ghost function State(): Rx
      requires Valid()
      reads this
    {
      if head.NoHead? then Rx(delivered, [], 0, aborted)
      else Rx(delivered, head.data[head.offset..], head.fullLen, aborted)
    }

    constructor (f: Format)
      ensures Valid() && State() == START && this.f == f
    {
      this.f := f;
      head, delivered, aborted := NoHead, [], false;
    }

    /** One buffer, of which the bytes from offset on are new. Everything is eaten unless the
        parser gives up. */
    method Recv(skb: Bytes, offset: nat) returns (eaten: nat)
      requires Valid() && !aborted && offset <= |skb|
      modifies this
      ensures Valid() && State() == Receive(f, old(State()), skb[offset..])
      ensures !aborted ==> eaten == |skb| - offset
    {
      var origSkb, origOffset, origLen := skb, offset, |skb| - offset;
      if head.Head? && origOffset > 0 {
        origSkb, origOffset := origSkb[origOffset..], 0;    // clone and pull
      }
      assert origSkb[origOffset..] == skb[offset..];
      eaten := 0;
      var more := true;
      while more && eaten < origLen
        invariant Valid() && eaten <= origLen == |origSkb| - origOffset
        invariant more ==> !aborted && (head.Head? ==> eaten == 0 && origOffset == 0)
        invariant more ==> Receive(f, State(), origSkb[origOffset + eaten..]) == Receive(f, old(State()), skb[offset..])
        invariant !more ==> State() == Receive(f, old(State()), skb[offset..]) && (!aborted ==> eaten == origLen)
        decreases origLen - eaten, more
      {
        var used;
        used, more := Iteration(origSkb, origOffset + eaten);
        eaten := eaten + used;
      }
    }

    /** Start a message in this buffer, or chain the buffer to the message in progress. */
    method Append(skb: Bytes, from: nat)
      requires Valid() && !aborted && from < |skb| && (head.Head? ==> from == 0)
      modifies this`head
      ensures head.Head? && head.offset <= |head.data|
      ensures head.data[head.offset..] == old(State()).held + skb[from..]
      ensures head.fullLen == old(State()).full && head.accumLen == |old(State()).held|
      ensures old(head).NoHead? ==> |head.data| - |skb| - head.offset <= 0
      ensures old(head).Head? ==> |head.data| - |skb| - head.offset == head.accumLen
    {
      if head.NoHead? {
        head := Head(skb, from, 0, 0);
      } else {
        head := head.(data := head.data + skb);
      }
    }

    /** The loop body, on the bytes of the buffer from `from` on. */
    method Iteration(skb: Bytes, from: nat) returns (used: nat, more: bool)
      requires Valid() && !aborted && from < |skb| && (head.Head? ==> from == 0)
      modifies this
      ensures Valid() && used <= |skb| - from
      ensures more ==> head.NoHead? && !aborted && used > 0
      ensures more ==> Receive(f, State(), skb[from + used..]) == Receive(f, old(State()), skb[from..])
      ensures !more ==> State() == Receive(f, old(State()), skb[from..]) && (!aborted ==> used == |skb| - from)
    {
      ghost var before, buf := State(), skb[from..];
      var candLen := |skb| - from;
      Append(skb, from);
      var msg := head.data[head.offset..];
      if head.fullLen == 0 {
        var len := f.length(msg);
        if len == 0 {
          Unfinished(f, before, buf, msg, 0);
          head := head.(accumLen := head.accumLen + candLen);
          return candLen, false;
        } else if len < 0 || len > f.max || len <= |head.data| - |skb| - head.offset {
          head, aborted := NoHead, true;
          return 0, false;
        }
        head := head.(fullLen := len);
      }
      var extra := head.accumLen + candLen - head.fullLen;
      if extra < 0 {
        Unfinished(f, before, buf, msg, head.fullLen);
        head := head.(accumLen := head.accumLen + candLen);
        return candLen, false;
      }
      used, more := candLen - extra, true;
      RestOf(before.held, skb, from, head.fullLen);
      Completed(f, before, buf, head.fullLen, msg[..head.fullLen], skb[from + used..]);
      delivered := delivered + [msg[..head.fullLen]];
      head := NoHead;
    }
  }

  // ---- the length callback ----

  const HEADER := 28                 // sizeof(struct binary_header_t)
  const CMD_SET := 1
  const U32 := 0x1_0000_0000

  function BigEndian(b: Bytes): nat {
    if b == [] then 0 else 256 * BigEndian(b[..|b| - 1]) + b[|b| - 1]
  }

  /** The C conversion of an unsigned 32-bit value to int. */
  function AsInt(u: nat): int
    requires u < U32
  {
    if u < 0x8000_0000 then u else u - U32
  }

  function KeyLen(b: Bytes): nat
    requires |b| >= HEADER
  {
    BigEndian(b[6..8])
  }

  function BodyLen(b: Bytes): nat
    requires |b| >= HEADER
  {
    BigEndian(b[12..16])
  }

  /** `rakaia_parse_func_strparser`: 0 without a whole header; the sum is taken in 32 bits. */
  function Length(b: Bytes): int {
    if |b| < HEADER then 0
    else if b[1] == CMD_SET then AsInt((HEADER + BodyLen(b)) % U32)
    else AsInt((HEADER + KeyLen(b) + b[8]) % U32)
  }

  function Memcached(max: nat): Format { Format(Length, HEADER, max) }

  lemma LooksAtHeader(max: nat)
    ensures HeaderOnly(Memcached(max))
  {
    forall a: Bytes, b: Bytes | HEADER <= |a|
      ensures Length(a + b) == Length(a)
    {
      assert (a + b)[6..8] == a[6..8] && (a + b)[12..16] == a[12..16];
    }
  }

  lemma {:induction false} BigEndianBound(b: Bytes)
    requires |b| <= 4
    ensures BigEndian(b) < (if |b| == 0 then 1 else if |b| == 1 then 0x100 else if |b| == 2 then 0x1_0000
                            else if |b| == 3 then 0x100_0000 else U32)
  {
    if b != [] { BigEndianBound(b[..|b| - 1]); }
  }

  /** A length below the header size, but not 0, comes exactly from a SET whose 32-bit sum wraps. */
  lemma ShortLengthIff(b: Bytes)
    requires |b| >= HEADER
    ensures 1 <= Length(b) < HEADER <==> b[1] == CMD_SET && BodyLen(b) > U32 - HEADER
  {
    BigEndianBound(b[6..8]);
    BigEndianBound(b[12..16]);
  }

  /** Along the messages of stream b, no SET announces a body within 27 bytes of 2^32. */
  ghost predicate NoWrap(max: nat, b: Bytes)
    decreases |b|
  {
    |b| >= HEADER ==>
      && !(b[1] == CMD_SET && BodyLen(b) > U32 - HEADER)
      && (0 < Length(b) <= max && Length(b) <= |b| ==> NoWrap(max, b[Length(b)..]))
  }

  lemma {:induction false} NoWrapIff(max: nat, b: Bytes)
    requires max >= HEADER
    ensures NoWrap(max, b) <==> !Undercut(Memcached(max), b)
    decreases |b|
  {
    if |b| >= HEADER {
      ShortLengthIff(b);
      if 0 < Length(b) <= max && Length(b) <= |b| {
        NoWrapIff(max, b[Length(b)..]);
      }
    }
  }

  /** What `__strp_recv` delivers, for every way of cutting the stream, is the one-shot parse,
      exactly when no SET header of the stream makes the 32-bit length wrap to 1..27; and exactly then
      no cutting leads to the branch that gives up on a length within the bytes held. */
  lemma SegmentationFreeIff(max: nat, b: Bytes)
    requires max >= HEADER
    ensures CuttingFree(Memcached(max), b) <==> NoWrap(max, b)
    ensures NeverUndershoots(Memcached(max), b) <==> NoWrap(max, b)
  {
    LooksAtHeader(max);
    CuttingFreeIff(Memcached(max), b);
    NoWrapIff(max, b);
  }

  /** Such a stream exists, whatever the maximum: one SET header with body length 2^32 - 1. */
  lemma WrappingSet(max: nat) returns (b: Bytes)
    requires max >= HEADER
    ensures |b| == HEADER && !CuttingFree(Memcached(max), b)
  {
    b := seq(HEADER, i => if i == 1 then CMD_SET else if 12 <= i < 16 then 255 else 0);
    assert b[12..16] == [255, 255, 255, 255];
    assert BodyLen(b) == U32 - 1 by {
      var w: Bytes := [255, 255, 255, 255];
      assert BigEndian(w[..1]) == 255;
      assert w[..2][..1] == w[..1] && BigEndian(w[..2]) == 0xFFFF;
      assert w[..3][..2] == w[..2] && BigEndian(w[..3]) == 0xFF_FFFF;
    }
    SegmentationFreeIff(max, b);
  }
}
