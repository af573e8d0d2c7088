/** The resumable request parser of the pool server (bench/servers/common-linux-pool.c): a 2048-byte
    buffer, a four-state machine, and non-blocking reads that may return any number of bytes or
    none. What recv returns is a script; the socket is the sequence of bytes still to come. */
module PoolParser {
  import opened Framing
  import opened StreamParser

  const BUFSIZE := 2048
  const MAGIC := 0x80
  const CMD_GET := 0
  const CMD_GETK := 0x0c

  // ---- requests ----

  function Extra(b: Bytes): nat
    requires |b| >= HEADER
  {
    b[8]
  }

  /** The id field, as its four bytes. */
  function Id(b: Bytes): Bytes
    requires |b| >= HEADER
  {
    b[2..6]
  }

  predicate ValidStart(b: Bytes)
    requires |b| >= HEADER
  {
    b[0] == MAGIC && (b[1] == CMD_SET || b[1] == CMD_GET || b[1] == CMD_GETK)
  }

  /** Bytes after extra and key; a SET whose body is shorter than extra and key is malformed. */
  predicate ValidBody(b: Bytes)
    requires |b| >= HEADER
  {
    b[1] == CMD_SET ==> BodyLen(b) >= KeyLen(b) + Extra(b)
  }

  function ValueLen(b: Bytes): nat
    requires |b| >= HEADER && ValidBody(b)
  {
    if b[1] == CMD_SET then BodyLen(b) - KeyLen(b) - Extra(b) else 0
  }

  function RequestLen(b: Bytes): nat
    requires |b| >= HEADER && ValidBody(b)
  {
    HEADER + Extra(b) + KeyLen(b) + ValueLen(b)
  }

  /** A complete well-formed request begins b. */
  predicate Complete(b: Bytes) {
    |b| >= HEADER && ValidStart(b) && ValidBody(b) && RequestLen(b) <= |b|
  }

  /** The reference: ids of the complete requests at the beginning of b. */
  function Ids(b: Bytes): seq<Bytes>
    decreases |b|
  {
    if Complete(b) then [Id(b)] + Ids(b[RequestLen(b)..]) else []
  }

  /** The server and the kernel cut a well-formed request at the same place, exactly when its
      length fits an int. */
  lemma SameBoundary(b: Bytes)
    requires |b| >= HEADER && ValidStart(b) && ValidBody(b)
    ensures Length(b) == RequestLen(b) <==> RequestLen(b) < 0x8000_0000
  {
    BigEndianBound(b[6..8]);
    BigEndianBound(b[12..16]);
  }

  lemma HeaderFields(a: Bytes, b: Bytes)
    requires |a| >= HEADER
    ensures KeyLen(a + b) == KeyLen(a) && BodyLen(a + b) == BodyLen(a) && Extra(a + b) == Extra(a) && Id(a + b) == Id(a)
    ensures ValidStart(a + b) == ValidStart(a) && ValidBody(a + b) == ValidBody(a)
  {
    assert (a + b)[6..8] == a[6..8] && (a + b)[12..16] == a[12..16] && (a + b)[2..6] == a[2..6];
  }

  /** A stream of complete well-formed requests. */
  predicate Whole(b: Bytes)
    decreases |b|
  {
    b == [] || (Complete(b) && Whole(b[RequestLen(b)..]))
  }

  lemma CompleteAppend(a: Bytes, b: Bytes)
    requires Complete(a)
    ensures
      var n := RequestLen(a);
      Complete(a + b) && Id(a + b) == Id(a) && RequestLen(a + b) == n && (a + b)[n..] == a[n..] + b
  {
    HeaderFields(a, b);
    Slices(a, b, RequestLen(a));
  }

  lemma {:induction false} WholeAppend(a: Bytes, b: Bytes)
    requires Whole(a)
    ensures Whole(a + b) <==> Whole(b)
    decreases |a|
  {
    if a == [] {
      assert a + b == b;
    } else {
      CompleteAppend(a, b);
      WholeAppend(a[RequestLen(a)..], b);
    }
  }

  lemma {:induction false} IdsJoin(a: Bytes, b: Bytes, ib: seq<Bytes>)
    requires Whole(a) && ib == Ids(b)
    ensures Ids(a + b) == Ids(a) + ib
    decreases |a|
  {
    if a == [] {
      assert a + b == b;
    } else {
      var rest := a[RequestLen(a)..];
      CompleteAppend(a, b);
      IdsJoin(rest, b, ib);
      Assoc([Id(a)], Ids(rest), ib);
    }
  }

  /** Whole requests in front only add their ids in front. */
  lemma IdsAppend(a: Bytes, b: Bytes)
    requires Whole(a)
    ensures Ids(a + b) == Ids(a) + Ids(b)
    ensures Whole(a + b) <==> Whole(b)
  {
    WholeAppend(a, b);
    IdsJoin(a, b, Ids(b));
  }

  lemma OneRequest(b: Bytes)
    requires |b| >= HEADER && ValidStart(b) && ValidBody(b) && RequestLen(b) == |b|
    ensures Whole(b) && Ids(b) == [Id(b)]
  {
    assert b[|b|..] == [];
    assert Ids(b[|b|..]) == [];
  }

  /** Every request of the stream is at most max bytes long. */
  predicate FitsAll(max: nat, b: Bytes)
    decreases |b|
  {
    Complete(b) ==> RequestLen(b) <= max && FitsAll(max, b[RequestLen(b)..])
  }

  /** On a stream of whole requests, the server takes the ids of exactly the messages that the
      kernel framing cuts. */
  lemma {:induction false} SameCuts(max: nat, b: Bytes)
    requires Whole(b) && FitsAll(max, b) && max < 0x8000_0000
    ensures
      var c, ids := Parse(Memcached(max), b), Ids(b);
      && c.tail == [] && !c.error && |c.msgs| == |ids|
      && forall i :: 0 <= i < |ids| ==> |c.msgs[i]| >= HEADER && Id(c.msgs[i]) == ids[i]
    decreases |b|
  {
    if b != [] {
      var n := RequestLen(b);
      SameBoundary(b);
      SameCuts(max, b[n..]);
      assert b[..n][2..6] == b[2..6];
    }
  }

  // ---- the parser ----

  /** What the next recv does: return up to n bytes, fail with EAGAIN or EINTR, or report the end of
      the stream or an error. */
  datatype Outcome = Data(n: nat) | Again | Intr | Eof | Failed

  /** What a filling of `room` free cells receives, and whether it runs into the end. */
  function Filled(room: nat, wire: Bytes, script: seq<Outcome>): (r: (Bytes, bool))
    ensures |r.0| <= room && r.0 <= wire
    decreases |script|
  {
    if room == 0 || script == [] then ([], false) else
    match script[0]
    case Data(n) =>
      var m := AtMost(n, room, |wire|);
      if m == 0 then ([], false) else
        var rest := Filled(room - m, wire[m..], script[1..]);
        (wire[..m] + rest.0, rest.1)
    case Again => ([], false)
    case Intr => Filled(room, wire, script[1..])
    case _ => ([], true)
  }

  function AtMost(n: nat, room: nat, left: nat): nat {
    var m := if n > room then room else n;
    if m > left then left else m
  }

  /** What has been seen and held grows by what a filling brings, part by part. */
  ghost predicate GoesOn(seen: Bytes, held: Bytes, next: (Bytes, bool), seen': Bytes, held': Bytes,
                         rest: (Bytes, bool))
  {
    rest.1 == next.1 && seen' + rest.0 == seen + next.0 && held' + rest.0 == held + next.0
  }

  lemma GoOn(seen: Bytes, held: Bytes, got: Bytes, next: (Bytes, bool), rest: (Bytes, bool))
    requires next == (got + rest.0, rest.1)
    ensures GoesOn(seen, held, next, seen + got, held + got, rest)
  {
    Assoc(seen, got, rest.0);
    Assoc(held, got, rest.0);
  }

  lemma MoveOne(held: Bytes, rest: Bytes, i: nat)
    requires i < |held| && rest == held[i..]
    ensures rest[0] == held[i] && rest[1..] == held[i + 1..] && held[..i] + [held[i]] == held[..i + 1]
  {
  }

  lemma Front(b: Bytes)
    ensures [] + b == b
  {
  }

  datatype ConnState = StateHeader | StateExtra | StateKey | StateValue

  class Conn {
    const buf: array<Byte>
    var bufHead: nat
    var bufTail: nat
    var state: ConnState
    var header: Bytes
    var pending: nat
    var jobs: seq<Bytes>          // ids of the requests enqueued
    var closed: bool

    var wire: Bytes               // bytes the peer will have sent
    var script: seq<Outcome>
    ghost var fed: Bytes          // every byte received
    ghost var ended: bool         // recv reported the end or an error
    ghost var done: Bytes         // the requests enqueued
    ghost var part: Bytes         // the bytes taken of the current request

    ghost predicate Bounds()
      reads this
    {
      buf.Length == BUFSIZE && bufHead <= bufTail <= BUFSIZE
    }

    ghost function Buffered(): Bytes
      requires Bounds()
      reads this, buf
    {
      buf[bufHead..bufTail]
    }

    /** The current request so far, by state. */
    ghost predicate PartOk()
      reads this
    {
      if state == StateHeader then part == [] && pending == 0
      else
        && |part| >= HEADER && part[..HEADER] == header && ValidStart(part)
        && (state == StateExtra ==> |part| + pending == HEADER + Extra(part))
        && (state == StateKey ==> |part| + pending == HEADER + Extra(part) + KeyLen(part))
        && (state == StateValue ==> ValidBody(part) && |part| + pending == RequestLen(part))
    }

    /** Every byte received is in an enqueued request, in the current one, or in the buffer. */
    ghost predicate Valid()
      reads this, buf
    {
      Bounds() && PartOk() && Whole(done) && Ids(done) == jobs && fed == done + part + Buffered()
    }

    constructor (wire: Bytes, script: seq<Outcome>)
      ensures Valid() && !closed && !ended && fed == [] && jobs == []
      ensures this.wire == wire && this.script == script && fresh(buf)
    {
      buf := new Byte[BUFSIZE](_ => 0);
      bufHead, bufTail, state, header, pending := 0, 0, StateHeader, [], 0;
      jobs, closed, this.wire, this.script := [], false, wire, script;
      fed, ended, done, part := [], false, [], [];
    }

    /** recv on the non-blocking socket. Without a script entry, or with nothing on the wire, it
        would block. */
    method Recv(max: nat) returns (got: Bytes, again: bool, over: bool)
      requires max > 0
      modifies this`wire, this`script, this`fed, this`ended
      ensures |got| <= max && old(wire) == got + wire && fed == old(fed) + got && fed + wire == old(fed + wire)
      ensures got != [] ==> !again && !over
      ensures !(again && over) && ended == (old(ended) || over)
      ensures !again ==> |script| < |old(script)|
      ensures |script| <= |old(script)|
      ensures Filled(max, old(wire), old(script)) ==
        if over || again then ([], over) else
          var rest := Filled(max - |got|, wire, script);
          (got + rest.0, rest.1)
    {
      got, again, over := [], false, false;
      if script == [] { again := true; return; }
      var o := script[0];
      script := script[1..];
      match o
      case Data(n) =>
        var m := AtMost(n, max, |wire|);
        if m == 0 {
          again := true;
        } else {
          got := wire[..m];
          wire := wire[m..];
          Assoc(fed, got, wire);
          fed := fed + got;
        }
      case Again => again := true;
      case Intr => Front(Filled(max, wire, script).0);
      case Eof => over, ended := true, true;
      case Failed => over, ended := true, true;
    }

    /** `compact_buffer`. */
    method Compact()
      requires Bounds()
      modifies this`bufHead, this`bufTail, buf
      ensures Bounds() && bufHead == 0 && Buffered() == old(Buffered())
    {
      var bytes := bufTail - bufHead;
      if bufHead == 0 { return; }
      ghost var held := Buffered();
      var i := 0;
      while i < bytes
        modifies buf
        invariant 0 <= i <= bytes
        invariant buf[..i] == held[..i] && buf[bufHead + i..bufTail] == held[i..]
      {
        MoveOne(held, buf[bufHead + i..bufTail], i);
        assert buf[bufHead + i] == buf[bufHead + i..bufTail][0];
        buf[i] := buf[bufHead + i];
        assert buf[..i + 1] == buf[..i] + [buf[i]];
        assert buf[bufHead + i + 1..bufTail] == buf[bufHead + i..bufTail][1..];
        i := i + 1;
      }
      bufHead, bufTail := 0, bytes;
    }

    /** Store received bytes behind the buffered ones. */
    method Store(got: Bytes)
      requires Bounds() && bufTail + |got| <= BUFSIZE
      modifies this`bufTail, buf
      ensures Bounds() && bufTail == old(bufTail) + |got| && Buffered() == old(Buffered()) + got
    {
      var i := 0;
      while i < |got|
        modifies buf
        invariant 0 <= i <= |got|
        invariant forall j :: 0 <= j < i ==> buf[bufTail + j] == got[j]
        invariant forall j :: 0 <= j < bufTail ==> buf[j] == old(buf[j])
      {
        buf[bufTail + i] := got[i];
        i := i + 1;
      }
      assert buf[bufTail..bufTail + |got|] == got;
      assert buf[bufHead..bufTail] == old(buf[bufHead..bufTail]);
      assert buf[bufHead..bufTail + |got|] == buf[bufHead..bufTail] + buf[bufTail..bufTail + |got|];
      bufTail := bufTail + |got|;
    }

    /** What the next filling of the buffer receives, and whether it runs into the end. */
    ghost function Filling(): (Bytes, bool)
      requires Bounds()
      reads this, buf
    {
      Filled(BUFSIZE - |Buffered()|, wire, script)
    }

    /** One recv into the free cells behind the buffered bytes. */
    method FillOnce() returns (again: bool, over: bool)
      requires Bounds() && bufHead == 0 && bufTail < BUFSIZE
      modifies this`bufTail, buf, this`wire, this`script, this`fed, this`ended
      ensures Bounds() && bufHead == 0 && fed + wire == old(fed + wire) && ended == (old(ended) || over)
      ensures over || again ==> old(Filling()) == ([], over) && fed == old(fed) && Buffered() == old(Buffered())
      ensures !over && !again ==> GoesOn(old(fed), old(Buffered()), old(Filling()), fed, Buffered(), Filling())
      ensures !over && !again ==> bufTail >= old(bufTail) && |script| < |old(script)|
    {
      ghost var seen, held, next := fed, Buffered(), Filling();
      var got;
      got, again, over := Recv(BUFSIZE - bufTail);
      if got != [] {
        Store(got);
      }
      if !again && !over {
        ghost var rest := Filling();
        assert next == (got + rest.0, rest.1);
        assert Buffered() == held + got;
        GoOn(seen, held, got, next, rest);
      }
    }

    /** `read_more_into_buffer`: 1 when the buffer may hold more, 0 when nothing came, -1 when it is
        over. */
    method ReadMore() returns (ret: int)
      requires Bounds()
      modifies this`bufHead, this`bufTail, buf, this`wire, this`script, this`fed, this`ended
      ensures Bounds() && -1 <= ret <= 1 && fed + wire == old(fed + wire)
      ensures fed == old(fed + Filling().0) && Buffered() == old(Buffered() + Filling().0)
      ensures (ret == -1 <==> old(Filling().1)) && ended == (old(ended) || ret == -1)
      ensures ret == 0 ==> |Buffered()| == |old(Buffered())|
      ensures ret == 1 && old(|Buffered()|) < BUFSIZE ==> |Buffered()| > |old(Buffered())|
    {
      Compact();
      var start := bufTail;         // read_any is whether bufTail has moved
      while bufTail < BUFSIZE
        invariant Bounds() && bufHead == 0 && start <= bufTail && ended == old(ended)
        invariant fed + wire == old(fed + wire) && Filling().1 == old(Filling().1)
        invariant fed + Filling().0 == old(fed + Filling().0)
        invariant Buffered() + Filling().0 == old(Buffered() + Filling().0)
        decreases |script|
      {
        ghost var seen, held := fed, Buffered();
        var again, over := FillOnce();
        if over || again {
          assert seen + [] == seen && held + [] == held;
          return if over then -1 else if bufTail > start then 1 else 0;
        }
      }
      assert Filling() == ([], false) && fed + [] == fed && Buffered() + [] == Buffered();
      return 1;
    }

    /** The next filling runs into the end, in search of a header. */
    ghost predicate Ends()
      requires Bounds()
      reads this, buf
    {
      state == StateHeader && |Buffered()| < HEADER && Filling().1
    }

    /** A filling in search of a header. */
    method Refill() returns (ret: int)
      requires Valid() && state == StateHeader
      modifies this`bufHead, this`bufTail, buf, this`wire, this`script, this`fed, this`ended
      ensures Valid() && -1 <= ret <= 1 && fed + wire == old(fed + wire)
      ensures fed == old(fed + Filling().0)
      ensures (ret == -1 <==> old(Filling().1)) && ended == (old(ended) || ret == -1)
      ensures ret == 0 ==> |Buffered()| == |old(Buffered())|
      ensures ret == 1 && old(|Buffered()|) < BUFSIZE ==> |Buffered()| > |old(Buffered())|
    {
      Assoc(done + part, Buffered(), Filling().0);
      ret := ReadMore();
    }

    /** Move the header out of the buffer. */
    method TakeHeader()
      requires Valid() && state == StateHeader && |Buffered()| >= HEADER
      modifies this`bufHead, this`header, this`part
      ensures Bounds() && |part| == HEADER && part == header && fed == done + part + Buffered()
    {
      header := buf[bufHead..bufHead + HEADER];
      ghost var rest := buf[bufHead + HEADER..bufTail];
      assert Buffered() == header + rest;
      assert done + [] == done;
      Assoc(done, header, rest);
      part := header;
      bufHead := bufHead + HEADER;
    }

    /** `read_header`: 1 with a header taken, 0 when it is not complete yet, -1 when it is over. */
    method ReadHeader() returns (ret: int)
      requires Valid() && state == StateHeader
      modifies this`bufHead, this`bufTail, buf, this`wire, this`script, this`fed, this`ended, this`header, this`part
      ensures Bounds() && -1 <= ret <= 1 && fed + wire == old(fed + wire)
      ensures ret == 1 ==> |part| == HEADER && part == header && fed == done + part + Buffered()
      ensures ret != 1 ==> Valid()
      ensures ret == 0 ==> |Buffered()| < HEADER
      ensures ended == (old(ended) || ret == -1)
      ensures old(Ends()) ==> ret == -1 && fed == old(fed + Filling().0)
    {
      while bufTail - bufHead < HEADER
        invariant Valid() && ended == old(ended) && fed + wire == old(fed + wire)
        invariant old(Ends()) ==> Ends() && fed == old(fed) && Filling() == old(Filling())
        decreases BUFSIZE - (bufTail - bufHead)
      {
        ret := Refill();
        if ret <= 0 { return; }
      }
      TakeHeader();
      ret := 1;
    }

    /** What does not change while the bytes of one state are consumed. */
    twostate predicate SameRequest()
      reads this
    {
      && done == old(done) && jobs == old(jobs) && state == old(state) && closed == old(closed) && header == old(header)
      && |part| + pending == old(|part| + pending) && old(part) <= part
    }

    /** Take up to `pending` buffered bytes into the current request. */
    method TakeBuffered()
      requires Bounds() && fed == done + part + Buffered() && bufHead < bufTail && pending > 0
      modifies this`bufHead, this`pending, this`part
      ensures Bounds() && fed == done + part + Buffered() && SameRequest() && pending < old(pending)
    {
      var available := bufTail - bufHead;
      var take := if available < pending then available else pending;
      ghost var x := buf[bufHead..bufHead + take];
      assert Buffered() == x + buf[bufHead + take..bufTail];
      Assoc(done + part, x, buf[bufHead + take..bufTail]);
      Assoc(done, part, x);
      part := part + x;
      bufHead := bufHead + take;
      pending := pending - take;
    }

    /** The inner loop of `consume_pending_bytes`: with an empty buffer, bytes go straight from the
        socket to scratch space. 1 after a short read or at the end, 0 and -1 as before. */
    method TakeFromSocket() returns (ret: int)
      requires Bounds() && fed == done + part + Buffered() && bufHead == bufTail && pending > 0
      modifies this`pending, this`part, this`wire, this`script, this`fed, this`ended
      ensures Bounds() && fed == done + part + Buffered() && SameRequest() && -1 <= ret <= 1
      ensures if ret == -1 then ended else ended == old(ended)
      ensures ret <= 0 ==> pending > 0
      ensures ret == 1 ==> |script| < |old(script)|
      ensures fed + wire == old(fed + wire)
    {
      while pending > 0
        invariant Bounds() && fed == done + part + Buffered() && SameRequest() && ended == old(ended)
        invariant pending > 0 || |script| < |old(script)|
        invariant |script| <= |old(script)| && fed + wire == old(fed + wire)
        decreases |script|
      {
        var chunk := if pending < 2048 then pending else 2048;
        var n, again, over := TakeOnce(chunk);
        if over { return -1; }
        if again { return 0; }
        if 0 < n < chunk { return 1; }
      }
      return 1;
    }

    /** One recv into scratch space. */
    method TakeOnce(chunk: nat) returns (n: nat, again: bool, over: bool)
      requires Bounds() && fed == done + part + Buffered() && bufHead == bufTail && 0 < chunk <= pending
      modifies this`pending, this`part, this`wire, this`script, this`fed, this`ended
      ensures fed == done + part + Buffered() && |part| == |old(part)| + n && pending == old(pending) - n
      ensures old(part) <= part && (over || again ==> n == 0)
      ensures ended == (old(ended) || over) && fed + wire == old(fed + wire)
      ensures |script| <= |old(script)| && (!again ==> |script| < |old(script)|)
    {
      ghost var none := Buffered();
      assert none == [] && done + part + none == done + part;
      var got;
      got, again, over := Recv(chunk);
      n := |got|;
      Assoc(done, part, got);
      part := part + got;
      pending := pending - n;
      assert done + part + none == done + part;
    }

    /** `consume_pending_bytes`: 1 when the bytes of this state are all taken, 0 when the socket has
        no more for now, -1 when it is over. */
    method ConsumePending() returns (ret: int)
      requires Bounds() && fed == done + part + Buffered()
      modifies this
      ensures Bounds() && fed == done + part + Buffered() && SameRequest() && -1 <= ret <= 1
      ensures if ret == -1 then ended else ended == old(ended)
      ensures ret == 1 ==> pending == 0
      ensures ret <= 0 ==> pending > 0 && Buffered() == []
      ensures fed + wire == old(fed + wire)
    {
      while pending > 0
        invariant Bounds() && fed == done + part + Buffered() && SameRequest() && ended == old(ended)
        invariant fed + wire == old(fed + wire)
        decreases |script|, pending
      {
        if bufTail - bufHead > 0 {
          TakeBuffered();
        } else {
          ret := TakeFromSocket();
          if ret <= 0 { return; }
        }
      }
      ret := 1;
    }

    /** The bytes after the enqueued requests begin with a malformed header. */
    ghost predicate Malformed()
      reads this
    {
      && Whole(done) && Ids(done) == jobs && done <= fed
      && var rest := fed[|done|..];
         |rest| >= HEADER && !(ValidStart(rest) && ValidBody(rest))
    }

    lemma BadHeader()
      requires Bounds() && Whole(done) && Ids(done) == jobs && fed == done + part + Buffered()
      requires |part| >= HEADER && !(ValidStart(part) && ValidBody(part))
      ensures Malformed()
    {
      Assoc(done, part, Buffered());
      assert (done + (part + Buffered()))[|done|..] == part + Buffered();
      HeaderFields(part, Buffered());
    }

    lemma HeaderOfPart()
      requires |header| == HEADER && header <= part
      ensures KeyLen(part) == KeyLen(header) && BodyLen(part) == BodyLen(header) && Extra(part) == Extra(header)
      ensures Id(part) == Id(header) && ValidStart(part) == ValidStart(header) && ValidBody(part) == ValidBody(header)
    {
      assert part == header + part[HEADER..];
      HeaderFields(header, part[HEADER..]);
    }

    /** STATE_VALUE once the request is complete. */
    method Enqueue()
      requires Valid() && state == StateValue && pending == 0
      modifies this`state, this`jobs, this`done, this`part
      ensures Valid() && state == StateHeader && done + part == old(done + part) && |jobs| == |old(jobs)| + 1
    {
      HeaderOfPart();
      OneRequest(part);
      IdsAppend(done, part);
      jobs := jobs + [Id(header)];
      done, part := done + part, [];
      assert done + [] == done;
      state := StateHeader;
    }

    /** STATE_KEY once the key has been taken. */
    method CheckBody() returns (ok: bool)
      requires Valid() && state == StateKey && pending == 0
      modifies this`state, this`pending, this`closed
      ensures ok ==> Valid() && closed == old(closed) && state == StateValue
      ensures !ok ==> closed && Malformed()
    {
      HeaderOfPart();
      if !ValidBody(header) {
        closed := true;
        BadHeader();
        return false;
      }
      pending, state := ValueLen(header), StateValue;
      return true;
    }

    /** The state whose bytes have just been taken leads to the next one. */
    method NextState() returns (ok: bool, queued: bool)
      requires Valid() && state != StateHeader && pending == 0
      modifies this`state, this`pending, this`jobs, this`done, this`part, this`closed
      ensures Bounds() && done + part == old(done + part)
      ensures ok ==> Valid() && closed == old(closed) && Rank(state) < Rank(old(state))
      ensures !ok ==> closed && !queued && Malformed()
      ensures |jobs| == |old(jobs)| + if queued then 1 else 0
    {
      ok, queued := true, false;
      if state == StateExtra {
        HeaderOfPart();
        pending, state := KeyLen(header), StateKey;
      } else if state == StateKey {
        ok := CheckBody();
      } else {
        Enqueue();
        queued := true;
      }
    }

    /** STATE_HEADER once a header has been taken. */
    method CheckHeader() returns (ok: bool)
      requires Bounds() && Whole(done) && Ids(done) == jobs && state == StateHeader && pending == 0
      requires |part| == HEADER && part == header && fed == done + part + Buffered()
      modifies this`state, this`pending, this`closed
      ensures ok ==> Valid() && closed == old(closed)
      ensures !ok ==> closed && Malformed()
    {
      if !ValidStart(header) {
        closed := true;
        BadHeader();
        return false;
      }
      pending, state := header[8], StateExtra;
      return true;
    }

    /** The current request needs bytes that have not come yet. */
    ghost predicate Starved()
      requires Bounds()
      reads this, buf
    {
      if state == StateHeader then |Buffered()| < HEADER else pending > 0 && Buffered() == []
    }

    /** The end was reported while filling the buffer in search of a header, or while the bytes of a
        request were awaited. */
    ghost predicate Cut()
      reads this, buf
    {
      ended && Valid() && (state == StateHeader || (pending > 0 && Buffered() == []))
    }

    /** Close at the end of the stream. */
    method Close()
      requires Cut()
      modifies this`closed
      ensures Cut() && closed
    {
      closed := true;
    }

    /** STATE_HEADER. */
    method AdvanceHeader() returns (more: bool)
      requires Valid() && !closed && state == StateHeader
      modifies this, buf
      ensures Bounds() && fed + wire == old(fed + wire) && jobs == old(jobs)
      ensures !closed ==> Valid() && ended == old(ended)
      ensures closed ==> !more && (Malformed() || Cut())
      ensures more ==> |done + part| > |old(done + part)|
      ensures !more && !closed ==> Starved()
      ensures old(Ends()) ==> closed && fed == old(fed + Filling().0)
    {
      more := false;
      var ret := ReadHeader();
      if ret == 1 {
        more := CheckHeader();
      } else if ret < 0 {
        Close();
      }
    }

    /** The other states: take their bytes, then go to the next. */
    method AdvanceBody() returns (more: bool, queued: bool)
      requires Valid() && !closed && state != StateHeader
      modifies this, buf
      ensures Bounds() && fed + wire == old(fed + wire)
      ensures !closed ==> Valid() && ended == old(ended)
      ensures closed ==> !more && (Malformed() || Cut())
      ensures more ==>
          |done + part| > |old(done + part)| || (|done + part| == |old(done + part)| && Rank(state) < Rank(old(state)))
      ensures !more && !closed ==> Starved()
      ensures |jobs| == |old(jobs)| + if queued then 1 else 0
    {
      more, queued := false, false;
      ghost var before := part;
      var ret := ConsumePending();
      assert part == before + part[|before|..];
      HeaderFields(before, part[|before|..]);
      assert PartOk();
      if ret == 1 {
        more, queued := NextState();
      } else if ret < 0 {
        Close();
      }
    }

    /** One pass through the switch: take the bytes of the current state, then go to the next. */
    method Advance() returns (more: bool, queued: bool)
      requires Valid() && !closed
      modifies this, buf
      ensures Bounds() && fed + wire == old(fed + wire)
      ensures !closed ==> Valid() && ended == old(ended)
      ensures closed ==> !more && (Malformed() || Cut())
      ensures more ==>
          |done + part| > |old(done + part)| || (|done + part| == |old(done + part)| && Rank(state) < Rank(old(state)))
      ensures !more && !closed ==> Starved()
      ensures |jobs| == |old(jobs)| + if queued then 1 else 0
      ensures old(Ends()) ==> closed && jobs == old(jobs) && fed == old(fed + Filling().0)
    {
      if state == StateHeader {
        more := AdvanceHeader();
        queued := false;
      } else {
        more, queued := AdvanceBody();
      }
    }

    /** Complete requests received but left in the buffer when the connection was closed at the end. */
    ghost function Dropped(): seq<Bytes>
      requires Bounds()
      reads this, buf
    {
      if closed && !Malformed() && state == StateHeader then Ids(Buffered()) else []
    }

    /** A filling that runs into the end loses a request exactly if one is complete then. */
    lemma AtTheEnd()
      requires Valid()
      ensures Ends() ==> (jobs == Ids(fed + Filling().0) <==> !Complete(Buffered() + Filling().0))
    {
      if Ends() {
        Assoc(done + part, Buffered(), Filling().0);
        assert done + part == done;
        IdsAppend(done, Buffered() + Filling().0);
      }
    }

    /** `process_conn_reads`: whatever the reads returned, the complete requests received are those
        enqueued and those dropped, in order. They are all enqueued unless the end is reported in a filling
        that has received a complete request. */
    method ProcessReads() returns (queuedAny: bool)
      requires Valid() && !closed
      modifies this, buf
      ensures Bounds() && Ids(fed) == jobs + Dropped() && fed + wire == old(fed + wire)
      ensures jobs == Ids(fed) <==> !(closed && !Malformed() && state == StateHeader && Complete(Buffered()))
      ensures !closed ==> Valid() && ended == old(ended)
      ensures closed ==> !queuedAny && (Malformed() || Cut())
      ensures !closed ==> (queuedAny <==> |jobs| > |old(jobs)|)
      ensures old(Ends()) ==> closed && jobs == old(jobs) && fed == old(fed + Filling().0)
      ensures old(Ends()) ==> (jobs == Ids(fed) <==> !Complete(old(Buffered() + Filling().0)))
    {
      AtTheEnd();
      queuedAny := false;
      var more, queued := true, false;
      while more
        invariant Bounds() && fed + wire == old(fed + wire)
        invariant !closed ==> Valid() && ended == old(ended)
        invariant more ==> !closed
        invariant !more && !closed ==> Starved()
        invariant closed ==> Malformed() || Cut()
        invariant |jobs| >= |old(jobs)| && (queuedAny <==> |jobs| > |old(jobs)|)
        invariant old(Ends()) ==>
          if more then Ends() && jobs == old(jobs) && fed == old(fed) && Filling() == old(Filling())
          else closed && jobs == old(jobs) && fed == old(fed + Filling().0)
        decreases more, |fed| + |wire| - |done + part|, Rank(state)
      {
        more, queued := Advance();
        if queued { queuedAny := true; }
      }
      if closed { queuedAny := false; }
      Finished();
    }

    /** All complete requests received are enqueued or dropped. */
    lemma Finished()
      requires Bounds()
      requires if closed then Malformed() || Cut() else Valid() && Starved()
      ensures Ids(fed) == jobs + Dropped()
    {
      var rest := fed[|done|..];
      if closed && Malformed() {
        IdsAppend(done, rest);
        assert done + rest == fed && jobs + [] == jobs;
      } else {
        IdsAppend(done, part + Buffered());
        Assoc(done, part, Buffered());
        if state == StateHeader {
          assert part + Buffered() == Buffered();
        } else {
          assert part + Buffered() == part;
        }
      }
    }
  }

  lemma FillsWith(b: Bytes)
    requires 0 < |b| < BUFSIZE
    ensures Filled(BUFSIZE, b, [Data(|b|), Eof]) == (b, true)
  {
    var script := [Data(|b|), Eof];
    assert script[1..] == [Eof] && b[..|b|] + [] == b;
    assert Filled(BUFSIZE - |b|, b[|b|..], [Eof]) == ([], true);
  }

  /** A request received in the filling that runs into the end is lost: for every request that leaves room
      in the buffer, the connection is closed with no job. */
  method DropsRequest(b: Bytes) returns (jobs: seq<Bytes>)
    requires Complete(b) && RequestLen(b) == |b| < BUFSIZE
    ensures Ids(b) == [Id(b)] && jobs == []
  {
    var c := new Conn(b, [Data(|b|), Eof]);
    assert c.Ends() by { FillsWith(b); }
    jobs := LastCall(c);
    OneRequest(b);
  }

  /** A call that runs into the end while it looks for a header enqueues nothing. */
  method LastCall(c: Conn) returns (jobs: seq<Bytes>)
    requires c.Valid() && !c.closed && c.Ends()
    modifies c, c.buf
    ensures jobs == c.jobs == old(c.jobs)
  {
    var _ := c.ProcessReads();
    jobs := c.jobs;
  }

  function Rank(s: ConnState): nat {
    match s
    case StateExtra => 3
    case StateKey => 2
    case StateValue => 1
    case StateHeader => 0
  }
}
