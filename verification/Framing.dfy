/** Cutting a byte stream into messages, in one go and piece by piece: the specification behind
    `__strp_recv` (rakaia/plain-tcp/strparser.c, rakaia/grpc/strparser.c). */
module Framing {
  type Byte = b: int | 0 <= b < 256
  type Bytes = seq<Byte>

  /** A parse callback that needs `header` bytes, and the size limit. length is 0 while more bytes
      are needed, negative on error, else the length of the whole message. */
  datatype Format = Format(length: Bytes -> int, header: nat, max: nat)

  /** The callback looks at the header only. */
  ghost predicate HeaderOnly(f: Format) {
    && f.header > 0
    && (forall b: Bytes :: |b| < f.header ==> f.length(b) == 0)
    && (forall a: Bytes, b: Bytes {:trigger f.length(a + b)} :: f.header <= |a| ==> f.length(a + b) == f.length(a))
  }

  /** Messages cut so far, the bytes of the unfinished one, and the error that stopped it. */
  datatype Cut = Cut(msgs: seq<Bytes>, tail: Bytes, error: bool)

  // ---- one shot ----

  /** The reference: look at a whole stream at once. */
  function Parse(f: Format, b: Bytes): Cut
    decreases |b|
  {
    var n := f.length(b);
    if b == [] || n == 0 then Cut([], b, false)
    else if n < 0 || n > f.max then Cut([], [], true)
    else if n > |b| then Cut([], b, false)
    else Then(b[..n], Parse(f, b[n..]))
  }

  function Then(m: Bytes, c: Cut): Cut { c.(msgs := [m] + c.msgs) }

  // ---- piece by piece ----

  /** State between two buffers: delivered messages, bytes held, length once known, error. */
  datatype Rx = Rx(msgs: seq<Bytes>, held: Bytes, full: nat, error: bool)

  const START := Rx([], [], 0, false)

  /** What one buffer does. A length must reach beyond the bytes already held. */
  function Receive(f: Format, rx: Rx, buf: Bytes): Rx
    decreases |buf|
  {
    var data := rx.held + buf;
    var n := if rx.full > 0 then rx.full else f.length(data);
    if rx.error || buf == [] then rx
    else if n == 0 then rx.(held := data)
    else if rx.full == 0 && (n < 0 || n > f.max || n <= |rx.held|) then Rx(rx.msgs, [], 0, true)
    else if n > |data| then rx.(held := data, full := n)
    else if n <= |rx.held| then rx    // a known length exceeds the bytes held, so not reached
    else Receive(f, Rx(rx.msgs + [data[..n]], [], 0, false), data[n..])
  }

  function ReceiveAll(f: Format, rx: Rx, bufs: seq<Bytes>): Rx
    decreases |bufs|
  {
    if bufs == [] then rx else ReceiveAll(f, Receive(f, rx, bufs[0]), bufs[1..])
  }

  function Concat(bufs: seq<Bytes>): Bytes {
    if bufs == [] then [] else bufs[0] + Concat(bufs[1..])
  }

  /** Somewhere in the stream a message shorter than its own header begins. */
  ghost predicate Undercut(f: Format, b: Bytes)
    decreases |b|
  {
    var n := f.length(b);
    b != [] && 1 <= n <= f.max && (n < f.header || (n <= |b| && Undercut(f, b[n..])))
  }

  /** The pieces received so far agree with the one-shot parse. */
  ghost predicate Agrees(rx: Rx, c: Cut) {
    rx.msgs == c.msgs && rx.held == c.tail && rx.error == c.error
  }

  /** What is held is an unfinished message. */
  ghost predicate Resting(f: Format, rx: Rx) {
    && (rx.full > 0 ==> !rx.error && f.header <= |rx.held| < rx.full <= f.max && f.length(rx.held) == rx.full)
    && (rx.full == 0 ==> rx.held == [] || f.length(rx.held) == 0)
    && (rx.error ==> rx.held == [])
  }

  // ---- cutting does not matter ----

  lemma Assoc<T>(a: seq<T>, b: seq<T>, c: seq<T>)
    ensures (a + b) + c == a + (b + c)
  {
  }

  lemma Slices<T>(a: seq<T>, b: seq<T>, n: nat)
    requires n <= |a|
    ensures (a + b)[..n] == a[..n] && (a + b)[n..] == a[n..] + b
  {
  }

  lemma {:induction false} ParseAppend(f: Format, a: Bytes, b: Bytes)
    requires HeaderOnly(f)
    ensures
      var c := Parse(f, a);
      if c.error then Parse(f, a + b) == c
      else
        var d := Parse(f, c.tail + b);
        && Parse(f, a + b) == d.(msgs := c.msgs + d.msgs)
        && (Undercut(f, c.tail + b) ==> Undercut(f, a + b))
    decreases |a|
  {
    var n := f.length(a);
    if a != [] && 0 < n <= |a| && n <= f.max {
      assert f.length(a + b) == n;
      Slices(a, b, n);
      ParseAppend(f, a[n..], b);
      var c := Parse(f, a[n..]);
      if !c.error {
        var d := Parse(f, c.tail + b);
        Assoc([a[..n]], c.msgs, d.msgs);
      }
    } else if a != [] && (n < 0 || n > f.max) {
      assert f.length(a + b) == n;
    }
  }

  /** Delivered messages only accumulate. */
  lemma {:induction false} ReceivePrefix(f: Format, m: seq<Bytes>, rx: Rx, buf: Bytes)
    ensures Receive(f, rx.(msgs := m + rx.msgs), buf) == var r := Receive(f, rx, buf); r.(msgs := m + r.msgs)
    decreases |buf|
  {
    var data := rx.held + buf;
    var n := if rx.full > 0 then rx.full else f.length(data);
    if !rx.error && buf != [] && |rx.held| < n <= |data| && (rx.full > 0 || n <= f.max) {
      ReceivePrefix(f, m, Rx(rx.msgs + [data[..n]], [], 0, false), data[n..]);
      Assoc(m, rx.msgs, [data[..n]]);
    }
  }

  /** One buffer takes the receiver to where the one-shot parse of all bytes would be. */
  lemma {:induction false} ReceiveParses(f: Format, rx: Rx, buf: Bytes)
    requires HeaderOnly(f) && Resting(f, rx) && !rx.error && !Undercut(f, rx.held + buf)
    ensures
      var c, r := Parse(f, rx.held + buf), Receive(f, rx, buf);
      Resting(f, r) && Agrees(r, c.(msgs := rx.msgs + c.msgs))
    decreases |buf|
  {
    var data := rx.held + buf;
    if buf == [] {
      assert data == rx.held;
    } else {
      if f.header <= |rx.held| { assert f.length(data) == f.length(rx.held); }
      var n := f.length(data);
      assert rx.full > 0 ==> n == rx.full;
      if 0 < n <= |data| && n <= f.max {
        var rx1 := Rx(rx.msgs + [data[..n]], [], 0, false);
        assert rx1.held + data[n..] == data[n..];
        ReceiveParses(f, rx1, data[n..]);
        var c := Parse(f, data[n..]);
        Assoc(rx.msgs, [data[..n]], c.msgs);
      }
    }
  }

  lemma {:induction false} ReceiveAllParses(f: Format, rx: Rx, bufs: seq<Bytes>)
    requires HeaderOnly(f) && Resting(f, rx) && !rx.error && !Undercut(f, rx.held + Concat(bufs))
    ensures
      var c := Parse(f, rx.held + Concat(bufs));
      Agrees(ReceiveAll(f, rx, bufs), c.(msgs := rx.msgs + c.msgs))
    decreases |bufs|
  {
    if bufs == [] {
      assert rx.held + [] == rx.held;
      ReceiveParses(f, rx, []);
    } else {
      var rest := Concat(bufs[1..]);
      Assoc(rx.held, bufs[0], rest);
      ParseAppend(f, rx.held + bufs[0], rest);
      NotUndercutPrefix(f, rx.held + bufs[0], rest);
      ReceiveParses(f, rx, bufs[0]);
      var r := Receive(f, rx, bufs[0]);
      if r.error {
        ErrorStays(f, r, bufs[1..]);
      } else {
        ReceiveAllParses(f, r, bufs[1..]);
        var c, d := Parse(f, rx.held + bufs[0]), Parse(f, r.held + rest);
        Assoc(rx.msgs, c.msgs, d.msgs);
      }
    }
  }

  lemma {:induction false} NotUndercutPrefix(f: Format, a: Bytes, b: Bytes)
    requires HeaderOnly(f) && !Undercut(f, a + b)
    ensures !Undercut(f, a)
    decreases |a|
  {
    var n := f.length(a);
    if a != [] && 1 <= n <= f.max {
      assert f.length(a + b) == n;
      if n <= |a| {
        Slices(a, b, n);
        NotUndercutPrefix(f, a[n..], b);
      }
    }
  }

  lemma {:induction false} ErrorStays(f: Format, rx: Rx, bufs: seq<Bytes>)
    requires rx.error
    ensures ReceiveAll(f, rx, bufs) == rx
    decreases |bufs|
  {
    if bufs != [] { ErrorStays(f, rx, bufs[1..]); }
  }

  // ---- exactly when cutting does not matter ----

  ghost predicate CuttingFree(f: Format, b: Bytes) {
    forall bufs :: Concat(bufs) == b ==> Agrees(ReceiveAll(f, START, bufs), Parse(f, b))
  }

  /** With this buffer the receiver gives up on a length that does not reach beyond the bytes held. */
  ghost predicate Undershoots(f: Format, rx: Rx, buf: Bytes)
    decreases |buf|
  {
    var data := rx.held + buf;
    var n := if rx.full > 0 then rx.full else f.length(data);
    && !rx.error && buf != [] && 0 < n && (rx.full > 0 || n <= f.max)
    && if n <= |rx.held| then rx.full == 0
       else n <= |data| && Undershoots(f, Rx(rx.msgs + [data[..n]], [], 0, false), data[n..])
  }

  ghost predicate SomeUndershoots(f: Format, rx: Rx, bufs: seq<Bytes>)
    decreases |bufs|
  {
    bufs != [] && (Undershoots(f, rx, bufs[0]) || SomeUndershoots(f, Receive(f, rx, bufs[0]), bufs[1..]))
  }

  /** No way of cutting the stream makes the receiver give up on a length within the bytes held. */
  ghost predicate NeverUndershoots(f: Format, b: Bytes) {
    forall bufs :: Concat(bufs) == b ==> !SomeUndershoots(f, START, bufs)
  }

  lemma {:induction false} UndershootsAfter(f: Format, m: seq<Bytes>, rx: Rx, buf: Bytes)
    ensures Undershoots(f, rx.(msgs := m + rx.msgs), buf) == Undershoots(f, rx, buf)
    decreases |buf|
  {
    var data := rx.held + buf;
    var n := if rx.full > 0 then rx.full else f.length(data);
    if !rx.error && buf != [] && |rx.held| < n <= |data| && (rx.full > 0 || n <= f.max) {
      UndershootsAfter(f, m, Rx(rx.msgs + [data[..n]], [], 0, false), data[n..]);
      Assoc(m, rx.msgs, [data[..n]]);
    }
  }

  lemma {:induction false} NotUndershot(f: Format, rx: Rx, buf: Bytes)
    requires HeaderOnly(f) && Resting(f, rx) && !Undercut(f, rx.held + buf)
    ensures !Undershoots(f, rx, buf)
    decreases |buf|
  {
    var data := rx.held + buf;
    if !rx.error && buf != [] {
      if f.header <= |rx.held| { assert f.length(data) == f.length(rx.held); }
      var n := f.length(data);
      assert rx.full > 0 ==> n == rx.full;
      if 0 < n <= |data| && n <= f.max {
        var rx1 := Rx(rx.msgs + [data[..n]], [], 0, false);
        assert rx1.held + data[n..] == data[n..];
        NotUndershot(f, rx1, data[n..]);
      }
    }
  }

  lemma {:induction false} NoneUndershoots(f: Format, rx: Rx, bufs: seq<Bytes>)
    requires HeaderOnly(f) && Resting(f, rx) && !Undercut(f, rx.held + Concat(bufs))
    ensures !SomeUndershoots(f, rx, bufs)
    decreases |bufs|
  {
    if bufs != [] {
      var rest := Concat(bufs[1..]);
      Assoc(rx.held, bufs[0], rest);
      NotUndercutPrefix(f, rx.held + bufs[0], rest);
      NotUndershot(f, rx, bufs[0]);
      if rx.error {
        assert Receive(f, rx, bufs[0]) == rx;
        ErrorNeverUndershoots(f, rx, bufs[1..]);
      } else {
        ParseAppend(f, rx.held + bufs[0], rest);
        ReceiveParses(f, rx, bufs[0]);
        var r := Receive(f, rx, bufs[0]);
        if r.error {
          ErrorNeverUndershoots(f, r, bufs[1..]);
        } else {
          NoneUndershoots(f, r, bufs[1..]);
        }
      }
    }
  }

  lemma {:induction false} ErrorNeverUndershoots(f: Format, rx: Rx, bufs: seq<Bytes>)
    requires rx.error
    ensures !SomeUndershoots(f, rx, bufs)
    decreases |bufs|
  {
    if bufs != [] { ErrorNeverUndershoots(f, rx, bufs[1..]); }
  }

  /** Cut at i, the stream makes the receiver give up, in that branch, on messages that parse in one go. */
  ghost predicate Breaks(f: Format, b: Bytes, i: nat) {
    && i <= |b|
    && var rx := Receive(f, START, b[..i]);
       var r := Receive(f, rx, b[i..]);
       Undershoots(f, rx, b[i..]) && r.error && |r.msgs| < |Parse(f, b).msgs|
  }

  /** Splitting the header of an undercut message. */
  lemma HeaderSplit(f: Format, b: Bytes)
    requires HeaderOnly(f) && b != [] && 1 <= f.length(b) <= f.max && f.length(b) < f.header
    ensures Breaks(f, b, f.header - 1)
  {
    var i := f.header - 1;
    assert |b| >= f.header;
    assert [] + b[..i] == b[..i];
    assert b[..i] + b[i..] == b;
  }

  lemma BreaksLater(f: Format, b: Bytes, n: nat, j: nat)
    requires HeaderOnly(f) && n == f.length(b) && f.header <= n <= f.max && n <= |b| && Breaks(f, b[n..], j)
    ensures Breaks(f, b, n + j)
  {
    assert b[n + j..] == b[n..][j..];
    SkipMessage(f, b, n, j);
    ReceivePrefix(f, [b[..n]], Receive(f, START, b[n..][..j]), b[n + j..]);
    UndershootsAfter(f, [b[..n]], Receive(f, START, b[n..][..j]), b[n + j..]);
  }

  lemma {:induction false} UndercutBreaks(f: Format, b: Bytes) returns (i: nat)
    requires HeaderOnly(f) && Undercut(f, b)
    ensures Breaks(f, b, i)
    decreases |b|
  {
    var n := f.length(b);
    if n < f.header {
      i := f.header - 1;
      HeaderSplit(f, b);
    } else {
      var j := UndercutBreaks(f, b[n..]);
      BreaksLater(f, b, n, j);
      i := n + j;
    }
  }

  lemma SecondUndershoots(f: Format, x: Bytes, y: Bytes)
    requires Undershoots(f, Receive(f, START, x), y)
    ensures SomeUndershoots(f, START, [x, y])
  {
    var bufs: seq<Bytes> := [x, y];
    assert bufs[1..] == [y] && [y][0] == y;
    assert SomeUndershoots(f, Receive(f, START, x), [y]);
  }

  lemma TwoBuffers(f: Format, x: Bytes, y: Bytes)
    ensures Concat([x, y]) == x + y
    ensures ReceiveAll(f, START, [x, y]) == Receive(f, Receive(f, START, x), y)
  {
    var bufs: seq<Bytes> := [x, y];
    assert bufs[1..] == [y] && [y][1..] == [];
    assert Concat([y]) == y + [] == y;
    assert ReceiveAll(f, Receive(f, START, x), [y]) == Receive(f, Receive(f, START, x), y);
  }

  /** A buffer that begins with a whole message delivers it first. */
  lemma SkipMessage(f: Format, b: Bytes, n: nat, j: nat)
    requires HeaderOnly(f) && n == f.length(b) && 0 < f.header <= n <= f.max && n + j <= |b|
    ensures Receive(f, START, b[..n + j]) == var r := Receive(f, START, b[n..][..j]); r.(msgs := [b[..n]] + r.msgs)
  {
    var a := b[..n + j];
    assert a + b[n + j..] == b && f.length(a + b[n + j..]) == f.length(a);
    assert [] + a == a && a[..n] == b[..n] && a[n..] == b[n..][..j];
    ReceivePrefix(f, [b[..n]], START, b[n..][..j]);
    assert START.(msgs := [b[..n]] + START.msgs) == Rx([] + [b[..n]], [], 0, false);
  }

  /** The messages do not depend on how the stream is cut into buffers, exactly when no message of
      the stream is shorter than its own header. */
  lemma CuttingFreeIff(f: Format, b: Bytes)
    requires HeaderOnly(f)
    ensures CuttingFree(f, b) <==> !Undercut(f, b)
    ensures NeverUndershoots(f, b) <==> !Undercut(f, b)
  {
    assert START.held + b == b;
    if Undercut(f, b) {
      var i := UndercutBreaks(f, b);
      TwoBuffers(f, b[..i], b[i..]);
      assert b[..i] + b[i..] == b;
      SecondUndershoots(f, b[..i], b[i..]);
    } else {
      forall bufs | Concat(bufs) == b ensures !SomeUndershoots(f, START, bufs) { NoneUndershoots(f, START, bufs); }
      forall bufs | Concat(bufs) == b
        ensures Agrees(ReceiveAll(f, START, bufs), Parse(f, b))
      {
        assert START.held + b == b;
        ReceiveAllParses(f, START, bufs);
      }
    }
  }

  // ---- streams of well-formed messages ----

  ghost predicate WellFormed(f: Format, m: Bytes) {
    f.header <= |m| <= f.max && f.length(m) == |m|
  }

  lemma ParseOne(f: Format, m: Bytes, rest: Bytes)
    requires HeaderOnly(f) && WellFormed(f, m)
    ensures Parse(f, m + rest) == Then(m, Parse(f, rest))
    ensures Undercut(f, m + rest) <==> Undercut(f, rest)
  {
    Slices(m, rest, |m|);
    assert m[..|m|] == m && m[|m|..] + rest == rest;
    assert f.length(m + rest) == |m|;
  }

  /** Messages sent back to back are the messages parsed. */
  lemma {:induction false} ParseConcat(f: Format, ms: seq<Bytes>, t: Bytes)
    requires HeaderOnly(f) && forall m :: m in ms ==> WellFormed(f, m)
    ensures Parse(f, Concat(ms) + t) == var c := Parse(f, t); c.(msgs := ms + c.msgs)
    ensures Undercut(f, Concat(ms) + t) <==> Undercut(f, t)
    decreases |ms|
  {
    if ms == [] {
      assert Concat(ms) + t == t;
    } else {
      var m, rest := ms[0], Concat(ms[1..]) + t;
      Assoc(m, Concat(ms[1..]), t);
      assert m in ms;
      ParseOne(f, m, rest);
      ParseConcat(f, ms[1..], t);
      var c := Parse(f, t);
      Assoc([m], ms[1..], c.msgs);
      assert [m] + ms[1..] == ms;
    }
  }

  /** Any cutting of a stream of well-formed messages plus the beginning of one more delivers
      exactly those messages and holds exactly that beginning. */
  lemma StreamDelivered(f: Format, ms: seq<Bytes>, t: Bytes, bufs: seq<Bytes>)
    requires HeaderOnly(f) && (forall m :: m in ms ==> WellFormed(f, m))
    requires |t| < f.header || (f.header <= |t| < f.length(t) <= f.max)
    requires Concat(bufs) == Concat(ms) + t
    ensures var r := ReceiveAll(f, START, bufs); r.msgs == ms && r.held == t && !r.error
  {
    ParseConcat(f, ms, t);
    CuttingFreeIff(f, Concat(bufs));
    assert ms + [] == ms;
  }
}
