/** Three limits of the connection protocol of the pool server (bench/servers/common-linux-pool.c), each with
    the numbers of threads that meet it: a connection freed in use, a reference that is never released, and a
    completion left behind. */
module PoolLife {
  import opened Options
  import opened Framing
  import opened PoolConn
  import opened PoolWatch
  import opened PoolPair
  import opened PoolSteps
  import opened PoolRuns

  // ---- a connection with requests ----

  /** A fresh connection of which n requests have been read. */
  function Fresh(threads: nat, ios: nat, n: nat, b: Bytes): State {
    Init(threads, ios).(refcnt := 1 + n, loc := seq(n, _ => InRing), body := seq(n, _ => b), addr := seq(n, _ => 0))
  }

  lemma ReadsMore(threads: nat, ios: nat, n: nat, b: Bytes)
    requires threads >= 1
    ensures WithRequest(To(Fresh(threads, ios, n, b), 0, ORead).(owner := Some(0)), b)
         == To(Fresh(threads, ios, n + 1, b), 0, ORead).(owner := Some(0))
  {
  }

  lemma {:induction false} ReadsMany(reach: State -> bool, threads: nat, ios: nat, n: nat, b: Bytes)
    requires Closed(reach) && reach(Init(threads, ios)) && threads >= 1 && ios >= 1 && |b| == TOTAL
    ensures reach(To(Fresh(threads, ios, n, b), 0, ORead).(owner := Some(0)))
  {
    var h := Init(threads, ios);
    if n == 0 {
      assert Fresh(threads, ios, 0, b) == h;
      OwnsEmpty(reach, h, 0);
      Again(h.pcs, 0, OFlush(true), ORead);
      StartsReading(reach, To(h, 0, OFlush(true)).(owner := Some(0)), 0);
    } else {
      ReadsMany(reach, threads, ios, n - 1, b);
      Reads(reach, To(Fresh(threads, ios, n - 1, b), 0, ORead).(owner := Some(0)), 0, b);
      ReadsMore(threads, ios, n - 1, b);
    }
  }

  /** I/O thread 0 has read n requests and is about to look back. */
  lemma ReadAll(reach: State -> bool, threads: nat, ios: nat, n: nat, b: Bytes)
    requires Closed(reach) && reach(Init(threads, ios)) && threads >= 1 && ios >= 1 && |b| == TOTAL
    ensures reach(To(Fresh(threads, ios, n, b), 0, OAfter(false)))
  {
    var h := Fresh(threads, ios, n, b);
    ReadsMany(reach, threads, ios, n, b);
    Again(h.pcs, 0, ORead, OAfter(false));
    StopsOwning(reach, To(h, 0, ORead).(owner := Some(0)), 0);
  }

  /** One request has been read and worker t has pushed its completion; the I/O thread is idle. */
  lemma OnePushed(reach: State -> bool, threads: nat, ios: nat, t: nat, b: Bytes)
    requires Closed(reach) && reach(Init(threads, ios)) && 1 <= ios <= t < threads && |b| == TOTAL
    ensures reach(Pushed(Fresh(threads, ios, 1, b), t, 0))
  {
    var h := Fresh(threads, ios, 1, b);
    ReadAll(reach, threads, ios, 1, b);
    assert h.pcs[0 := OAfter(false)][0 := Idle] == h.pcs;
    LooksBack(reach, To(h, 0, OAfter(false)), 0, false);
    DoesJob(reach, h, t, 0);
  }

  // ---- freed in use ----

  /** The last reference is gone and some thread is still at work on the connection. */
  ghost predicate FreedInUse(s: State) { s.refcnt == 0 && exists t :: 0 <= t < |s.pcs| && !s.pcs[t].Idle? }

  /** Worker 1 stands at pc when the single I/O thread closes the connection and lets it go: about to load
      closed, to set io_pending, to acquire, or to take the inbox. */
  lemma FreesUnder(reach: State -> bool, threads: nat, b: Bytes, pc: PC) returns (s: State)
    requires Closed(reach) && reach(Init(threads, 1)) && threads >= 2 && |b| == TOTAL
    requires pc == WCheck || pc == WPend || pc == WTry || pc == WStale
    ensures reach(s) && s.refcnt == 0 && |s.pcs| == threads && s.pcs[1] == pc
  {
    var h := Pushed(Fresh(threads, 1, 1, b), 1, 0);
    OnePushed(reach, threads, 1, 1, b);
    assert h.inbox == [0];
    if pc == WPend || pc == WTry {
      Checks(reach, h, 1);
      h := To(h, 1, WPend);
    }
    if pc == WTry {
      Tells(reach, h, 1);
      h := To(h, 1, WTry).(pending := true);
    }
    ClosesAndFrees(reach, h, 0, 0);
    s := Freed(h, 0);
    if pc == WStale {
      Checks(reach, s, 1);
      s := To(s, 1, WStale);
    }
  }

  /** A worker can still be about to load closed, to set io_pending, to acquire or to take the inbox. */
  lemma FreedUnderWorker(threads: nat, pc: PC) returns (s: State)
    requires threads >= 2 && (pc == WCheck || pc == WPend || pc == WTry || pc == WStale)
    ensures ReachableWith(threads, 1, s) && s.refcnt == 0 && |s.pcs| == threads && s.pcs[1] == pc
  {
    ReachableClosed(threads, 1);
    s := FreesUnder(s => ReachableWith(threads, 1, s), threads, seq(TOTAL, _ => 0), pc);
  }

  /** Once the accept reference is gone, the I/O threads have nothing more to do with the connection. */
  ghost predicate GoneOk(s: State) {
    !s.accept ==> forall t :: 0 <= t < |s.pcs| && t < s.ios ==> s.pcs[t].Idle?
  }

  lemma StepGone(s: State, t: nat, a: Action)
    requires Inv(s) && GoneOk(s) && Enabled(s, t, a)
    ensures GoneOk(Do(s, t, a)) && Do(s, t, a).ios == s.ios && |Do(s, t, a).pcs| == |s.pcs|
  {
  }

  lemma {:induction false} RunGone(s: State, run: seq<Step>, s': State)
    requires Inv(s) && GoneOk(s) && Leads(s, run, s')
    ensures Inv(s') && GoneOk(s') && s'.ios == s.ios && |s'.pcs| == |s.pcs|
    decreases |run|
  {
    if run != [] {
      StepInv(s, run[0].t, run[0].a);
      StepGone(s, run[0].t, run[0].a);
      RunGone(Do(s, run[0].t, run[0].a), run[1..], s');
    }
  }

  /** A connection can be freed in use exactly with a single I/O thread and another thread beside it. */
  lemma FreedInUseIff(threads: nat, ios: nat)
    requires ios <= threads
    ensures (exists s :: ReachableWith(threads, ios, s) && FreedInUse(s)) <==> ios == 1 && threads >= 2
  {
    if ios == 1 && threads >= 2 {
      var s := FreedUnderWorker(threads, WCheck);
      assert FreedInUse(s);
    } else {
      forall s | ReachableWith(threads, ios, s) ensures !FreedInUse(s) {
        var run :| Leads(Init(threads, ios), run, s);
        InitInv(threads, ios);
        RunGone(Init(threads, ios), run, s);
        RefcountExact(s);
      }
    }
  }

  // ---- never released ----

  /** A worker has closed the connection. */
  ghost predicate Leaked(s: State) { !s.open && !s.retired }

  /** The accept reference of such a connection is never released, whatever follows. */
  lemma {:induction false} LeakedForever(s: State, run: seq<Step>, s': State)
    requires Inv(s) && Leaked(s) && Leads(s, run, s')
    ensures Leaked(s') && s'.accept && s'.refcnt >= 1
    decreases |run|
  {
    if run != [] {
      StepInv(s, run[0].t, run[0].a);
      StepLeaked(s, run[0].t, run[0].a);
      LeakedForever(Do(s, run[0].t, run[0].a), run[1..], s');
    }
  }

  lemma StepLeaked(s: State, t: nat, a: Action)
    requires Inv(s) && Leaked(s) && Enabled(s, t, a)
    ensures Leaked(Do(s, t, a))
  {
    ProgramClose(s, t, a);
    assert Owns(s.pcs[t]) ==> OwnerPC(s) == s.pcs[t];
  }

  lemma Leaks(reach: State -> bool, threads: nat, ios: nat, b: Bytes) returns (s: State)
    requires Closed(reach) && reach(Init(threads, ios)) && 1 <= ios < threads && |b| == TOTAL
    ensures reach(s) && Leaked(s)
  {
    var t := ios;
    var h := Pushed(Fresh(threads, ios, 1, b), t, 0);
    OnePushed(reach, threads, ios, t, b);
    assert h.inbox == [0];
    WorkerTells(reach, h, t);
    var h1 := To(h, t, WTry).(pending := true);
    WorkerDrains(reach, h1, t, 0);
    var h2 := To(h1, t, OQueue(false, [0]))
      .(owner := Some(t), pending := false, inbox := [], loc := h1.loc[0 := InHands(t)]);
    QueuesLast(reach, h2, t, 0);
    var h3 := To(h2, t, OFlush(false)).(resp := [0], loc := h2.loc[0 := InResp]);
    WorkerCloses(reach, h3, t, 0);
    var h4 := To(h3, t, ODiscard(Once)).(closed := true, resp := [], refcnt := h3.refcnt - 1, loc := h3.loc[0 := Gone]);
    WorkerShuts(reach, h4, t);
    s := To(h4, t, ORelease(Once)).(open := false, retired := false);
  }

  /** Without workers or without I/O threads, no worker closes anything. */
  ghost predicate ClosedByIo(s: State) {
    if s.ios == 0 then s.open && s.loc == [] && forall t :: 0 <= t < |s.pcs| ==> s.pcs[t] == Idle
    else |s.pcs| <= s.ios && (s.open || s.retired)
  }

  lemma {:induction false} RunClosedByIo(s: State, run: seq<Step>, s': State)
    requires ClosedByIo(s) && Leads(s, run, s')
    ensures ClosedByIo(s')
    decreases |run|
  {
    if run != [] {
      assert ClosedByIo(Do(s, run[0].t, run[0].a));
      RunClosedByIo(Do(s, run[0].t, run[0].a), run[1..], s');
    }
  }

  /** A connection can be closed without anybody left to release it exactly when there are workers beside the
      I/O threads. */
  lemma LeakIff(threads: nat, ios: nat)
    requires ios <= threads
    ensures (exists s :: ReachableWith(threads, ios, s) && Leaked(s)) <==> 1 <= ios < threads
  {
    if 1 <= ios < threads {
      ReachableClosed(threads, ios);
      var s := Leaks(s => ReachableWith(threads, ios, s), threads, ios, seq(TOTAL, _ => 0));
    } else {
      forall s | ReachableWith(threads, ios, s) ensures !Leaked(s) {
        var run :| Leads(Init(threads, ios), run, s);
        RunClosedByIo(Init(threads, ios), run, s);
      }
    }
  }

  // ---- left behind ----

  /** Worker t has pushed while I/O thread 1 is past its empty inbox; I/O thread 0 is about to look back. */
  lemma IoBusy(reach: State -> bool, threads: nat, ios: nat, t: nat, b: Bytes) returns (h: State)
    requires Closed(reach) && reach(Init(threads, ios)) && 2 <= ios <= t < threads && |b| == TOTAL
    ensures reach(h) && h == Pushed(To(To(Fresh(threads, ios, 1, b), 0, OAfter(false)), 1, OFlush(true))
      .(owner := Some(1)), t, 0)
  {
    var h0 := To(Fresh(threads, ios, 1, b), 0, OAfter(false));
    ReadAll(reach, threads, ios, 1, b);
    OwnsEmpty(reach, h0, 1);
    var h1 := To(h0, 1, OFlush(true)).(owner := Some(1));
    DoesJob(reach, h1, t, 0);
    h := Pushed(h1, t, 0);
  }

  /** The owner, an I/O thread past its empty inbox, gives up the EPOLLOUT that the worker has asked for. */
  lemma LeavesWithTwoIo(reach: State -> bool, threads: nat, ios: nat, b: Bytes) returns (s: State)
    requires Closed(reach) && reach(Init(threads, ios)) && 2 <= ios < threads && |b| == TOTAL
    ensures reach(s) && !Watched(s)
  {
    var t := ios;
    var h2 := IoBusy(reach, threads, ios, t, b);
    WorkerTells(reach, h2, t);
    var h3 := To(h2, t, WTry).(pending := true);
    BothGiveUp(reach, h3, 0, t);
    var h4 := h3.(pcs := h3.pcs[0 := Idle][t := Idle], pending := false, armed := true, out := true);
    Disarms(reach, h4, 1, true);
    s := To(h4, 1, ORead).(armed := false, out := false);
    assert forall u :: 0 <= u < |s.pcs| ==> !Minding(s.pcs[u]);
  }

  /** Worker t has drained its own completion and is about to send it; I/O thread 0 is about to look back. */
  lemma WorkerBusy(reach: State -> bool, threads: nat, ios: nat, t: nat, b: Bytes) returns (h: State)
    requires Closed(reach) && reach(Init(threads, ios)) && 1 <= ios <= t < threads && |b| == TOTAL
    ensures reach(h) && h == To(To(Fresh(threads, ios, 2, b), 0, OAfter(false)), t, OFlush(false))
      .(owner := Some(t), pushed := [0], resp := [0], loc := [InResp, InRing])
  {
    var h0 := To(Fresh(threads, ios, 2, b), 0, OAfter(false));
    ReadAll(reach, threads, ios, 2, b);
    DoesJob(reach, h0, t, 0);
    var h1 := Pushed(h0, t, 0);
    assert h1.inbox == [0] && h1.pushed == [0];
    WorkerTells(reach, h1, t);
    var h2 := To(h1, t, WTry).(pending := true);
    WorkerDrains(reach, h2, t, 0);
    var h3 := To(h2, t, OQueue(false, [0]))
      .(owner := Some(t), pending := false, inbox := [], loc := h2.loc[0 := InHands(t)]);
    QueuesLast(reach, h3, t, 0);
    h := To(h3, t, OFlush(false)).(resp := [0], loc := h3.loc[0 := InResp]);
    assert h.loc == [InResp, InRing];
    assert h.pcs == h0.pcs[t := OFlush(false)];
  }

  /** The owner is a worker that sends its own completion and then gives up EPOLLOUT. */
  lemma LeavesWithTwoWorkers(reach: State -> bool, threads: nat, ios: nat, b: Bytes) returns (s: State)
    requires Closed(reach) && reach(Init(threads, ios)) && 1 <= ios && ios + 2 <= threads && |b| == TOTAL
    ensures reach(s) && !Watched(s)
  {
    var t, u := ios, ios + 1;
    var h := WorkerBusy(reach, threads, ios, t, b);
    DoesJob(reach, h, u, 1);
    var h1 := Pushed(h, u, 1);
    WorkerTells(reach, h1, u);
    var h2 := To(h1, u, WTry).(pending := true);
    BothGiveUp(reach, h2, 0, u);
    var h3 := h2.(pcs := h2.pcs[0 := Idle][u := Idle], pending := false, armed := true, out := true);
    Flushes(reach, h3, t, 0);
    var h4 := SentOff(h3, 0);
    Disarms(reach, h4, t, false);
    s := To(h4, t, ORelease(Once)).(armed := false, out := false);
    assert forall v :: 0 <= v < |s.pcs| ==> !Minding(s.pcs[v]);
  }

  /** No completion is ever left unwatched. */
  ghost predicate NeverLeaves(threads: nat, ios: nat) {
    forall s :: ReachableWith(threads, ios, s) ==> Watched(s)
  }

  lemma FewWatch(threads: nat, ios: nat, s: State)
    requires (threads <= 2 || ios == 0 || ios >= threads) && ReachableWith(threads, ios, s)
    ensures Watched(s)
  {
    var h := Init(threads, ios);
    var run :| Leads(h, run, s);
    if threads <= 2 {
      InitInv(threads, ios);
      PairNotices(h, run, s);
    } else {
      RunOneKind(h, run, s);
    }
  }

  /** The pending flag and EPOLLOUT watch over every completion, on all runs, exactly with at most one worker and
      one I/O thread, or with only one kind of thread, which leaves nothing to watch. */
  lemma NeverLeavesIff(threads: nat, ios: nat)
    requires ios <= threads
    ensures NeverLeaves(threads, ios) <==> threads <= 2 || ios == 0 || ios == threads
  {
    if threads <= 2 || ios == 0 || ios == threads {
      forall s | ReachableWith(threads, ios, s) ensures Watched(s) { FewWatch(threads, ios, s); }
    } else {
      ReachableClosed(threads, ios);
      if ios >= 2 {
        var s := LeavesWithTwoIo(s => ReachableWith(threads, ios, s), threads, ios, seq(TOTAL, _ => 0));
      } else {
        var s := LeavesWithTwoWorkers(s => ReachableWith(threads, ios, s), threads, ios, seq(TOTAL, _ => 0));
      }
    }
  }
}
