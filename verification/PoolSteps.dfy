/** Pieces of runs of the connection protocol of the pool server (bench/servers/common-linux-pool.c). */
module PoolSteps {
  import opened Options
  import opened Framing
  import opened PoolConn
  import opened PoolWatch

  // ---- sets of states that no step leaves ----

  /** Thread t takes s to s'. */
  ghost predicate Takes(s: State, t: nat, a: Action, s': State) { Enabled(s, t, a) && Do(s, t, a) == s' }

  ghost predicate Closed(reach: State -> bool) {
    forall s, t, a, s' :: reach(s) && Takes(s, t, a, s') ==> reach(s')
  }

  ghost predicate ReachableWith(threads: nat, ios: nat, s: State) {
    exists run :: Leads(Init(threads, ios), run, s)
  }

  lemma {:induction false} OneMore(s: State, run: seq<Step>, m: State, t: nat, a: Action)
    requires Leads(s, run, m) && Enabled(m, t, a)
    ensures Leads(s, run + [Step(t, a)], Do(m, t, a))
    decreases |run|
  {
    var run' := run + [Step(t, a)];
    if run == [] {
      assert run'[1..] == [] && Leads(Do(m, t, a), [], Do(m, t, a));
    } else {
      OneMore(Do(s, run[0].t, run[0].a), run[1..], m, t, a);
      assert run'[0] == run[0] && run'[1..] == run[1..] + [Step(t, a)];
    }
  }

  lemma ReachableClosed(threads: nat, ios: nat)
    ensures Closed(s => ReachableWith(threads, ios, s))
    ensures ReachableWith(threads, ios, Init(threads, ios))
  {
    assert Leads(Init(threads, ios), [], Init(threads, ios));
    forall s, t, a, s' | ReachableWith(threads, ios, s) && Takes(s, t, a, s') ensures ReachableWith(threads, ios, s') {
      var run :| Leads(Init(threads, ios), run, s);
      OneMore(Init(threads, ios), run, s, t, a);
    }
  }

  // ---- pieces of runs ----

  /** Thread t may go on from pc in h, which is in reach. */
  ghost predicate At(reach: State -> bool, h: State, t: nat, pc: PC) {
    Closed(reach) && reach(h) && t < |h.pcs| && h.pcs[t] == pc
  }

  /** h with thread t at pc. */
  function To(h: State, t: nat, pc: PC): State
    requires t < |h.pcs|
  {
    h.(pcs := h.pcs[t := pc])
  }


  /** h after effect e of thread t, which is then at pc', is in reach. */
  ghost predicate Lands(reach: State -> bool, h: State, t: nat, e: Effect, pc': PC) {
    t < |h.pcs| && reach(Apply(h, t, e).(pcs := h.pcs[t := pc']))
  }

  lemma Goes(reach: State -> bool, h: State, t: nat, a: Action)
    requires Closed(reach) && reach(h) && Enabled(h, t, a)
    ensures Lands(reach, h, t, Program(h, t, a).0, Program(h, t, a).1)
  {
    assert Takes(h, t, a, Do(h, t, a));
  }

  // Each effect, by itself.

  lemma DoesNothing(reach: State -> bool, h: State, t: nat, pc': PC)
    requires Lands(reach, h, t, Nothing, pc')
    ensures reach(To(h, t, pc'))
  {
    assert Apply(h, t, Nothing) == h;
  }

  lemma SetsPending(reach: State -> bool, h: State, t: nat, pc': PC, on: bool)
    requires Lands(reach, h, t, Pending(on), pc')
    ensures reach(To(h, t, pc').(pending := on))
  {
    assert Apply(h, t, Pending(on)) == h.(pending := on);
  }

  lemma Owned(reach: State -> bool, h: State, t: nat, pc': PC)
    requires Lands(reach, h, t, Own, pc')
    ensures reach(To(h, t, pc').(owner := Some(t)))
  {
    assert Apply(h, t, Own) == h.(owner := Some(t));
  }

  lemma Disowned(reach: State -> bool, h: State, t: nat, pc': PC)
    requires Lands(reach, h, t, Disown, pc')
    ensures reach(To(h, t, pc').(owner := None))
  {
    assert Apply(h, t, Disown) == h.(owner := None);
  }

  lemma SetsArmed(reach: State -> bool, h: State, t: nat, pc': PC, on: bool)
    requires Lands(reach, h, t, SetArmed(on), pc')
    ensures reach(To(h, t, pc').(armed := on))
  {
    assert Apply(h, t, SetArmed(on)) == h.(armed := on);
  }

  lemma SetsOut(reach: State -> bool, h: State, t: nat, pc': PC, on: bool)
    requires Lands(reach, h, t, SetOut(on), pc') && h.open
    ensures reach(To(h, t, pc').(out := on))
  {
    assert Apply(h, t, SetOut(on)) == h.(out := on);
  }

  lemma SetsClosed(reach: State -> bool, h: State, t: nat, pc': PC)
    requires Lands(reach, h, t, SetClosed, pc')
    ensures reach(To(h, t, pc').(closed := true))
  {
    assert Apply(h, t, SetClosed) == h.(closed := true);
  }

  lemma EmptiesInbox(reach: State -> bool, h: State, t: nat, pc': PC)
    requires Lands(reach, h, t, TakeInbox, pc')
    ensures reach(To(h, t, pc').(inbox := [], loc := MoveAll(h.loc, h.inbox, InHands(t))))
  {
    assert Apply(h, t, TakeInbox) == h.(inbox := [], loc := MoveAll(h.loc, h.inbox, InHands(t)));
  }

  lemma Queued(reach: State -> bool, h: State, t: nat, pc': PC, c: Id)
    requires Lands(reach, h, t, Queue(c), pc') && c < |h.loc|
    ensures reach(To(h, t, pc').(resp := h.resp + [c], loc := h.loc[c := InResp]))
  {
    assert Apply(h, t, Queue(c)) == h.(resp := h.resp + [c], loc := h.loc[c := InResp]);
  }

  lemma PoppedSent(reach: State -> bool, h: State, t: nat, pc': PC, c: Id)
    requires Lands(reach, h, t, PopSent, pc') && h.resp == [c] && c < |h.loc|
    ensures reach(To(h, t, pc').(resp := [], off := 0, flushed := h.flushed + [c], loc := h.loc[c := InHands(t)]))
  {
    assert [c][1..] == [];
    assert Apply(h, t, PopSent) == h.(resp := [], off := 0, flushed := h.flushed + [c], loc := h.loc[c := InHands(t)]);
  }

  lemma PoppedUnsent(reach: State -> bool, h: State, t: nat, pc': PC, c: Id)
    requires Lands(reach, h, t, PopUnsent, pc') && h.resp == [c] && c < |h.loc|
    ensures reach(To(h, t, pc').(resp := [], off := 0, loc := h.loc[c := InHands(t)]))
  {
    assert [c][1..] == [];
    assert Apply(h, t, PopUnsent) == h.(resp := [], off := 0, loc := h.loc[c := InHands(t)]);
  }

  lemma Released(reach: State -> bool, h: State, t: nat, pc': PC, c: Id)
    requires Lands(reach, h, t, Release(c), pc') && c < |h.loc|
    ensures reach(To(h, t, pc').(refcnt := h.refcnt - 1, loc := h.loc[c := Gone]))
  {
    assert Apply(h, t, Release(c)) == h.(refcnt := h.refcnt - 1, loc := h.loc[c := Gone]);
  }

  lemma PoppedJob(reach: State -> bool, h: State, t: nat, pc': PC, c: Id)
    requires Lands(reach, h, t, PopJob(c), pc') && c < |h.loc|
    ensures reach(To(h, t, pc').(loc := h.loc[c := InHands(t)]))
  {
    assert Apply(h, t, PopJob(c)) == h.(loc := h.loc[c := InHands(t)]);
  }

  lemma SetsAddr(reach: State -> bool, h: State, t: nat, pc': PC, c: Id)
    requires Lands(reach, h, t, SetAddr(c, 0), pc') && c < |h.addr| && h.addr[c] == 0
    ensures reach(To(h, t, pc'))
  {
    assert h.addr[c := 0] == h.addr;
    assert Apply(h, t, SetAddr(c, 0)) == h;
  }

  lemma ShutDown(reach: State -> bool, h: State, t: nat, pc': PC)
    requires Lands(reach, h, t, Shut, pc')
    ensures reach(To(h, t, pc').(open := false, retired := t < h.ios))
  {
    assert Apply(h, t, Shut) == h.(open := false, retired := t < h.ios);
  }

  lemma PushedIt(reach: State -> bool, h: State, t: nat, pc': PC, c: Id)
    requires Lands(reach, h, t, Push(c), pc') && c < |h.loc|
    ensures reach(To(h, t, pc').(inbox := [c] + h.inbox, pushed := h.pushed + [c], loc := h.loc[c := InInbox]))
  {
    assert Apply(h, t, Push(c)) == h.(inbox := [c] + h.inbox, pushed := h.pushed + [c], loc := h.loc[c := InInbox]);
  }

  lemma SentAll(reach: State -> bool, h: State, t: nat, pc': PC, c: Id)
    requires Lands(reach, h, t, Send(TOTAL), pc') && h.resp != [] && h.resp[0] == c && h.off == 0
    requires c < |h.body| && |h.body[c]| == TOTAL
    ensures reach(To(h, t, pc').(off := TOTAL, wire := h.wire + h.body[c]))
  {
    assert h.body[c][0..TOTAL] == h.body[c];
    assert Apply(h, t, Send(TOTAL)) == h.(off := TOTAL, wire := h.wire + h.body[c]);
  }

  lemma Requested(reach: State -> bool, h: State, t: nat, pc': PC, b: Bytes)
    requires Lands(reach, h, t, NewJob(b), pc')
    ensures reach(WithRequest(To(h, t, pc'), b))
  {
    assert Apply(h, t, NewJob(b)) == WithRequest(h, b);
  }

  lemma AcceptReleased(reach: State -> bool, h: State, t: nat, pc': PC)
    requires Lands(reach, h, t, ReleaseAccept, pc')
    ensures reach(To(h, t, pc').(refcnt := h.refcnt - 1, accept := false))
  {
    assert Apply(h, t, ReleaseAccept) == h.(refcnt := h.refcnt - 1, accept := false);
  }

  lemma EventComes(reach: State -> bool, h: State, t: nat)
    requires At(reach, h, t, Idle) && t < h.ios && h.open
    ensures reach(To(h, t, EPend))
  {
    Goes(reach, h, t, Event);
    DoesNothing(reach, h, t, EPend);
  }

  lemma EventPends(reach: State -> bool, h: State, t: nat)
    requires At(reach, h, t, EPend)
    ensures reach(To(h, t, ETry).(pending := true))
  {
    Goes(reach, h, t, Go);
    SetsPending(reach, h, t, ETry, true);
  }

  lemma EventOwns(reach: State -> bool, h: State, t: nat)
    requires At(reach, h, t, ETry) && h.owner.None?
    ensures reach(To(h, t, OClear(true)).(owner := Some(t)))
  {
    Goes(reach, h, t, Go);
    Owned(reach, h, t, OClear(true));
  }

  lemma Clears(reach: State -> bool, h: State, t: nat, io: bool)
    requires At(reach, h, t, OClear(io))
    ensures reach(To(h, t, ODrain(io)).(pending := false))
  {
    Goes(reach, h, t, Go);
    SetsPending(reach, h, t, ODrain(io), false);
  }

  lemma Drains(reach: State -> bool, h: State, t: nat, io: bool)
    requires At(reach, h, t, ODrain(io))
    ensures reach(To(h, t, OQueue(io, Reverse(h.inbox))).(inbox := [], loc := MoveAll(h.loc, h.inbox, InHands(t))))
  {
    Goes(reach, h, t, Go);
    EmptiesInbox(reach, h, t, OQueue(io, Reverse(h.inbox)));
  }

  lemma QueuesOne(reach: State -> bool, h: State, t: nat, io: bool, c: Id)
    requires At(reach, h, t, OQueue(io, [c])) && c < |h.loc|
    ensures reach(To(h, t, OQueue(io, [])).(resp := h.resp + [c], loc := h.loc[c := InResp]))
  {
    assert [c][1..] == [];
    Goes(reach, h, t, Go);
    Queued(reach, h, t, OQueue(io, []), c);
  }

  lemma QueuesNoMore(reach: State -> bool, h: State, t: nat, io: bool)
    requires At(reach, h, t, OQueue(io, []))
    ensures reach(To(h, t, OFlush(io)))
  {
    Goes(reach, h, t, Go);
    DoesNothing(reach, h, t, OFlush(io));
  }

  lemma FlushesNothing(reach: State -> bool, h: State, t: nat, io: bool)
    requires At(reach, h, t, OFlush(io)) && h.resp == []
    ensures reach(To(h, t, OArm(io, false, LoadClosed)))
  {
    Goes(reach, h, t, Go);
    DoesNothing(reach, h, t, OArm(io, false, LoadClosed));
  }

  /** The first response is sent in one piece. */
  lemma SendsOne(reach: State -> bool, h: State, t: nat, io: bool)
    requires At(reach, h, t, OFlush(io)) && h.resp != [] && h.open && h.off == 0
    requires h.resp[0] < |h.body| && |h.body[h.resp[0]]| == TOTAL
    ensures reach(h.(off := TOTAL, wire := h.wire + h.body[h.resp[0]]))
  {
    assert h.pcs[t := OFlush(io)] == h.pcs;
    Goes(reach, h, t, Sent(TOTAL));
    SentAll(reach, h, t, OFlush(io), h.resp[0]);
  }

  lemma PopsSent(reach: State -> bool, h: State, t: nat, io: bool, c: Id)
    requires At(reach, h, t, OFlush(io)) && h.resp == [c] && h.open && h.off == TOTAL && c < |h.loc|
    ensures reach(To(h, t, OFree(io, c))
      .(resp := [], off := 0, flushed := h.flushed + [c], loc := h.loc[c := InHands(t)]))
  {
    Goes(reach, h, t, Go);
    PoppedSent(reach, h, t, OFree(io, c), c);
  }

  lemma FreesSent(reach: State -> bool, h: State, t: nat, io: bool, c: Id)
    requires At(reach, h, t, OFree(io, c)) && c < |h.loc|
    ensures reach(To(h, t, OFlush(io)).(refcnt := h.refcnt - 1, loc := h.loc[c := Gone]))
  {
    Goes(reach, h, t, Go);
    Released(reach, h, t, OFlush(io), c);
  }

  lemma ArmLooks(reach: State -> bool, h: State, t: nat, io: bool)
    requires At(reach, h, t, OArm(io, false, LoadClosed)) && !h.closed
    ensures reach(To(h, t, OArm(io, false, LoadArmed)))
  {
    Goes(reach, h, t, Go);
    DoesNothing(reach, h, t, OArm(io, false, LoadArmed));
  }

  lemma NotArmed(reach: State -> bool, h: State, t: nat)
    requires At(reach, h, t, OArm(true, false, LoadArmed)) && !h.armed
    ensures reach(To(h, t, ORead))
  {
    Goes(reach, h, t, Go);
    DoesNothing(reach, h, t, ORead);
  }

  lemma DisarmNeeded(reach: State -> bool, h: State, t: nat, io: bool)
    requires At(reach, h, t, OArm(io, false, LoadArmed)) && h.armed
    ensures reach(To(h, t, OArm(io, false, LoadFd)))
  {
    Goes(reach, h, t, Go);
    DoesNothing(reach, h, t, OArm(io, false, LoadFd));
  }

  lemma DisarmFd(reach: State -> bool, h: State, t: nat, io: bool)
    requires At(reach, h, t, OArm(io, false, LoadFd)) && h.open
    ensures reach(To(h, t, OArm(io, false, StoreArmed)))
  {
    Goes(reach, h, t, Go);
    DoesNothing(reach, h, t, OArm(io, false, StoreArmed));
  }

  lemma DisarmStores(reach: State -> bool, h: State, t: nat, io: bool)
    requires At(reach, h, t, OArm(io, false, StoreArmed))
    ensures reach(To(h, t, OArm(io, false, Ctl)).(armed := false))
  {
    Goes(reach, h, t, Go);
    SetsArmed(reach, h, t, OArm(io, false, Ctl), false);
  }

  lemma DisarmCtl(reach: State -> bool, h: State, t: nat, io: bool)
    requires At(reach, h, t, OArm(io, false, Ctl)) && h.open
    ensures reach(To(h, t, if io then ORead else ORelease(Once)).(out := false))
  {
    Goes(reach, h, t, Go);
    SetsOut(reach, h, t, if io then ORead else ORelease(Once), false);
  }

  lemma AskLooks(reach: State -> bool, h: State, t: nat)
    requires At(reach, h, t, WArm(LoadClosed)) && !h.closed
    ensures reach(To(h, t, WArm(LoadArmed)))
  {
    Goes(reach, h, t, Go);
    DoesNothing(reach, h, t, WArm(LoadArmed));
  }

  lemma AskNeeded(reach: State -> bool, h: State, t: nat)
    requires At(reach, h, t, WArm(LoadArmed)) && !h.armed
    ensures reach(To(h, t, WArm(LoadFd)))
  {
    Goes(reach, h, t, Go);
    DoesNothing(reach, h, t, WArm(LoadFd));
  }

  lemma AskFd(reach: State -> bool, h: State, t: nat)
    requires At(reach, h, t, WArm(LoadFd)) && h.open
    ensures reach(To(h, t, WArm(StoreArmed)))
  {
    Goes(reach, h, t, Go);
    DoesNothing(reach, h, t, WArm(StoreArmed));
  }

  lemma AskStores(reach: State -> bool, h: State, t: nat)
    requires At(reach, h, t, WArm(StoreArmed))
    ensures reach(To(h, t, WArm(Ctl)).(armed := true))
  {
    Goes(reach, h, t, Go);
    SetsArmed(reach, h, t, WArm(Ctl), true);
  }

  lemma AskCtl(reach: State -> bool, h: State, t: nat)
    requires At(reach, h, t, WArm(Ctl)) && h.open
    ensures reach(To(h, t, Idle).(out := true))
  {
    Goes(reach, h, t, Go);
    SetsOut(reach, h, t, Idle, true);
  }

  function WithRequest(h: State, b: Bytes): State {
    h.(refcnt := h.refcnt + 1, loc := h.loc + [InRing], body := h.body + [b], addr := h.addr + [0])
  }

  lemma Reads(reach: State -> bool, h: State, t: nat, b: Bytes)
    requires At(reach, h, t, ORead) && |b| == TOTAL
    ensures reach(WithRequest(h, b))
  {
    assert h.pcs[t := ORead] == h.pcs;
    Goes(reach, h, t, Request(b));
    Requested(reach, h, t, ORead, b);
  }

  lemma ReadsNoMore(reach: State -> bool, h: State, t: nat)
    requires At(reach, h, t, ORead) && h.open
    ensures reach(To(h, t, OCheck))
  {
    Goes(reach, h, t, Go);
    DoesNothing(reach, h, t, OCheck);
  }

  lemma NothingPending(reach: State -> bool, h: State, t: nat)
    requires At(reach, h, t, OCheck) && !h.pending
    ensures reach(To(h, t, ORelease(Loop)))
  {
    Goes(reach, h, t, Go);
    DoesNothing(reach, h, t, ORelease(Loop));
  }

  lemma Releases(reach: State -> bool, h: State, t: nat, next: Then)
    requires At(reach, h, t, ORelease(next))
    ensures reach(To(h, t, if next == Stop then Idle else OAfter(next == Once)).(owner := None))
  {
    Goes(reach, h, t, Go);
    Disowned(reach, h, t, if next == Stop then Idle else OAfter(next == Once));
  }

  lemma LooksBack(reach: State -> bool, h: State, t: nat, once: bool)
    requires At(reach, h, t, OAfter(once))
    ensures reach(To(h, t, if h.pending then OTry(once) else Idle).(pending := false))
  {
    Goes(reach, h, t, Go);
    SetsPending(reach, h, t, if h.pending then OTry(once) else Idle, false);
  }

  lemma TurnsAway(reach: State -> bool, h: State, t: nat)
    requires At(reach, h, t, OTry(false)) && h.owner.Some?
    ensures reach(To(h, t, Idle))
  {
    Goes(reach, h, t, Go);
    DoesNothing(reach, h, t, Idle);
  }

  lemma WorkerFails(reach: State -> bool, h: State, t: nat)
    requires At(reach, h, t, WTry) && h.owner.Some?
    ensures reach(To(h, t, WArm(LoadClosed)))
  {
    Goes(reach, h, t, Go);
    DoesNothing(reach, h, t, WArm(LoadClosed));
  }

  lemma TakesJob(reach: State -> bool, h: State, t: nat, c: Id)
    requires At(reach, h, t, Idle) && t >= h.ios && c < |h.loc| && h.loc[c] == InRing
    ensures reach(To(h, t, WJob(c)).(loc := h.loc[c := InHands(t)]))
  {
    Goes(reach, h, t, Worker(c));
    PoppedJob(reach, h, t, WJob(c), c);
  }

  lemma Works(reach: State -> bool, h: State, t: nat, c: Id)
    requires At(reach, h, t, WJob(c)) && c < |h.addr| && h.addr[c] == 0
    ensures reach(To(h, t, WLoad(c)))
  {
    Goes(reach, h, t, Alloc(0));
    SetsAddr(reach, h, t, WLoad(c), c);
  }

  lemma LoadsTop(reach: State -> bool, h: State, t: nat, c: Id)
    requires At(reach, h, t, WLoad(c))
    ensures reach(To(h, t, WCas(c, Top(h))))
  {
    Goes(reach, h, t, Go);
    DoesNothing(reach, h, t, WCas(c, Top(h)));
  }

  /** Completion c pushed. */
  function Pushed(h: State, t: nat, c: Id): State
    requires t < |h.pcs| && c < |h.loc|
  {
    To(h, t, WCheck).(inbox := [c] + h.inbox, pushed := h.pushed + [c], loc := h.loc[c := InInbox])
  }

  lemma Pushes(reach: State -> bool, h: State, t: nat, c: Id)
    requires At(reach, h, t, WCas(c, Top(h))) && c < |h.loc|
    ensures reach(Pushed(h, t, c))
  {
    Goes(reach, h, t, Go);
    PushedIt(reach, h, t, WCheck, c);
  }

  lemma Checks(reach: State -> bool, h: State, t: nat)
    requires At(reach, h, t, WCheck)
    ensures reach(To(h, t, if h.closed then WStale else WPend))
  {
    Goes(reach, h, t, Go);
    DoesNothing(reach, h, t, if h.closed then WStale else WPend);
  }

  lemma Tells(reach: State -> bool, h: State, t: nat)
    requires At(reach, h, t, WPend)
    ensures reach(To(h, t, WTry).(pending := true))
  {
    Goes(reach, h, t, Go);
    SetsPending(reach, h, t, WTry, true);
  }

  lemma WorkerOwns(reach: State -> bool, h: State, t: nat)
    requires At(reach, h, t, WTry) && h.owner.None?
    ensures reach(To(h, t, OClear(false)).(owner := Some(t)))
  {
    Goes(reach, h, t, Go);
    Owned(reach, h, t, OClear(false));
  }

  lemma ErrorComes(reach: State -> bool, h: State, t: nat)
    requires At(reach, h, t, Idle) && t < h.ios && h.open
    ensures reach(To(h, t, EErr))
  {
    Goes(reach, h, t, ErrorEvent);
    DoesNothing(reach, h, t, EErr);
  }

  lemma ErrorOwns(reach: State -> bool, h: State, t: nat)
    requires At(reach, h, t, EErr) && h.owner.None?
    ensures reach(To(h, t, OClose(Stop)).(owner := Some(t)))
  {
    Goes(reach, h, t, Go);
    Owned(reach, h, t, OClose(Stop));
  }

  lemma SendFails(reach: State -> bool, h: State, t: nat, io: bool)
    requires At(reach, h, t, OFlush(io)) && h.resp != [] && h.open && h.off < TOTAL
    ensures reach(To(h, t, OClose(After(io))))
  {
    Goes(reach, h, t, Broken);
    DoesNothing(reach, h, t, OClose(After(io)));
  }

  lemma Closes(reach: State -> bool, h: State, t: nat, next: Then)
    requires At(reach, h, t, OClose(next)) && h.open
    ensures reach(To(h, t, ODiscard(next)).(closed := true))
  {
    Goes(reach, h, t, Go);
    SetsClosed(reach, h, t, ODiscard(next));
  }

  lemma PopsUnsent(reach: State -> bool, h: State, t: nat, next: Then, c: Id)
    requires At(reach, h, t, ODiscard(next)) && h.resp == [c] && c < |h.loc|
    ensures reach(To(h, t, OFreeResp(next, c)).(resp := [], off := 0, loc := h.loc[c := InHands(t)]))
  {
    Goes(reach, h, t, Go);
    PoppedUnsent(reach, h, t, OFreeResp(next, c), c);
  }

  lemma FreesUnsent(reach: State -> bool, h: State, t: nat, next: Then, c: Id)
    requires At(reach, h, t, OFreeResp(next, c)) && c < |h.loc|
    ensures reach(To(h, t, ODiscard(next)).(refcnt := h.refcnt - 1, loc := h.loc[c := Gone]))
  {
    Goes(reach, h, t, Go);
    Released(reach, h, t, ODiscard(next), c);
  }

  lemma DiscardsNoMore(reach: State -> bool, h: State, t: nat, next: Then)
    requires At(reach, h, t, ODiscard(next)) && h.resp == []
    ensures reach(To(h, t, OTake(next)))
  {
    Goes(reach, h, t, Go);
    DoesNothing(reach, h, t, OTake(next));
  }

  lemma TakesInbox(reach: State -> bool, h: State, t: nat, next: Then)
    requires At(reach, h, t, OTake(next))
    ensures reach(To(h, t, ODrop(next, h.inbox)).(inbox := [], loc := MoveAll(h.loc, h.inbox, InHands(t))))
  {
    Goes(reach, h, t, Go);
    EmptiesInbox(reach, h, t, ODrop(next, h.inbox));
  }

  lemma Drops(reach: State -> bool, h: State, t: nat, next: Then, c: Id)
    requires At(reach, h, t, ODrop(next, [c])) && c < |h.loc|
    ensures reach(To(h, t, ODrop(next, [])).(refcnt := h.refcnt - 1, loc := h.loc[c := Gone]))
  {
    assert [c][1..] == [];
    Goes(reach, h, t, Go);
    Released(reach, h, t, ODrop(next, []), c);
  }

  lemma DropsNoMore(reach: State -> bool, h: State, t: nat, next: Then)
    requires At(reach, h, t, ODrop(next, []))
    ensures reach(To(h, t, OShut(next)))
  {
    Goes(reach, h, t, Go);
    DoesNothing(reach, h, t, OShut(next));
  }

  lemma Shuts(reach: State -> bool, h: State, t: nat, next: Then)
    requires At(reach, h, t, OShut(next))
    ensures reach(To(h, t, ORelease(next)).(open := false, retired := t < h.ios))
  {
    Goes(reach, h, t, Go);
    ShutDown(reach, h, t, ORelease(next));
  }

  lemma Frees(reach: State -> bool, h: State, t: nat)
    requires At(reach, h, t, Idle) && t < h.ios == 1 && !h.open && h.retired && h.accept
    ensures reach(h.(refcnt := h.refcnt - 1, accept := false))
  {
    assert h.pcs[t := Idle] == h.pcs;
    Goes(reach, h, t, FreeAccept);
    AcceptReleased(reach, h, t, Idle);
  }
}
