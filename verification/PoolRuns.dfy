/** Longer pieces of runs of the connection protocol of the pool server (bench/servers/common-linux-pool.c). */
module PoolRuns {
  import opened Options
  import opened Framing
  import opened PoolConn
  import opened PoolWatch
  import opened PoolSteps

  // ---- longer pieces of runs ----

  lemma Again(pcs: seq<PC>, t: nat, pc: PC, pc': PC)
    requires t < |pcs|
    ensures pcs[t := pc][t := pc'] == pcs[t := pc']
  {
  }

  lemma EventTakesOver(reach: State -> bool, h: State, t: nat)
    requires At(reach, h, t, Idle) && t < h.ios && h.open && h.owner.None?
    ensures reach(To(h, t, OClear(true)).(pending := true, owner := Some(t)))
  {
    EventComes(reach, h, t);
    Again(h.pcs, t, EPend, ETry);
    EventPends(reach, To(h, t, EPend), t);
    Again(h.pcs, t, ETry, OClear(true));
    EventOwns(reach, To(h, t, ETry).(pending := true), t);
  }

  lemma DrainsNothing(reach: State -> bool, h: State, t: nat)
    requires At(reach, h, t, ODrain(true)) && h.inbox == []
    ensures reach(To(h, t, OFlush(true)))
  {
    Drains(reach, h, t, true);
    assert MoveAll(h.loc, h.inbox, InHands(t)) == h.loc && Reverse(h.inbox) == [];
    Again(h.pcs, t, OQueue(true, []), OFlush(true));
    QueuesNoMore(reach, To(h, t, OQueue(true, [])), t, true);
  }

  /** From idle to the point where the inbox, which was empty, has been drained. */
  lemma OwnsEmpty(reach: State -> bool, h: State, t: nat)
    requires At(reach, h, t, Idle) && t < h.ios && h.open && h.owner.None? && !h.pending && h.inbox == []
    ensures reach(To(h, t, OFlush(true)).(owner := Some(t)))
  {
    EventTakesOver(reach, h, t);
    Again(h.pcs, t, OClear(true), ODrain(true));
    Clears(reach, To(h, t, OClear(true)).(pending := true, owner := Some(t)), t, true);
    Again(h.pcs, t, ODrain(true), OFlush(true));
    DrainsNothing(reach, To(h, t, ODrain(true)).(owner := Some(t)), t);
  }

  lemma StartsReading(reach: State -> bool, h: State, t: nat)
    requires At(reach, h, t, OFlush(true)) && h.resp == [] && !h.closed && !h.armed
    ensures reach(To(h, t, ORead))
  {
    FlushesNothing(reach, h, t, true);
    Again(h.pcs, t, OArm(true, false, LoadClosed), OArm(true, false, LoadArmed));
    ArmLooks(reach, To(h, t, OArm(true, false, LoadClosed)), t, true);
    Again(h.pcs, t, OArm(true, false, LoadArmed), ORead);
    NotArmed(reach, To(h, t, OArm(true, false, LoadArmed)), t);
  }

  lemma StopsOwning(reach: State -> bool, h: State, t: nat)
    requires At(reach, h, t, ORead) && h.open && !h.pending
    ensures reach(To(h, t, OAfter(false)).(owner := None))
  {
    ReadsNoMore(reach, h, t);
    Again(h.pcs, t, OCheck, ORelease(Loop));
    NothingPending(reach, To(h, t, OCheck), t);
    Again(h.pcs, t, ORelease(Loop), OAfter(false));
    Releases(reach, To(h, t, ORelease(Loop)), t, Loop);
  }

  lemma StartsJob(reach: State -> bool, h: State, t: nat, c: Id)
    requires At(reach, h, t, Idle) && t >= h.ios && c < |h.loc| && h.loc[c] == InRing && c < |h.addr| && h.addr[c] == 0
    ensures reach(To(h, t, WLoad(c)).(loc := h.loc[c := InHands(t)]))
  {
    TakesJob(reach, h, t, c);
    Again(h.pcs, t, WJob(c), WLoad(c));
    Works(reach, To(h, t, WJob(c)).(loc := h.loc[c := InHands(t)]), t, c);
  }

  lemma PushesJob(reach: State -> bool, h: State, t: nat, c: Id)
    requires At(reach, h, t, WLoad(c)) && c < |h.loc|
    ensures reach(Pushed(h, t, c))
  {
    LoadsTop(reach, h, t, c);
    Again(h.pcs, t, WCas(c, Top(h)), WCheck);
    Pushes(reach, To(h, t, WCas(c, Top(h))), t, c);
  }

  lemma DoesJob(reach: State -> bool, h: State, t: nat, c: Id)
    requires At(reach, h, t, Idle) && t >= h.ios && c < |h.loc| && h.loc[c] == InRing && c < |h.addr| && h.addr[c] == 0
    ensures reach(Pushed(h, t, c))
  {
    StartsJob(reach, h, t, c);
    Again(h.pcs, t, WLoad(c), WCheck);
    assert h.loc[c := InHands(t)][c := InInbox] == h.loc[c := InInbox];
    PushesJob(reach, To(h, t, WLoad(c)).(loc := h.loc[c := InHands(t)]), t, c);
  }

  lemma WorkerTells(reach: State -> bool, h: State, t: nat)
    requires At(reach, h, t, WCheck) && !h.closed
    ensures reach(To(h, t, WTry).(pending := true))
  {
    Checks(reach, h, t);
    Again(h.pcs, t, WPend, WTry);
    Tells(reach, To(h, t, WPend), t);
  }

  lemma DrainsOne(reach: State -> bool, h: State, t: nat, c: Id)
    requires At(reach, h, t, ODrain(false)) && h.inbox == [c] && c < |h.loc|
    ensures reach(To(h, t, OQueue(false, [c])).(inbox := [], loc := h.loc[c := InHands(t)]))
  {
    Drains(reach, h, t, false);
    assert [c][1..] == [] && Reverse([c]) == [c];
    assert MoveAll(h.loc, [c], InHands(t)) == h.loc[c := InHands(t)];
  }

  lemma WorkerDrains(reach: State -> bool, h: State, t: nat, c: Id)
    requires At(reach, h, t, WTry) && h.owner.None? && h.inbox == [c] && c < |h.loc|
    ensures reach(To(h, t, OQueue(false, [c]))
      .(owner := Some(t), pending := false, inbox := [], loc := h.loc[c := InHands(t)]))
  {
    WorkerOwns(reach, h, t);
    Again(h.pcs, t, OClear(false), ODrain(false));
    Clears(reach, To(h, t, OClear(false)).(owner := Some(t)), t, false);
    Again(h.pcs, t, ODrain(false), OQueue(false, [c]));
    DrainsOne(reach, To(h, t, ODrain(false)).(owner := Some(t), pending := false), t, c);
  }

  lemma QueuesLast(reach: State -> bool, h: State, t: nat, c: Id)
    requires At(reach, h, t, OQueue(false, [c])) && c < |h.loc| && h.resp == []
    ensures reach(To(h, t, OFlush(false)).(resp := [c], loc := h.loc[c := InResp]))
  {
    assert h.resp + [c] == [c];
    QueuesOne(reach, h, t, false, c);
    Again(h.pcs, t, OQueue(false, []), OFlush(false));
    QueuesNoMore(reach, To(h, t, OQueue(false, [])).(resp := [c], loc := h.loc[c := InResp]), t, false);
  }

  lemma SendsLast(reach: State -> bool, h: State, t: nat, c: Id)
    requires At(reach, h, t, OFlush(false)) && h.resp == [c] && h.open && h.off == 0 && c < |h.loc|
    requires c < |h.body| && |h.body[c]| == TOTAL
    ensures reach(To(h, t, OFree(false, c))
      .(resp := [], flushed := h.flushed + [c], wire := h.wire + h.body[c], loc := h.loc[c := InHands(t)]))
  {
    SendsOne(reach, h, t, false);
    PopsSent(reach, h.(off := TOTAL, wire := h.wire + h.body[c]), t, false, c);
  }

  /** All that was queued, which is c, is sent and released. */
  function SentOff(h: State, c: Id): State
    requires c < |h.loc| && c < |h.body|
  {
    h.(resp := [], flushed := h.flushed + [c], wire := h.wire + h.body[c], refcnt := h.refcnt - 1,
       loc := h.loc[c := Gone])
  }

  lemma Flushes(reach: State -> bool, h: State, t: nat, c: Id)
    requires At(reach, h, t, OFlush(false)) && h.resp == [c] && h.open && h.off == 0 && c < |h.loc|
    requires c < |h.body| && |h.body[c]| == TOTAL
    ensures reach(SentOff(h, c))
  {
    SendsLast(reach, h, t, c);
    assert h.pcs[t := OFree(false, c)][t := OFlush(false)] == h.pcs;
    assert h.loc[c := InHands(t)][c := Gone] == h.loc[c := Gone];
    var h' := To(h, t, OFree(false, c))
      .(resp := [], flushed := h.flushed + [c], wire := h.wire + h.body[c], loc := h.loc[c := InHands(t)]);
    FreesSent(reach, h', t, false, c);
  }

  lemma StartsDisarming(reach: State -> bool, h: State, t: nat, io: bool)
    requires At(reach, h, t, OFlush(io)) && h.resp == [] && !h.closed && h.armed
    ensures reach(To(h, t, OArm(io, false, LoadFd)))
  {
    FlushesNothing(reach, h, t, io);
    Again(h.pcs, t, OArm(io, false, LoadClosed), OArm(io, false, LoadArmed));
    ArmLooks(reach, To(h, t, OArm(io, false, LoadClosed)), t, io);
    Again(h.pcs, t, OArm(io, false, LoadArmed), OArm(io, false, LoadFd));
    DisarmNeeded(reach, To(h, t, OArm(io, false, LoadArmed)), t, io);
  }

  lemma Disarms(reach: State -> bool, h: State, t: nat, io: bool)
    requires At(reach, h, t, OFlush(io)) && h.resp == [] && !h.closed && h.armed && h.open
    ensures reach(To(h, t, if io then ORead else ORelease(Once)).(armed := false, out := false))
  {
    StartsDisarming(reach, h, t, io);
    Again(h.pcs, t, OArm(io, false, LoadFd), OArm(io, false, StoreArmed));
    DisarmFd(reach, To(h, t, OArm(io, false, LoadFd)), t, io);
    Again(h.pcs, t, OArm(io, false, StoreArmed), OArm(io, false, Ctl));
    DisarmStores(reach, To(h, t, OArm(io, false, StoreArmed)), t, io);
    Again(h.pcs, t, OArm(io, false, Ctl), if io then ORead else ORelease(Once));
    DisarmCtl(reach, To(h, t, OArm(io, false, Ctl)).(armed := false), t, io);
  }

  lemma Asks(reach: State -> bool, h: State, t: nat)
    requires At(reach, h, t, WArm(LoadClosed)) && !h.closed && !h.armed && h.open
    ensures reach(To(h, t, Idle).(armed := true, out := true))
  {
    AskLooks(reach, h, t);
    Again(h.pcs, t, WArm(LoadArmed), WArm(LoadFd));
    AskNeeded(reach, To(h, t, WArm(LoadArmed)), t);
    Again(h.pcs, t, WArm(LoadFd), WArm(StoreArmed));
    AskFd(reach, To(h, t, WArm(LoadFd)), t);
    Again(h.pcs, t, WArm(StoreArmed), WArm(Ctl));
    AskStores(reach, To(h, t, WArm(StoreArmed)), t);
    Again(h.pcs, t, WArm(Ctl), Idle);
    AskCtl(reach, To(h, t, WArm(Ctl)).(armed := true), t);
  }

  /** An I/O thread looks back, takes the flag a worker has just set, and does not become owner. */
  lemma LosesFlag(reach: State -> bool, h: State, t: nat)
    requires At(reach, h, t, OAfter(false)) && h.pending && h.owner.Some?
    ensures reach(To(h, t, Idle).(pending := false))
  {
    LooksBack(reach, h, t, false);
    Again(h.pcs, t, OTry(false), Idle);
    TurnsAway(reach, To(h, t, OTry(false)).(pending := false), t);
  }

  /** So does the worker, which asks for EPOLLOUT instead. */
  lemma BothGiveUp(reach: State -> bool, h: State, t: nat, u: nat)
    requires At(reach, h, t, OAfter(false)) && At(reach, h, u, WTry) && h.pending && h.owner.Some?
    requires !h.closed && !h.armed && h.open
    ensures reach(h.(pcs := h.pcs[t := Idle][u := Idle], pending := false, armed := true, out := true))
  {
    var h1 := To(h, t, Idle).(pending := false);
    LosesFlag(reach, h, t);
    WorkerFails(reach, h1, u);
    Again(h1.pcs, u, WArm(LoadClosed), Idle);
    Asks(reach, To(h1, u, WArm(LoadClosed)), u);
  }

  // ---- closing ----

  lemma ErrorCloses(reach: State -> bool, h: State, t: nat)
    requires At(reach, h, t, Idle) && t < h.ios && h.open && h.owner.None? && h.resp == []
    ensures reach(To(h, t, OTake(Stop)).(owner := Some(t), closed := true))
  {
    ErrorComes(reach, h, t);
    Again(h.pcs, t, EErr, OClose(Stop));
    ErrorOwns(reach, To(h, t, EErr), t);
    Again(h.pcs, t, OClose(Stop), ODiscard(Stop));
    Closes(reach, To(h, t, OClose(Stop)).(owner := Some(t)), t, Stop);
    Again(h.pcs, t, ODiscard(Stop), OTake(Stop));
    DiscardsNoMore(reach, To(h, t, ODiscard(Stop)).(owner := Some(t), closed := true), t, Stop);
  }

  lemma DropsInbox(reach: State -> bool, h: State, t: nat, c: Id)
    requires At(reach, h, t, OTake(Stop)) && h.inbox == [c] && c < |h.loc|
    ensures reach(To(h, t, OShut(Stop)).(inbox := [], refcnt := h.refcnt - 1, loc := h.loc[c := Gone]))
  {
    assert MoveAll(h.loc, [c], InHands(t)) == h.loc[c := InHands(t)];
    TakesInbox(reach, h, t, Stop);
    Again(h.pcs, t, ODrop(Stop, [c]), ODrop(Stop, []));
    assert h.loc[c := InHands(t)][c := Gone] == h.loc[c := Gone];
    Drops(reach, To(h, t, ODrop(Stop, [c])).(inbox := [], loc := h.loc[c := InHands(t)]), t, Stop, c);
    Again(h.pcs, t, ODrop(Stop, []), OShut(Stop));
    var h' := To(h, t, ODrop(Stop, [])).(inbox := [], refcnt := h.refcnt - 1, loc := h.loc[c := Gone]);
    DropsNoMore(reach, h', t, Stop);
  }

  lemma ShutsAndFrees(reach: State -> bool, h: State, t: nat)
    requires At(reach, h, t, OShut(Stop)) && t < h.ios == 1 && h.accept
    ensures reach(To(h, t, Idle)
      .(open := false, retired := true, owner := None, refcnt := h.refcnt - 1, accept := false))
  {
    Shuts(reach, h, t, Stop);
    Again(h.pcs, t, ORelease(Stop), Idle);
    Releases(reach, To(h, t, ORelease(Stop)).(open := false, retired := true), t, Stop);
    Frees(reach, To(h, t, Idle).(open := false, retired := true, owner := None), t);
  }

  /** The connection after an I/O thread has closed it, dropped the one completion c and let it go. */
  function Freed(h: State, c: Id): State
    requires c < |h.loc|
  {
    h.(closed := true, open := false, retired := true, accept := false, inbox := [], refcnt := h.refcnt - 2,
       loc := h.loc[c := Gone])
  }

  lemma ClosesAndFrees(reach: State -> bool, h: State, t: nat, c: Id)
    requires At(reach, h, t, Idle) && t < h.ios == 1 && h.open && h.accept && h.owner.None? && h.resp == []
    requires h.inbox == [c] && c < |h.loc|
    ensures reach(Freed(h, c))
  {
    ErrorCloses(reach, h, t);
    Again(h.pcs, t, OTake(Stop), OShut(Stop));
    DropsInbox(reach, To(h, t, OTake(Stop)).(owner := Some(t), closed := true), t, c);
    assert h.pcs[t := OShut(Stop)][t := Idle] == h.pcs;
    ShutsAndFrees(reach, To(h, t, OShut(Stop))
      .(owner := Some(t), closed := true, inbox := [], refcnt := h.refcnt - 1, loc := h.loc[c := Gone]), t);
  }

  lemma StartsClosing(reach: State -> bool, h: State, t: nat)
    requires At(reach, h, t, OFlush(false)) && h.resp != [] && h.open && h.off == 0
    ensures reach(To(h, t, ODiscard(Once)).(closed := true))
  {
    SendFails(reach, h, t, false);
    Again(h.pcs, t, OClose(Once), ODiscard(Once));
    Closes(reach, To(h, t, OClose(Once)), t, Once);
  }

  /** A worker whose send fails closes the connection. */
  lemma WorkerCloses(reach: State -> bool, h: State, t: nat, c: Id)
    requires At(reach, h, t, OFlush(false)) && h.resp == [c] && h.open && h.off == 0 && c < |h.loc|
    ensures reach(To(h, t, ODiscard(Once))
      .(closed := true, resp := [], refcnt := h.refcnt - 1, loc := h.loc[c := Gone]))
  {
    StartsClosing(reach, h, t);
    Again(h.pcs, t, ODiscard(Once), OFreeResp(Once, c));
    PopsUnsent(reach, To(h, t, ODiscard(Once)).(closed := true), t, Once, c);
    Again(h.pcs, t, OFreeResp(Once, c), ODiscard(Once));
    assert h.loc[c := InHands(t)][c := Gone] == h.loc[c := Gone];
    var h' := To(h, t, OFreeResp(Once, c)).(closed := true, resp := [], loc := h.loc[c := InHands(t)]);
    FreesUnsent(reach, h', t, Once, c);
  }

  lemma TakesNothing(reach: State -> bool, h: State, t: nat)
    requires At(reach, h, t, OTake(Once)) && h.inbox == []
    ensures reach(To(h, t, ODrop(Once, [])))
  {
    assert MoveAll(h.loc, [], InHands(t)) == h.loc;
    TakesInbox(reach, h, t, Once);
  }

  lemma DropsNothing(reach: State -> bool, h: State, t: nat)
    requires At(reach, h, t, ODiscard(Once)) && h.resp == [] && h.inbox == []
    ensures reach(To(h, t, OShut(Once)))
  {
    DiscardsNoMore(reach, h, t, Once);
    Again(h.pcs, t, OTake(Once), ODrop(Once, []));
    TakesNothing(reach, To(h, t, OTake(Once)), t);
    Again(h.pcs, t, ODrop(Once, []), OShut(Once));
    DropsNoMore(reach, To(h, t, ODrop(Once, [])), t, Once);
  }

  lemma WorkerShuts(reach: State -> bool, h: State, t: nat)
    requires At(reach, h, t, ODiscard(Once)) && h.resp == [] && h.inbox == []
    ensures reach(To(h, t, ORelease(Once)).(open := false, retired := t < h.ios))
  {
    DropsNothing(reach, h, t);
    Again(h.pcs, t, OShut(Once), ORelease(Once));
    Shuts(reach, To(h, t, OShut(Once)), t, Once);
  }
}
