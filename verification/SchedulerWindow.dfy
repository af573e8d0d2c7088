/** How far work conservation goes under interleaving (rakaia/plain-tcp/rakaiasock.c). A push that
    finds nobody idle unlocks the waiter list before it sets its queue's bit. A pull that sees an
    empty bitmap in between is the one step that breaks work conservation, and it always does. */
module SchedulerWindow {
  import opened Options
  import opened SchedulerSteps
  import opened SchedulerRace

  /** A push at pc will hand its message to a socket that was idle. */
  predicate Handing(pc: PC) {
    pc.PushPick? || pc.PushClear? || (pc.PushWUnlock? && pc.found.Some?) || pc.PushDeq?
  }

  /** Some socket is idle, or about to be put on the waiter list. */
  ghost predicate SomeoneIdle(s: State) {
    s.waiters != [] || (s.wlock.Some? && s.wlock.value < |s.pcs| && s.pcs[s.wlock.value].PullAdd?)
  }

  /** Queue c is empty, or its message is being handed over. */
  ghost predicate Covered(s: State, c: nat) {
    c < |s.q| && c < |s.qlock| &&
    (s.q[c] == [] || (s.qlock[c].Some? && s.qlock[c].value < |s.pcs| && Handing(s.pcs[s.qlock[c].value])))
  }

  ghost predicate Conserving(s: State) {
    SomeoneIdle(s) ==> forall c :: 0 <= c < |s.q| ==> Covered(s, c)
  }

  /** Thread t finds the bitmap empty while a push has yet to set its bit. */
  ghost predicate Misled(s: State, t: nat) {
    t < |s.pcs| && s.pcs[t].PullCheck? && NoBits(s) && exists u :: 0 <= u < |s.pcs| && s.pcs[u].PushBit?
  }

  // ---- one step ----

  /** The thread that has queue c locked, and how far it is. */
  lemma Holder(s: State, c: nat)
    requires Inv(s) && c < |s.q| && s.qlock[c].Some?
    ensures
      var u := s.qlock[c].value;
      u < |s.pcs| && HoldsQ(s.pcs[u]) == Some(c) && Phase(s.pcs[u], s.q[c], s.bit[c])
  {
    assert QueueOk(s, c);
    assert Holders(s.pcs)[s.qlock[c].value] == HoldsQ(s.pcs[s.qlock[c].value]);
  }

  lemma OwnLock(s: State, t: nat, c: nat)
    requires Inv(s) && t < |s.pcs| && HoldsQ(s.pcs[t]) == Some(c)
    ensures c < |s.q| && s.qlock[c] == Some(t) && Phase(s.pcs[t], s.q[c], s.bit[c])
  {
    assert Holders(s.pcs)[t] == Some(c);
    Holder(s, c);
  }

  /** A socket is put on the list in two steps, after an empty bitmap was seen. */
  lemma ProgramIdle(s: State, t: nat, a: Action)
    requires Enabled(s, t, a)
    ensures
      var (e, pc') := Program(s, t, a);
      && (e.Link? ==> s.pcs[t].PullAdd?)
      && (pc'.PullAdd? ==> s.pcs[t].PullCheck? && NoBits(s))
  {
  }

  lemma KeepNobodyIdle(s: State, t: nat, e: Effect, pc': PC, s': State)
    requires WLockOk(s) && Moves(s, t, e, pc', s') && WDiscipline(s, s.pcs[t], e, pc')
    requires !SomeoneIdle(s) && (e.Link? ==> s.pcs[t].PullAdd?) && !pc'.PullAdd?
    ensures !SomeoneIdle(s')
  {
  }

  /** Only a pull that sees an empty bitmap makes somebody idle. */
  lemma BecomesIdle(s: State, t: nat, a: Action)
    requires Inv(s) && Enabled(s, t, a) && !SomeoneIdle(s) && SomeoneIdle(Do(s, t, a))
    ensures s.pcs[t].PullCheck? && NoBits(s)
  {
    var (e, pc') := Program(s, t, a);
    StepReady(s, t);
    ProgramFits(s, t, a);
    ProgramW(s, t, a);
    ProgramIdle(s, t, a);
    if !pc'.PullAdd? {
      KeepNobodyIdle(s, t, e, pc', Do(s, t, a));
    }
  }

  /** With the bitmap empty and no bit about to be set, every queued message is being handed over. */
  lemma EmptyBitmap(s: State, t: nat, c: nat)
    requires Inv(s) && t < |s.pcs| && !Misled(s, t) && s.pcs[t].PullCheck? && NoBits(s) && c < |s.q|
    ensures Covered(s, c)
  {
    assert s.wlock == Some(t) && !s.bit[c] && QueueOk(s, c);
    if s.q[c] != [] && s.qlock[c].Some? {
      Holder(s, c);
    }
  }

  /** The queue that t has locked. */
  lemma OwnCovered(s: State, t: nat, a: Action, c: nat)
    requires Ready(s, t) && Enabled(s, t, a) && HoldsQ(s.pcs[t]) == Some(c) && c < |s.q| && s.qlock[c] == Some(t)
    requires Phase(s.pcs[t], s.q[c], s.bit[c]) && Covered(s, c) && Fits(s, Program(s, t, a).0)
    requires s.pcs[t].PushPick? ==> s.waiters != []
    ensures Covered(Do(s, t, a), c)
  {
  }

  lemma KeepOthersCovered(s: State, t: nat, e: Effect, pc': PC, s': State, c: nat)
    requires Sizes(s) && Moves(s, t, e, pc', s') && QDiscipline(s, s.pcs[t], e, pc')
    requires c < |s.q| && HoldsQ(s.pcs[t]) != Some(c) && s.qlock[c] != Some(t) && Covered(s, c)
    ensures Covered(s', c)
  {
  }

  /** Any other queue. */
  lemma OthersCovered(s: State, t: nat, a: Action, c: nat)
    requires Inv(s) && Enabled(s, t, a) && c < |s.q| && HoldsQ(s.pcs[t]) != Some(c) && Covered(s, c)
    ensures Covered(Do(s, t, a), c)
  {
    var (e, pc') := Program(s, t, a);
    StepReady(s, t);
    ProgramFits(s, t, a);
    ProgramQ(s, t, a);
    if s.qlock[c].Some? { Holder(s, c); }
    KeepOthersCovered(s, t, e, pc', Do(s, t, a), c);
  }

  lemma KeepCovered(s: State, t: nat, a: Action, c: nat)
    requires Inv(s) && Enabled(s, t, a) && c < |s.q| && SomeoneIdle(s) && Covered(s, c)
    ensures Covered(Do(s, t, a), c)
  {
    if HoldsQ(s.pcs[t]) == Some(c) {
      StepReady(s, t);
      ProgramFits(s, t, a);
      OwnLock(s, t, c);
      if s.pcs[t].PushPick? { assert s.wlock == Some(t); }
      OwnCovered(s, t, a, c);
    } else {
      OthersCovered(s, t, a, c);
    }
  }

  /** A push that has yet to set its bit keeps its queue from being covered. */
  lemma BitMissing(s: State, u: nat)
    requires Inv(s) && u < |s.pcs| && s.pcs[u].PushBit?
    ensures s.pcs[u].c < |s.q| && s.qlock[s.pcs[u].c] == Some(u) && s.q[s.pcs[u].c] != [] && !Covered(s, s.pcs[u].c)
  {
    OwnLock(s, u, s.pcs[u].c);
  }

  lemma NobodyWaits(s: State, t: nat)
    requires Inv(s) && t < |s.pcs| && s.pcs[t].PullCheck? && s.waiters == []
    ensures s.wlock == Some(t) && !IsWaiting(s, s.pcs[t].k)
  {
  }

  lemma CheckPasses(s: State, t: nat, a: Action, u: nat, c: nat)
    requires Sizes(s) && Enabled(s, t, a) && s.pcs[t].PullCheck? && NoBits(s) && !IsWaiting(s, s.pcs[t].k) &&
        s.wlock == Some(t)
    requires u < |s.pcs| && s.pcs[u].PushBit? && c < |s.q| && s.qlock[c] == Some(u) && s.q[c] != []
    ensures SomeoneIdle(Do(s, t, a)) && c < |Do(s, t, a).q| && !Covered(Do(s, t, a), c)
  {
  }

  /** A misled pull leaves a socket about to go idle, and a message nobody will hand over. */
  lemma MisledBreaks(s: State, t: nat, a: Action)
    requires Inv(s) && Conserving(s) && Enabled(s, t, a) && Misled(s, t)
    ensures !Conserving(Do(s, t, a))
  {
    var u :| 0 <= u < |s.pcs| && s.pcs[u].PushBit?;
    BitMissing(s, u);
    NobodyWaits(s, t);
    CheckPasses(s, t, a, u, s.pcs[u].c);
  }

  /** A step keeps work conservation exactly when it is not a misled pull. */
  lemma StepConservesIff(s: State, t: nat, a: Action)
    requires Inv(s) && Conserving(s) && Enabled(s, t, a)
    ensures Conserving(Do(s, t, a)) <==> !Misled(s, t)
  {
    var s' := Do(s, t, a);
    if Misled(s, t) {
      MisledBreaks(s, t, a);
    } else if SomeoneIdle(s') {
      forall c | 0 <= c < |s'.q| ensures Covered(s', c) {
        StepCovered(s, t, a, c);
      }
    }
  }

  lemma StepCovered(s: State, t: nat, a: Action, c: nat)
    requires Inv(s) && Conserving(s) && Enabled(s, t, a) && !Misled(s, t)
    requires SomeoneIdle(Do(s, t, a)) && c < |Do(s, t, a).q|
    ensures Covered(Do(s, t, a), c)
  {
    SameQueues(s, t, a);
    if SomeoneIdle(s) {
      KeepCovered(s, t, a, c);
    } else {
      BecomesIdle(s, t, a);
      EmptyBitmap(s, t, c);
      OthersCovered(s, t, a, c);
    }
  }

  lemma SameQueues(s: State, t: nat, a: Action)
    requires Enabled(s, t, a)
    ensures |Do(s, t, a).q| == |s.q|
  {
  }

  // ---- runs ----

  /** No pull of the run is misled. */
  ghost predicate Orderly(s: State, run: seq<Step>)
    decreases |run|
  {
    run == [] ||
    (Enabled(s, run[0].t, run[0].a) && !Misled(s, run[0].t) && Orderly(Do(s, run[0].t, run[0].a), run[1..]))
  }

  /** Every state of the run conserves work. */
  ghost predicate AlwaysConserving(s: State, run: seq<Step>)
    decreases |run|
  {
    Conserving(s) &&
    (run == [] || (Enabled(s, run[0].t, run[0].a) && AlwaysConserving(Do(s, run[0].t, run[0].a), run[1..])))
  }

  /** Work is conserved all along a run exactly when none of its pulls is misled. */
  lemma {:induction false} RunConservesIff(s: State, run: seq<Step>, s': State)
    requires Inv(s) && Conserving(s) && Leads(s, run, s')
    ensures AlwaysConserving(s, run) <==> Orderly(s, run)
    decreases |run|
  {
    if run != [] {
      var m := Do(s, run[0].t, run[0].a);
      StepInv(s, run[0].t, run[0].a);
      StepConservesIff(s, run[0].t, run[0].a);
      if Conserving(m) {
        RunConservesIff(m, run[1..], s');
      }
    }
  }

  lemma {:induction false} EndConserving(s: State, run: seq<Step>, s': State)
    requires Leads(s, run, s') && AlwaysConserving(s, run)
    ensures Conserving(s')
    decreases |run|
  {
    if run != [] {
      EndConserving(Do(s, run[0].t, run[0].a), run[1..], s');
    }
  }

  lemma NotStranded(s: State)
    requires Conserving(s)
    ensures !Stranded(s)
  {
    if s.waiters != [] && forall t :: 0 <= t < |s.pcs| ==> s.pcs[t].Idle? {
      forall c | 0 <= c < |s.q| ensures s.q[c] == [] { assert Covered(s, c); }
    }
  }

  /** From the initial state, for any number of sockets and threads: a run without a misled pull
      strands nothing. */
  lemma OrderlyConserves(n: nat, threads: nat, run: seq<Step>, s: State)
    requires Leads(Init(n, threads), run, s) && Orderly(Init(n, threads), run)
    ensures !Stranded(s)
  {
    InitInv(n, threads);
    RunConservesIff(Init(n, threads), run, s);
    EndConserving(Init(n, threads), run, s);
    NotStranded(s);
  }

  // ---- which configurations are safe ----

  /** One thread at a time is never misled. */
  lemma {:induction false} SerialIsOrderly(s: State, run: seq<Step>, s': State)
    requires |s.pcs| <= 1 && Leads(s, run, s')
    ensures Orderly(s, run)
    decreases |run|
  {
    if run != [] {
      SerialIsOrderly(Do(s, run[0].t, run[0].a), run[1..], s');
    }
  }

  lemma {:induction false} NoQueues(s: State, run: seq<Step>, s': State)
    requires |s.q| == 0 && Leads(s, run, s')
    ensures |s'.q| == 0
    decreases |run|
  {
    if run != [] {
      SameQueues(s, run[0].t, run[0].a);
      NoQueues(Do(s, run[0].t, run[0].a), run[1..], s');
    }
  }

  ghost predicate NeverStrands(n: nat, threads: nat) {
    forall s :: ReachableWith(n, threads, s) ==> !Stranded(s)
  }

  /** No run strands a message exactly when there is no socket, or operations run one at a time. */
  lemma NeverStrandsIff(n: nat, threads: nat)
    ensures NeverStrands(n, threads) <==> n == 0 || threads <= 1
  {
    if n >= 1 && threads >= 2 {
      var s := MessageStranded(n, threads);
    } else {
      forall s | ReachableWith(n, threads, s) ensures !Stranded(s) {
        var run :| Leads(Init(n, threads), run, s);
        if n == 0 {
          NoQueues(Init(n, threads), run, s);
        } else {
          SerialIsOrderly(Init(n, threads), run, s);
          OrderlyConserves(n, threads, run, s);
        }
      }
    }
  }
}
