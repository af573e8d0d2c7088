/** Who knows of a completion in the inbox of an open connection of the pool server
    (bench/servers/common-linux-pool.c): the io_pending flag is set, epoll is to report EPOLLOUT, or some
    thread is on its way to the inbox or to either of these. The last thread to know may miss it. */
module PoolWatch {
  import opened Options
  import opened PoolConn

  /** About to try to become owner. */
  predicate Trying(pc: PC) { pc.WTry? || pc.ETry? || pc.OTry? }

  /** On the way to the inbox, to setting the flag, or to closing the connection. */
  predicate Looking(pc: PC) {
    Trying(pc) || pc.WCheck? || pc.WPend? || pc.EPend? || pc.EErr? || pc.OClear? || pc.ODrain? || pc.OClose?
  }

  /** The same, or on the way to asking for EPOLLOUT. */
  predicate Minding(pc: PC) { Looking(pc) || pc.WArm? || (pc.OArm? && pc.want) }

  ghost predicate SomeMinding(pcs: seq<PC>) { exists u :: 0 <= u < |pcs| && Minding(pcs[u]) }

  ghost predicate Waits(s: State) { !s.closed && s.inbox != [] && !s.pending }

  /** No completion waits unnoticed. */
  ghost predicate Watched(s: State) { Waits(s) && !s.out ==> SomeMinding(s.pcs) }

  /** At pc a thread is about to turn away without a trace: it fails to become owner, it relies on a flag
      that says EPOLLOUT is asked for when it is not, or it gives EPOLLOUT up. */
  predicate Misses(s: State, pc: PC) {
    match pc
    case ETry => s.owner.Some? && !s.out
    case OTry(once) => !once && s.owner.Some? && !s.out
    case WArm(step) => step.LoadArmed? && s.armed && !s.out
    case OArm(_, want, step) => if want then step.LoadArmed? && s.armed && !s.out else step.Ctl? && s.open
    case _ => false
  }

  /** Thread t is about to turn away and is the last one to know of a completion. */
  ghost predicate Loses(s: State, t: nat) {
    && t < |s.pcs| && Misses(s, s.pcs[t]) && Waits(s)
    && forall u :: 0 <= u < |s.pcs| && u != t ==> !Minding(s.pcs[u])
  }

  // ---- one step ----

  /** How a step treats the flags, the inbox and the threads on their way. */
  ghost predicate WatchDiscipline(s: State, pc: PC, e: Effect, pc': PC) {
    && (e.Push? ==> Minding(pc'))
    && (e == Pending(false) ==> Minding(pc') || (!s.pending && !Minding(pc)))
    && (e == SetOut(false) && s.open ==> Misses(s, pc))
    && (e == SetOut(true) ==> s.open || s.closed)
    && (Minding(pc) && !Minding(pc') ==>
          e.TakeInbox? || e == Pending(true) || e == SetOut(true) || e.SetClosed? || s.closed || s.out || Misses(s, pc))
    && (Misses(s, pc) ==> !Minding(pc') && (if pc.OArm? && !pc.want then e == SetOut(false) && s.open else e.Nothing?))
    && (e.TakeInbox? && !s.closed ==> pc.ODrain?)
  }

  lemma ProgramWatchOwner(s: State, t: nat, a: Action)
    requires Enabled(s, t, a) && (!s.open ==> s.closed) && Owns(s.pcs[t]) && !Closing(s.pcs[t])
    ensures WatchDiscipline(s, s.pcs[t], Program(s, t, a).0, Program(s, t, a).1)
  {
  }

  lemma ProgramWatchCloser(s: State, t: nat, a: Action)
    requires Enabled(s, t, a) && s.closed && Closing(s.pcs[t])
    ensures WatchDiscipline(s, s.pcs[t], Program(s, t, a).0, Program(s, t, a).1)
  {
  }

  lemma ProgramWatchOther(s: State, t: nat, a: Action)
    requires Enabled(s, t, a) && (!s.open ==> s.closed) && !Owns(s.pcs[t]) && (s.pcs[t].WStale? ==> s.closed)
    ensures WatchDiscipline(s, s.pcs[t], Program(s, t, a).0, Program(s, t, a).1)
  {
  }

  lemma ProgramWatch(s: State, t: nat, a: Action)
    requires OwnerOk(s) && ClosedOk(s) && Enabled(s, t, a)
    ensures WatchDiscipline(s, s.pcs[t], Program(s, t, a).0, Program(s, t, a).1)
  {
    if Closing(s.pcs[t]) {
      assert OwnerPC(s) == s.pcs[t];
      ProgramWatchCloser(s, t, a);
    } else if Owns(s.pcs[t]) {
      ProgramWatchOwner(s, t, a);
    } else {
      ProgramWatchOther(s, t, a);
    }
  }

  /** A disciplined step keeps completions watched exactly unless it is a losing one. */
  lemma WatchIff(s: State, t: nat, e: Effect, pc': PC, s': State)
    requires Watched(s) && Moves(s, t, e, pc', s') && WatchDiscipline(s, s.pcs[t], e, pc')
    ensures Watched(s') <==> !Loses(s, t)
  {
    if Loses(s, t) {
      assert forall u :: 0 <= u < |s'.pcs| ==> !Minding(s'.pcs[u]);
    } else if Waits(s') && !s'.out {
      if Minding(pc') {
        assert Minding(s'.pcs[t]);
      } else {
        var u := Stays(s, t, e, pc', s');
        assert s'.pcs[u] == s.pcs[u];
      }
    }
  }

  /** Somebody else keeps the completion in mind. */
  lemma Stays(s: State, t: nat, e: Effect, pc': PC, s': State) returns (u: nat)
    requires Watched(s) && Moves(s, t, e, pc', s') && WatchDiscipline(s, s.pcs[t], e, pc')
    requires !Loses(s, t) && Waits(s') && !s'.out && !Minding(pc')
    ensures u < |s.pcs| && u != t && Minding(s.pcs[u])
  {
    assert Waits(s);
    if Misses(s, s.pcs[t]) {
      u :| 0 <= u < |s.pcs| && u != t && Minding(s.pcs[u]);
    } else {
      u :| 0 <= u < |s.pcs| && Minding(s.pcs[u]);
    }
  }

  /** A step leaves completions watched exactly unless the last thread to know turns away with it. */
  lemma StepWatchedIff(s: State, t: nat, a: Action)
    requires Inv(s) && Watched(s) && Enabled(s, t, a)
    ensures Watched(Do(s, t, a)) <==> !Loses(s, t)
  {
    var (e, pc') := Program(s, t, a);
    ProgramWatch(s, t, a);
    StepFits(s, t, a);
    WatchIff(s, t, e, pc', Do(s, t, a));
  }

  // ---- whole runs ----

  /** No step of the run is a losing one. */
  ghost predicate Attentive(s: State, run: seq<Step>)
    decreases |run|
  {
    run == [] ||
    (Enabled(s, run[0].t, run[0].a) && !Loses(s, run[0].t) && Attentive(Do(s, run[0].t, run[0].a), run[1..]))
  }

  ghost predicate AlwaysWatched(s: State, run: seq<Step>)
    decreases |run|
  {
    Watched(s) &&
    (run == [] || (Enabled(s, run[0].t, run[0].a) && AlwaysWatched(Do(s, run[0].t, run[0].a), run[1..])))
  }

  /** Completions are watched all along a run exactly when the last thread to know never turns away. */
  lemma {:induction false} RunWatchedIff(s: State, run: seq<Step>, s': State)
    requires Inv(s) && Watched(s) && Leads(s, run, s')
    ensures AlwaysWatched(s, run) <==> Attentive(s, run)
    decreases |run|
  {
    if run != [] {
      var m := Do(s, run[0].t, run[0].a);
      StepInv(s, run[0].t, run[0].a);
      StepWatchedIff(s, run[0].t, run[0].a);
      if Watched(m) {
        RunWatchedIff(m, run[1..], s');
      }
    }
  }

  // ---- what a lost completion waits for ----

  /** Wakes the connection up: an event, a broken or full socket, or another completion. */
  predicate Wakes(a: Action, e: Effect) { a.Event? || a.ErrorEvent? || a.Broken? || a.Blocked? || e.Push? }

  /** What a step that wakes nobody does not do. */
  ghost predicate Asleep(s: State, e: Effect, pc': PC) {
    !Minding(pc') && !e.TakeInbox? && !e.Push? && !e.SetClosed? && e != Pending(true) && e != SetOut(true)
  }

  lemma ProgramAsleepOwner(s: State, t: nat, a: Action)
    requires Enabled(s, t, a) && Waits(s) && s.open && Owns(s.pcs[t]) && !Closing(s.pcs[t]) && !Minding(s.pcs[t])
    requires !Wakes(a, Program(s, t, a).0)
    ensures Asleep(s, Program(s, t, a).0, Program(s, t, a).1)
  {
  }

  lemma ProgramAsleepOther(s: State, t: nat, a: Action)
    requires Enabled(s, t, a) && Waits(s) && !Owns(s.pcs[t]) && !Minding(s.pcs[t]) && !s.pcs[t].WStale?
    requires !Wakes(a, Program(s, t, a).0)
    ensures Asleep(s, Program(s, t, a).0, Program(s, t, a).1)
  {
  }

  /** An unwatched completion stays where it is, unwatched, until something wakes the connection up. */
  lemma UnwatchedStays(s: State, t: nat, a: Action)
    requires Inv(s) && !Watched(s) && Enabled(s, t, a) && !Wakes(a, Program(s, t, a).0)
    ensures !Watched(Do(s, t, a)) && Do(s, t, a).inbox == s.inbox
  {
    var s' := Do(s, t, a);
    assert !Minding(s.pcs[t]);
    if Owns(s.pcs[t]) {
      assert OwnerPC(s) == s.pcs[t];
      ProgramAsleepOwner(s, t, a);
    } else {
      ProgramAsleepOther(s, t, a);
    }
    assert forall u :: 0 <= u < |s'.pcs| ==> !Minding(s'.pcs[u]);
  }
}
