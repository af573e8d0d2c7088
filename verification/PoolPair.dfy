/** One worker and one I/O thread of the pool server (bench/servers/common-linux-pool.c) never lose sight of
    a completion: between the two of them the io_pending flag is enough. */
module PoolPair {
  import opened Options
  import opened PoolConn
  import opened PoolWatch

  ghost predicate SomeLooking(pcs: seq<PC>) { exists u :: 0 <= u < |pcs| && Looking(pcs[u]) }

  /** Watched by the flag and the threads alone. */
  ghost predicate Noticed(s: State) { Waits(s) ==> SomeLooking(s.pcs) }

  /** Owner past the draining of the inbox. */
  predicate Past(pc: PC) { Owns(pc) && !Looking(pc) }

  /** Leaving: about to try to become owner, or to find out whether to. */
  predicate Leaving(pc: PC) { Trying(pc) || pc.OAfter? }

  /** With two threads, what one finds in its way out or in was put there by itself. */
  ghost predicate ApartOk(s: State) {
    |s.pcs| <= 2 &&
    forall t, u :: 0 <= t < |s.pcs| && 0 <= u < |s.pcs| && Past(s.pcs[u]) && Leaving(s.pcs[t]) ==>
      s.closed || s.inbox == [] || (s.pending && !s.pcs[t].OTry? && !s.pcs[t].OAfter?)
  }

  ghost predicate PairDiscipline(s: State, pc: PC, e: Effect, pc': PC) {
    && (Past(pc') ==> Past(pc) || e.TakeInbox? || e.SetClosed? || s.closed)
    && (Past(pc') && e == Pending(false) ==> !s.pending)
    && (Leaving(pc') ==>
          (e == Pending(true) && !pc'.OTry? && !pc'.OAfter?) || pc.OAfter? || (Owns(pc) && e.Disown?))
    && (e == Pending(false) && !Past(pc') ==> pc.OAfter? || Owns(pc))
    && (e.Push? ==> Looking(pc') && !Past(pc') && !Leaving(pc') && !Past(pc))
  }

  ghost predicate NoticeDiscipline(s: State, pc: PC, e: Effect, pc': PC) {
    && (e.Push? ==> Looking(pc'))
    && (e == Pending(false) ==> Looking(pc') || (!s.pending && !Looking(pc)))
    && (Looking(pc) && !Looking(pc') ==>
          e.TakeInbox? || e == Pending(true) || e.SetClosed? || s.closed || (Trying(pc) && s.owner.Some?))
  }

  lemma ProgramPairOwner(s: State, t: nat, a: Action)
    requires Enabled(s, t, a) && Owns(s.pcs[t]) && !Closing(s.pcs[t]) && (!s.open ==> s.closed)
    ensures PairDiscipline(s, s.pcs[t], Program(s, t, a).0, Program(s, t, a).1)
    ensures NoticeDiscipline(s, s.pcs[t], Program(s, t, a).0, Program(s, t, a).1)
  {
  }

  lemma ProgramPairCloser(s: State, t: nat, a: Action)
    requires Enabled(s, t, a) && Closing(s.pcs[t])
    ensures PairDiscipline(s, s.pcs[t], Program(s, t, a).0, Program(s, t, a).1)
    ensures NoticeDiscipline(s, s.pcs[t], Program(s, t, a).0, Program(s, t, a).1)
  {
  }

  lemma ProgramPairWorking(s: State, t: nat, a: Action)
    requires Enabled(s, t, a) && Working(s.pcs[t])
    ensures PairDiscipline(s, s.pcs[t], Program(s, t, a).0, Program(s, t, a).1)
    ensures NoticeDiscipline(s, s.pcs[t], Program(s, t, a).0, Program(s, t, a).1)
  {
  }

  lemma ProgramPairOther(s: State, t: nat, a: Action)
    requires Enabled(s, t, a) && !Owns(s.pcs[t]) && !Working(s.pcs[t])
    ensures PairDiscipline(s, s.pcs[t], Program(s, t, a).0, Program(s, t, a).1)
    ensures NoticeDiscipline(s, s.pcs[t], Program(s, t, a).0, Program(s, t, a).1)
  {
  }

  lemma ProgramPair(s: State, t: nat, a: Action)
    requires Enabled(s, t, a) && (!s.open ==> s.closed)
    ensures PairDiscipline(s, s.pcs[t], Program(s, t, a).0, Program(s, t, a).1)
    ensures NoticeDiscipline(s, s.pcs[t], Program(s, t, a).0, Program(s, t, a).1)
  {
    if Closing(s.pcs[t]) {
      ProgramPairCloser(s, t, a);
    } else if Owns(s.pcs[t]) {
      ProgramPairOwner(s, t, a);
    } else if Working(s.pcs[t]) {
      ProgramPairWorking(s, t, a);
    } else {
      ProgramPairOther(s, t, a);
    }
  }

  lemma KeepApart(s: State, t: nat, e: Effect, pc': PC, s': State)
    requires ApartOk(s) && OwnerOk(s) && OwnerOk(s') && Moves(s, t, e, pc', s')
    requires PairDiscipline(s, s.pcs[t], e, pc')
    ensures ApartOk(s')
  {
  }

  lemma KeepNoticed(s: State, t: nat, e: Effect, pc': PC, s': State)
    requires ApartOk(s) && Noticed(s) && OwnerOk(s) && Moves(s, t, e, pc', s')
    requires NoticeDiscipline(s, s.pcs[t], e, pc')
    ensures Noticed(s')
  {
    if Waits(s') {
      if Looking(pc') {
        assert Looking(s'.pcs[t]);
      } else {
        var u := StaysNoticed(s, t, e, pc', s');
        assert s'.pcs[u] == s.pcs[u];
      }
    }
  }

  /** The other thread knows, too. */
  lemma StaysNoticed(s: State, t: nat, e: Effect, pc': PC, s': State) returns (u: nat)
    requires ApartOk(s) && Noticed(s) && OwnerOk(s) && Moves(s, t, e, pc', s')
    requires NoticeDiscipline(s, s.pcs[t], e, pc') && Waits(s') && !Looking(pc')
    ensures u < |s.pcs| && u != t && Looking(s.pcs[u])
  {
    assert Waits(s);
    if Trying(s.pcs[t]) && s.owner.Some? {
      u := s.owner.value;
      assert Leaving(s.pcs[t]) && !Past(s.pcs[u]);
    } else {
      u :| 0 <= u < |s.pcs| && Looking(s.pcs[u]);
    }
  }

  /** With at most two threads, every completion is noticed in every state of every run. */
  lemma {:induction false} PairNotices(s: State, run: seq<Step>, s': State)
    requires Inv(s) && ApartOk(s) && Noticed(s) && Leads(s, run, s')
    ensures Noticed(s') && Watched(s')
    decreases |run|
  {
    if run == [] {
      NoticedWatched(s);
    } else {
      var t, a := run[0].t, run[0].a;
      var (e, pc') := Program(s, t, a);
      StepInv(s, t, a);
      StepFits(s, t, a);
      ProgramPair(s, t, a);
      KeepApart(s, t, e, pc', Do(s, t, a));
      KeepNoticed(s, t, e, pc', Do(s, t, a));
      PairNotices(Do(s, t, a), run[1..], s');
    }
  }

  lemma NoticedWatched(s: State)
    requires Noticed(s)
    ensures Watched(s)
  {
    if SomeLooking(s.pcs) {
      var u :| 0 <= u < |s.pcs| && Looking(s.pcs[u]);
      assert Minding(s.pcs[u]);
    }
  }

  // ---- workers only, or I/O threads only ----

  /** Nothing is received, or nothing is worked on. */
  ghost predicate OneKind(s: State) {
    && s.inbox == [] && (s.ios == 0 || s.ios >= |s.pcs|)
    && (s.ios == 0 ==> s.loc == [] && forall t :: 0 <= t < |s.pcs| ==> s.pcs[t] == Idle)
    && forall t :: 0 <= t < |s.pcs| ==> !s.pcs[t].WJob? && !s.pcs[t].WLoad? && !s.pcs[t].WCas?
  }

  lemma StepOneKind(s: State, t: nat, a: Action)
    requires OneKind(s) && Enabled(s, t, a)
    ensures OneKind(Do(s, t, a))
  {
  }

  lemma {:induction false} RunOneKind(s: State, run: seq<Step>, s': State)
    requires OneKind(s) && Leads(s, run, s')
    ensures s'.inbox == []
    decreases |run|
  {
    if run != [] {
      StepOneKind(s, run[0].t, run[0].a);
      RunOneKind(Do(s, run[0].t, run[0].a), run[1..], s');
    }
  }
}
