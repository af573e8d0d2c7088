/** Work conservation does not survive interleaving. The bit of a queue is set after the waiter
    list has been unlocked (rakaia/plain-tcp/rakaiasock.c:257-260), so a socket can go idle in
    between and stay idle while a message is queued. This happens with any number of sockets and
    with two threads or more. */
module SchedulerRace {
  import opened Options
  import opened WaiterList
  import opened SchedulerSteps

  // ---- runs that use queue 0 and the threads 0 and 1 only ----

  /** Where threads 0 and 1 are, queue 0 with its lock and bit, the waiter list and its lock. */
  datatype View = View(p: PC, u: PC, q: seq<Msg>, ql: Option<nat>, b: bool, waiters: seq<nat>, wl: Option<nat>)

  /** s looks like v, and is idle and empty elsewhere. */
  ghost predicate Has(s: State, v: View) {
    && |s.pcs| >= 2 && s.pcs[0] == v.p && s.pcs[1] == v.u && (forall t :: 2 <= t < |s.pcs| ==> s.pcs[t].Idle?)
    && |s.q| >= 1 && |s.qlock| == |s.q| && |s.bit| == |s.q|
    && s.q[0] == v.q && s.qlock[0] == v.ql && s.bit[0] == v.b
    && (forall c :: 1 <= c < |s.q| ==> s.q[c] == [] && s.qlock[c].None? && !s.bit[c])
    && s.waiters == v.waiters && s.wlock == v.wl
  }

  /** Queue effects are on queue 0. */
  predicate OnZero(e: Effect) {
    e.LockQ? || e.UnlockQ? || e.Enqueue? || e.Dequeue? || e.Bit? ==> e.c == 0
  }

  function ApplyView(v: View, t: nat, e: Effect, pc: PC): View {
    var w := if t == 0 then v.(p := pc) else v.(u := pc);
    match e
    case LockQ(_) => w.(ql := Some(t))
    case UnlockQ(_) => w.(ql := None)
    case LockW => w.(wl := Some(t))
    case UnlockW => w.(wl := None)
    case Enqueue(_, m) => w.(q := w.q + [m])
    case Dequeue(_) => if w.q == [] then w else w.(q := w.q[1..])
    case Bit(_, on) => w.(b := on)
    case Unlink(k) => w.(waiters := Without(w.waiters, k))
    case Link(k) => w.(waiters := w.waiters + [k])
    case _ => w
  }

  lemma KeepHas(s: State, t: nat, e: Effect, pc': PC, s': State, v: View)
    requires Moves(s, t, e, pc', s') && Has(s, v) && OnZero(e) && t < 2
    ensures Has(s', ApplyView(v, t, e, pc'))
  {
  }

  const GO := Go(0, true)

  /** The smallest state that looks like v, message numbers aside. */
  function Canon(v: View): State {
    State([v.q], [v.ql], [v.b], v.waiters, [0 in v.waiters], v.wl, [[]], [v.p, v.u], [[]], [[]], [])
  }

  /** The queue or socket that the thread looks at next is 0. */
  predicate AtZero(pc: PC) {
    !pc.Idle? && if HoldsQ(pc).Some? then HoldsQ(pc).value == 0 else pc.Give? || InRange(pc, 1)
  }

  /** Thread t has in s what it reads of the shared state in Canon(v). */
  lemma SameReads(s: State, v: View, t: nat)
    requires Inv(s) && Has(s, v) && t < 2
    ensures Queue(s, 0) == v.q && (NoBits(s) <==> !v.b) && s.waiters == v.waiters
    ensures s.pcs[t].PushPick? || s.pcs[t].PullCheck? ==> (IsWaiting(s, 0) <==> 0 in v.waiters)
  {
    if s.pcs[t].PushPick? || s.pcs[t].PullCheck? {
      assert s.wlock == Some(t);
    }
    if !v.b {
      forall i | 0 <= i < |s.bit| ensures !s.bit[i] {
        if i > 0 { assert s.q[i] == []; }
      }
    }
  }

  lemma SameProgram(s: State, v: View, t: nat)
    requires Has(s, v) && t < 2 && AtZero(s.pcs[t]) && Enabled(Canon(v), t, GO)
    requires Queue(s, 0) == v.q && (NoBits(s) <==> !v.b)
    requires s.pcs[t].PushPick? || s.pcs[t].PullCheck? ==> (IsWaiting(s, 0) <==> 0 in v.waiters)
    ensures Enabled(s, t, GO) && Program(s, t, GO) == Program(Canon(v), t, GO)
  {
    if v.b { assert Canon(v).bit[0]; }
  }

  /** A set of states with the invariant that no step leaves. */
  ghost predicate Closed(reach: State -> bool) {
    && (forall s :: reach(s) ==> Inv(s))
    && (forall s, t, a :: reach(s) && Enabled(s, t, a) ==> reach(Do(s, t, a)))
  }

  ghost predicate Can(reach: State -> bool, v: View) { exists s :: reach(s) && Has(s, v) }

  /** v after a step of thread t. */
  function Next(v: View, t: nat): View
    requires Enabled(Canon(v), t, GO)
  {
    var (e, pc) := Program(Canon(v), t, GO);
    ApplyView(v, t, e, pc)
  }

  /** Thread t takes v to v', touching queue 0 only. */
  ghost predicate Moved(v: View, t: nat, v': View) {
    && t < 2 && AtZero(if t == 0 then v.p else v.u)
    && Enabled(Canon(v), t, GO) && OnZero(Program(Canon(v), t, GO).0) && v' == Next(v, t)
  }

  lemma StepView(reach: State -> bool, v: View, t: nat, v': View)
    requires Closed(reach) && Can(reach, v) && Moved(v, t, v')
    ensures Can(reach, v')
  {
    var s :| reach(s) && Has(s, v);
    var (e, pc') := Program(Canon(v), t, GO);
    SameReads(s, v, t);
    SameProgram(s, v, t);
    StepReady(s, t);
    ProgramFits(s, t, GO);
    KeepHas(s, t, e, pc', Do(s, t, GO), v);
  }

  /** Thread 0 begins to push a message to queue 0. */
  lemma BeginPushView(reach: State -> bool, v: View)
    requires Closed(reach) && Can(reach, v) && v.p == Idle
    ensures exists m :: Can(reach, v.(p := PushLock(m, 0)))
  {
    var s :| reach(s) && Has(s, v);
    var m := |s.loc|;
    KeepHas(s, 0, NewMsg, PushLock(m, 0), Do(s, 0, BeginPush(0)), v);
    assert Can(reach, v.(p := PushLock(m, 0)));
  }

  /** Thread 1 begins to pull for socket 0. */
  lemma BeginPullView(reach: State -> bool, v: View)
    requires Closed(reach) && Can(reach, v) && v.u == Idle
    ensures Can(reach, v.(u := PullLock(0)))
  {
    var s :| reach(s) && Has(s, v);
    KeepHas(s, 1, Nothing, PullLock(0), Do(s, 1, BeginPull(0)), v);
  }

  /** A set of views that no step leaves. */
  ghost predicate Stepping(can: View -> bool) {
    forall v, t, v' :: can(v) && Moved(v, t, v') ==> can(v')
  }

  /** Threads may begin to push and to pull. */
  ghost predicate Beginning(can: View -> bool) {
    && (forall v :: can(v) && v.p == Idle ==> exists m :: can(v.(p := PushLock(m, 0))))
    && (forall v :: can(v) && v.u == Idle ==> can(v.(u := PullLock(0))))
  }

  lemma ReachedViews(reach: State -> bool)
    requires Closed(reach)
    ensures Stepping(v => Can(reach, v)) && Beginning(v => Can(reach, v))
  {
    var can := v => Can(reach, v);
    forall v, t, v' | can(v) && Moved(v, t, v') ensures can(v') { StepView(reach, v, t, v'); }
    forall v | can(v) && v.p == Idle ensures exists m :: can(v.(p := PushLock(m, 0))) {
      BeginPushView(reach, v);
      var m :| Can(reach, v.(p := PushLock(m, 0)));
      assert can(v.(p := PushLock(m, 0)));
    }
    forall v | can(v) && v.u == Idle ensures can(v.(u := PullLock(0))) { BeginPullView(reach, v); }
  }

  /** Nothing is queued or under way. */
  function Rest(ws: seq<nat>): View { View(Idle, Idle, [], None, false, ws, None) }

  // ---- every push while somebody waits takes one socket off the list ----

  lemma PushBegins(can: View -> bool, v: View) returns (m: Msg)
    requires Beginning(can) && can(v) && v.p == Idle
    ensures can(v.(p := PushLock(m, 0)))
  {
    m :| can(v.(p := PushLock(m, 0)));
  }

  lemma PushLocks(can: View -> bool, v: View, m: Msg)
    requires Stepping(can) && can(v) && v.p == PushLock(m, 0) && v.q == [] && v.ql == None && !v.b
    ensures can(v.(p := PushWLock(m, 0), ql := Some(0)))
  {
    var v1 := v.(p := PushIn(m, 0), ql := Some(0));
    assert Moved(v, 0, v1);
    assert Moved(v1, 0, v1.(p := PushWLock(m, 0)));
  }

  lemma PushAppends(can: View -> bool, v: View, m: Msg)
    requires Stepping(can) && can(v) && v.p == PushWLock(m, 0) && v.q == [] && v.ql == Some(0) && !v.b && v.wl == None
    ensures can(v.(p := PushPick(0), q := [m], wl := Some(0)))
  {
    var v1 := v.(p := PushTake(m, 0), wl := Some(0));
    assert Moved(v, 0, v1);
    assert Moved(v1, 0, v1.(p := PushPick(0), q := [m]));
  }

  lemma PushUpToPick(can: View -> bool, v: View) returns (m: Msg)
    requires Stepping(can) && Beginning(can) && can(v) && v == Rest(v.waiters).(u := v.u)
    ensures can(v.(p := PushPick(0), q := [m], ql := Some(0), wl := Some(0)))
  {
    m := PushBegins(can, v);
    PushLocks(can, v.(p := PushLock(m, 0)), m);
    PushAppends(can, v.(p := PushWLock(m, 0), ql := Some(0)), m);
  }

  /** The socket that a push to queue 0 finds. */
  function Chosen(ws: seq<nat>): nat
    requires ws != []
  {
    if 0 in ws then 0 else ws[0]
  }

  lemma PushPicks(can: View -> bool, v: View, w: nat)
    requires Stepping(can) && can(v) && v.p == PushPick(0) && v.waiters != [] && w == Chosen(v.waiters)
    ensures can(v.(p := PushClear(0, w), waiters := Without(v.waiters, w)))
  {
    assert Moved(v, 0, v.(p := PushClear(0, w), waiters := Without(v.waiters, w)));
  }

  lemma PushClears(can: View -> bool, v: View, w: nat)
    requires Stepping(can) && can(v) && v.p == PushClear(0, w)
    ensures can(v.(p := PushDeq(0, w), wl := None))
  {
    var v1 := v.(p := PushWUnlock(0, Some(w)));
    assert Moved(v, 0, v1);
    assert Moved(v1, 0, v1.(p := PushDeq(0, w), wl := None));
  }

  lemma PushTakesBack(can: View -> bool, v: View, m: Msg, w: nat)
    requires Stepping(can) && can(v) && v.p == PushDeq(0, w) && v.q == [m]
    ensures can(v.(p := UnlockGive(0, w, m), q := [], b := false))
  {
    var v1 := v.(p := PushFix(0, w, m), q := []);
    assert Moved(v, 0, v1);
    assert Moved(v1, 0, v1.(p := UnlockGive(0, w, m), b := false));
  }

  lemma PushGives(can: View -> bool, v: View, m: Msg, w: nat)
    requires Stepping(can) && can(v) && v.p == UnlockGive(0, w, m)
    ensures can(v.(p := Idle, ql := None))
  {
    var v1 := v.(p := Give(w, m), ql := None);
    assert Moved(v, 0, v1);
    assert Moved(v1, 0, v1.(p := Idle));
  }

  lemma PushHandsOver(can: View -> bool, ws: seq<nat>)
    requires Stepping(can) && Beginning(can) && can(Rest(ws)) && ws != []
    ensures can(Rest(Without(ws, Chosen(ws))))
  {
    var w := Chosen(ws);
    var m := PushUpToPick(can, Rest(ws));
    var v := View(PushPick(0), Idle, [m], Some(0), false, ws, Some(0));
    PushPicks(can, v, w);
    PushClears(can, v.(p := PushClear(0, w), waiters := Without(ws, w)), w);
    PushTakesBack(can, v.(p := PushDeq(0, w), waiters := Without(ws, w), wl := None), m, w);
    PushGives(can, Rest(Without(ws, w)).(p := UnlockGive(0, w, m), ql := Some(0)), m, w);
  }

  lemma {:induction false} WithoutShorter(ws: seq<nat>, w: nat)
    requires w in ws
    ensures |Without(ws, w)| == |ws| - 1
  {
    if ws[0] != w {
      WithoutShorter(ws[1..], w);
    }
  }

  lemma {:induction false} DrainBy(rest: seq<nat> -> bool, ws: seq<nat>)
    requires rest(ws) && forall w :: rest(w) && w != [] ==> rest(Without(w, Chosen(w)))
    ensures rest([])
    decreases |ws|
  {
    if ws != [] {
      WithoutShorter(ws, Chosen(ws));
      DrainBy(rest, Without(ws, Chosen(ws)));
    }
  }

  lemma Drain(can: View -> bool, ws: seq<nat>)
    requires Stepping(can) && Beginning(can) && can(Rest(ws))
    ensures can(Rest([]))
  {
    forall w | can(Rest(w)) && w != [] ensures can(Rest(Without(w, Chosen(w)))) { PushHandsOver(can, w); }
    DrainBy(w => can(Rest(w)), ws);
  }

  // ---- the race ----

  lemma PullBegins(can: View -> bool)
    requires Beginning(can) && can(Rest([]))
    ensures can(Rest([]).(u := PullLock(0)))
  {
  }

  /** Socket 0 pulls and finds its queue empty. */
  lemma PullLocks(can: View -> bool, v: View)
    requires Stepping(can) && can(v) && v.u == PullLock(0) && v.q == [] && v.ql == None
    ensures can(v.(u := PullUnlock(0), ql := Some(1)))
  {
    var v1 := v.(u := PullDeq(0), ql := Some(1));
    assert Moved(v, 1, v1);
    assert Moved(v1, 1, v1.(u := PullUnlock(0)));
  }

  lemma PullUnlocks(can: View -> bool, v: View)
    requires Stepping(can) && can(v) && v.u == PullUnlock(0)
    ensures can(v.(u := StealLook(0), ql := None))
  {
    assert Moved(v, 1, v.(u := StealLook(0), ql := None));
  }

  lemma PullFindsNothing(can: View -> bool)
    requires Stepping(can) && Beginning(can) && can(Rest([]))
    ensures can(Rest([]).(u := StealLook(0)))
  {
    PullBegins(can);
    PullLocks(can, Rest([]).(u := PullLock(0)));
    PullUnlocks(can, Rest([]).(u := PullUnlock(0), ql := Some(1)));
  }

  /** A push finds nobody idle and unlocks the list. */
  lemma PushFindsNobody(can: View -> bool, v: View)
    requires Stepping(can) && can(v) && v.p == PushPick(0) && v.waiters == []
    ensures can(v.(p := PushBit(0), wl := None))
  {
    var v1 := v.(p := PushWUnlock(0, None));
    assert Moved(v, 0, v1);
    assert Moved(v1, 0, v1.(p := PushBit(0), wl := None));
  }

  /** The socket sees an empty bitmap ... */
  lemma PullLooks(can: View -> bool, v: View)
    requires Stepping(can) && can(v) && v.u == StealLook(0) && !v.b && v.wl == None
    ensures can(v.(u := PullCheck(0), wl := Some(1)))
  {
    var v1 := v.(u := PullWLock(0));
    assert Moved(v, 1, v1);
    assert Moved(v1, 1, v1.(u := PullCheck(0), wl := Some(1)));
  }

  lemma PullChecks(can: View -> bool, v: View)
    requires Stepping(can) && can(v) && v.u == PullCheck(0) && !v.b && v.waiters == []
    ensures can(v.(u := PullAdd(0)))
  {
    assert Moved(v, 1, v.(u := PullAdd(0)));
  }

  /** ... and goes idle. */
  lemma PullGoesIdle(can: View -> bool, v: View)
    requires Stepping(can) && can(v) && v.u == PullAdd(0)
    ensures can(v.(u := Idle, waiters := v.waiters + [0], wl := None))
  {
    var v1 := v.(u := PullWUnlock(0, false), waiters := v.waiters + [0]);
    assert Moved(v, 1, v1);
    assert Moved(v1, 1, v1.(u := Idle, wl := None));
  }

  /** The push sets its bit and is done. */
  lemma PushEnds(can: View -> bool, v: View)
    requires Stepping(can) && can(v) && v.p == PushBit(0)
    ensures can(v.(p := Idle, ql := None, b := true))
  {
    var v1 := v.(p := PushUnlock(0), b := true);
    assert Moved(v, 0, v1);
    assert Moved(v1, 0, v1.(p := Idle, ql := None));
  }

  lemma Strand(can: View -> bool, v: View)
    requires Stepping(can) && can(v)
    requires v.p == PushPick(0) && v.u == StealLook(0) && v.waiters == [] && !v.b
    ensures can(v.(p := Idle, u := Idle, ql := None, b := true, waiters := [0], wl := None))
  {
    PushFindsNobody(can, v);
    var v1 := v.(p := PushBit(0), wl := None);
    PullLooks(can, v1);
    PullChecks(can, v1.(u := PullCheck(0), wl := Some(1)));
    PullGoesIdle(can, v1.(u := PullAdd(0), wl := Some(1)));
    assert [] + [0] == [0];
    PushEnds(can, v1.(u := Idle, waiters := [0]));
  }

  lemma Race(can: View -> bool) returns (m: Msg)
    requires Stepping(can) && Beginning(can) && can(Rest([]))
    ensures can(View(Idle, Idle, [m], None, true, [0], None))
  {
    PullFindsNothing(can);
    m := PushUpToPick(can, Rest([]).(u := StealLook(0)));
    Strand(can, View(PushPick(0), StealLook(0), [m], Some(0), false, [], Some(0)));
  }

  // ---- all sizes ----

  lemma {:induction false} LeadsSnoc(s: State, run: seq<Step>, m: State, t: nat, a: Action)
    requires Leads(s, run, m) && Enabled(m, t, a)
    ensures Leads(s, run + [Step(t, a)], Do(m, t, a))
    decreases |run|
  {
    var run' := run + [Step(t, a)];
    if run == [] {
      assert run'[1..] == [] && Leads(Do(m, t, a), [], Do(m, t, a));
    } else {
      LeadsSnoc(Do(s, run[0].t, run[0].a), run[1..], m, t, a);
      assert run'[0] == run[0] && run'[1..] == run[1..] + [Step(t, a)];
    }
  }

  ghost predicate ReachableWith(n: nat, threads: nat, s: State) { exists run :: Leads(Init(n, threads), run, s) }

  lemma ReachableClosed(n: nat, threads: nat)
    ensures Closed(s => ReachableWith(n, threads, s))
  {
    forall s | ReachableWith(n, threads, s) ensures Inv(s) {
      var run :| Leads(Init(n, threads), run, s);
      InitInv(n, threads);
      RunInv(Init(n, threads), run, s);
    }
    forall s, t, a | ReachableWith(n, threads, s) && Enabled(s, t, a) ensures ReachableWith(n, threads, Do(s, t, a)) {
      var run :| Leads(Init(n, threads), run, s);
      LeadsSnoc(Init(n, threads), run, s, t, a);
    }
  }

  /** Everybody is done, all locks are free, a socket waits and a message is queued. */
  ghost predicate Stranded(s: State) {
    && (forall t :: 0 <= t < |s.pcs| ==> s.pcs[t].Idle?)
    && (forall c :: 0 <= c < |s.qlock| ==> s.qlock[c].None?) && s.wlock.None?
    && s.waiters != [] && exists c :: 0 <= c < |s.q| && s.q[c] != []
  }

  lemma HasStranded(s: State, m: Msg)
    requires Has(s, View(Idle, Idle, [m], None, true, [0], None))
    ensures Stranded(s)
  {
    assert s.q[0] != [];
  }

  /** With at least one socket and two threads, an interleaving of pushes and one pull leaves a
      message behind with an idle socket. */
  lemma MessageStranded(n: nat, threads: nat) returns (s: State)
    requires n >= 1 && threads >= 2
    ensures ReachableWith(n, threads, s) && Stranded(s)
  {
    var reach := s => ReachableWith(n, threads, s);
    ReachableClosed(n, threads);
    var s0 := Init(n, threads);
    assert Leads(s0, [], s0) && reach(s0);
    assert Has(s0, Rest(s0.waiters));
    ReachedViews(reach);
    var can := v => Can(reach, v);
    assert can(Rest(s0.waiters));
    Drain(can, s0.waiters);
    var m := Race(can);
    assert Can(reach, View(Idle, Idle, [m], None, true, [0], None));
    s :| reach(s) && Has(s, View(Idle, Idle, [m], None, true, [0], None));
    HasStranded(s, m);
  }
}
