/** What each operation of the rakaia scheduler (rakaia/plain-tcp/rakaiasock.c) does, and nothing else, over
    every interleaving: a push puts its own message into the queue it has chosen or hands it to the socket it
    has taken off the waiter list; a pull of socket k takes a message for k, from its own queue first, or
    leaves k on the waiter list. The operation a thread is in is read off the run and the shared state. */
module SchedulerDuty {
  import opened Options
  import opened WaiterList
  import opened SchedulerSteps

  /** What a thread is there for: push message m to queue c, with the socket it has got for it; pull for
      socket k, with whether it has seen its own queue empty. */
  datatype Duty = Off | Push(m: Msg, c: nat, got: Option<nat>) | Pull(k: nat, seen: bool)

  /** The first of ws that is not in rest. */
  function Missing(ws: seq<nat>, rest: seq<nat>): nat {
    if ws == [] then 0 else if ws[0] !in rest then ws[0] else Missing(ws[1..], rest)
  }

  /** The duty of thread t after thread u has taken s to s' with action a; n pushes have begun before. */
  function Next(d: Duty, n: nat, s: State, u: nat, a: Action, s': State, t: nat): Duty {
    if u != t then d
    else if a.BeginPush? then Push(n, a.c, None)
    else if a.BeginPull? then Pull(a.k, false)
    else match d
      case Off => Off
      case Push(m, c, _) => if s'.waiters == s.waiters then d else Push(m, c, Some(Missing(s.waiters, s'.waiters)))
      case Pull(k, seen) => Pull(k, seen || (k < |s.q| && k < |s.qlock| && s.qlock[k] == Some(t) && s.q[k] == []))
  }

  /** The duty of thread t at the end of the run. */
  ghost function DutyAfter(s: State, run: seq<Step>, t: nat, d: Duty, n: nat): Duty
    decreases |run|
  {
    if run == [] || !Enabled(s, run[0].t, run[0].a) then d else
      var s' := Do(s, run[0].t, run[0].a);
      DutyAfter(s', run[1..], t, Next(d, n, s, run[0].t, run[0].a, s', t), if run[0].a.BeginPush? then n + 1 else n)
  }

  // ---- what the duties allow ----

  /** The socket that serves queue c: its own if idle, else the one that has waited longest. */
  function Served(ws: seq<nat>, c: nat): nat
    requires ws != []
  {
    if c in ws then c else ws[0]
  }

  /** A step of a push of m to queue c. */
  ghost predicate PushStep(m: Msg, c: nat, got: Option<nat>, s: State, ok: bool, s': State, idle: bool) {
    && (s'.q == s.q
        || (c < |s.q| && s'.q == s.q[c := s.q[c] + [m]])
        || (c < |s.q| && s.q[c] == [m] && s'.q == s.q[c := []]))
    && (s'.waiters == s.waiters
        || (got.None? && s.waiters != [] && s'.waiters == Without(s.waiters, Served(s.waiters, c))))
    && (s'.rcv == s.rcv
        || (got.Some? && got.value < |s.rcv| && s'.rcv == s.rcv[got.value := s.rcv[got.value] + [m]]))
    && (idle ==>
          m < |s'.loc| &&
          (s'.loc[m] == InQueue(c) || (got.Some? && s'.loc[m] == if ok then Received(got.value) else Refused)))
  }

  /** A step of a pull for socket k. */
  ghost predicate PullStep(k: nat, seen: bool, s: State, t: nat, ok: bool, s': State, idle: bool) {
    && (s'.q == s.q
        || exists c :: 0 <= c < |s.q| && s.q[c] != [] && s'.q == s.q[c := s.q[c][1..]] && (c == k || seen))
    && (s'.waiters == s.waiters || (k !in s.waiters && s'.waiters == s.waiters + [k]))
    && (s'.rcv == s.rcv || Receives(k, s, t, s'))
    && (idle ==> k in s'.waiters || (if ok then Receives(k, s, t, s') else exists x :: Refuses(x, s, t, s')))
  }

  /** Socket k gets the message that thread t had in its hands. */
  ghost predicate Receives(k: nat, s: State, t: nat, s': State) {
    k < |s.rcv| && exists x :: 0 <= x < |s.loc| && s.loc[x] == InHands(t) && s'.rcv == s.rcv[k := s.rcv[k] + [x]]
  }

  ghost predicate Refuses(x: Msg, s: State, t: nat, s': State) {
    x < |s.loc| && x < |s'.loc| && s.loc[x] == InHands(t) && s'.loc[x] == Refused
  }

  ghost predicate Dutiful(d: Duty, s: State, t: nat, a: Action, s': State)
    requires t < |s'.pcs|
  {
    if !a.Go? then s'.q == s.q && s'.waiters == s.waiters && s'.rcv == s.rcv
    else match d
      case Off => false
      case Push(m, c, got) => PushStep(m, c, got, s, a.ok, s', s'.pcs[t].Idle?)
      case Pull(k, seen) => PullStep(k, seen, s, t, a.ok, s', s'.pcs[t].Idle?)
  }

  // ---- positions and duties ----

  /** The queue of the thread's push holds its message and nothing else. */
  predicate Alone(s: State, c: nat, d: Duty) { d.Push? && d.c == c && c < |s.q| && s.q[c] == [d.m] }

  predicate Pulls(k: nat, d: Duty) { d.Pull? && d.k == k }

  ghost predicate DutyOk(s: State, pc: PC, d: Duty) {
    match pc
    case Idle => true
    case PushLock(m, c) => d == Push(m, c, None)
    case PushIn(m, c) => d == Push(m, c, None)
    case PushWLock(m, c) => d == Push(m, c, None)
    case PushTake(m, c) => d == Push(m, c, None)
    case PushPick(c) => Alone(s, c, d) && d.got.None?
    case PushClear(c, w) => Alone(s, c, d) && d.got == Some(w)
    case PushWUnlock(c, found) => Alone(s, c, d) && d.got == found
    case PushBit(c) => Alone(s, c, d)
    case PushDeq(c, w) => Alone(s, c, d) && d.got == Some(w)
    case PushFix(c, w, x) => d == Push(x, c, Some(w))
    case PushUnlock(c) => d.Push? && d.c == c && c < |s.q| && d.m in s.q[c]
    case UnlockGive(c, w, x) => d == Push(x, c, Some(w)) || Pulls(w, d)
    case Give(w, x) => (d.Push? && d.m == x && d.got == Some(w)) || Pulls(w, d)
    case PullLock(k) => Pulls(k, d)
    case PullDeq(k) => Pulls(k, d)
    case PullFix(c, w, _) => Pulls(w, d)
    case PullUnlock(k) => Pulls(k, d) && d.seen
    case StealLook(k) => Pulls(k, d) && d.seen
    case StealLock(k, _) => Pulls(k, d) && d.seen
    case StealDeq(k, _) => Pulls(k, d) && d.seen
    case StealUnlock(k, _) => Pulls(k, d) && d.seen
    case PullWLock(k) => Pulls(k, d) && d.seen
    case PullCheck(k) => Pulls(k, d) && d.seen
    case PullAdd(k) => Pulls(k, d) && d.seen
    case PullWUnlock(k, again) => Pulls(k, d) && d.seen && (!again ==> k in s.waiters)
  }

  /** The socket a push picks is the one that serves its queue. */
  lemma PickServes(s: State, t: nat, c: nat)
    requires Inv(s) && t < |s.pcs| && s.pcs[t] == PushPick(c)
    ensures Avail(s, c) == if s.waiters == [] then None else Some(Served(s.waiters, c))
  {
    assert s.wlock == Some(t);
  }

  lemma {:induction false} MissingIs(ws: seq<nat>, w: nat)
    requires NoDup(ws) && w in ws
    ensures Missing(ws, Without(ws, w)) == w && Without(ws, w) != ws
  {
    WithoutElems(ws, w);
    MissingFirst(ws, Without(ws, w), w);
  }

  lemma {:induction false} MissingFirst(ws: seq<nat>, rest: seq<nat>, w: nat)
    requires w in ws && w !in rest && forall k :: k in ws && k != w ==> k in rest
    ensures Missing(ws, rest) == w
  {
    if ws[0] != w {
      assert w in ws[1..];
      MissingFirst(ws[1..], rest, w);
    }
  }

  // ---- a step of the thread itself ----

  /** What the thread knows of the queue it has locked. */
  lemma HeldPhase(s: State, t: nat, c: nat)
    requires Inv(s) && t < |s.pcs| && HoldsQ(s.pcs[t]) == Some(c)
    ensures c < |s.q| && s.qlock[c] == Some(t) && Phase(s.pcs[t], s.q[c], s.bit[c])
  {
    assert Holders(s.pcs)[t] == Some(c);
    assert QueueOk(s, c);
  }

  // Positions by stage.
  predicate AtFront(pc: PC) { pc.Idle? || pc.PushLock? || pc.PushIn? || pc.PushWLock? }

  predicate AtBack(pc: PC) {
    pc.PushClear? || pc.PushWUnlock? || pc.PushBit? || pc.PushDeq? || pc.PushFix? || pc.PushUnlock? ||
    pc.UnlockGive? || pc.Give?
  }

  predicate AtQueues(pc: PC) {
    pc.PullLock? || pc.PullDeq? || pc.PullFix? || pc.PullUnlock? || pc.StealLook? || pc.StealLock? || pc.StealDeq? ||
    pc.StealUnlock?
  }

  predicate AtWaiters(pc: PC) { pc.PullWLock? || pc.PullCheck? || pc.PullAdd? || pc.PullWUnlock? }

  /** The thread's step with effect e to pc' leaves it with the right duty. */
  ghost predicate Stays(s: State, t: nat, a: Action, d: Duty, n: nat)
    requires Enabled(s, t, a)
  {
    var s' := Do(s, t, a);
    DutyOk(s', Program(s, t, a).1, Next(d, n, s, t, a, s', t))
  }

  lemma FrontDuty(s: State, t: nat, a: Action, d: Duty, n: nat)
    requires Inv(s) && Ready(s, t) && Enabled(s, t, a) && DutyOk(s, s.pcs[t], d) && n == |s.loc|
    requires AtFront(s.pcs[t])
    ensures Stays(s, t, a, d, n)
  {
    ProgramFits(s, t, a);
  }

  lemma TakeDuty(s: State, t: nat, a: Action, d: Duty, n: nat)
    requires Inv(s) && Ready(s, t) && Enabled(s, t, a) && DutyOk(s, s.pcs[t], d) && s.pcs[t].PushTake?
    ensures Stays(s, t, a, d, n)
  {
    PushFits(s, t, a);
    HeldPhase(s, t, s.pcs[t].c);
    assert [] + [s.pcs[t].m] == [s.pcs[t].m];
  }

  lemma PickDuty(s: State, t: nat, a: Action, d: Duty, n: nat)
    requires Inv(s) && Ready(s, t) && Enabled(s, t, a) && DutyOk(s, s.pcs[t], d) && s.pcs[t].PushPick?
    ensures Stays(s, t, a, d, n)
  {
    PushFits(s, t, a);
    PickServes(s, t, s.pcs[t].c);
    if s.waiters != [] { MissingIs(s.waiters, Served(s.waiters, s.pcs[t].c)); }
  }

  lemma BackDuty(s: State, t: nat, a: Action, d: Duty, n: nat)
    requires Inv(s) && Ready(s, t) && Enabled(s, t, a) && DutyOk(s, s.pcs[t], d)
    requires AtBack(s.pcs[t])
    ensures Stays(s, t, a, d, n)
  {
    ProgramFits(s, t, a);
  }

  lemma PullDuty(s: State, t: nat, a: Action, d: Duty, n: nat)
    requires Inv(s) && Ready(s, t) && Enabled(s, t, a) && DutyOk(s, s.pcs[t], d)
    requires AtQueues(s.pcs[t])
    ensures Stays(s, t, a, d, n)
  {
    ProgramFits(s, t, a);
    if s.pcs[t].PullDeq? { HeldPhase(s, t, s.pcs[t].k); }
  }

  lemma IdleDuty(s: State, t: nat, a: Action, d: Duty, n: nat)
    requires Inv(s) && Ready(s, t) && Enabled(s, t, a) && DutyOk(s, s.pcs[t], d)
    requires AtWaiters(s.pcs[t])
    ensures Stays(s, t, a, d, n)
  {
    ProgramFits(s, t, a);
    if s.pcs[t].PullCheck? { assert s.wlock == Some(t); }
  }

  lemma OwnDuty(s: State, t: nat, a: Action, d: Duty, n: nat)
    requires Inv(s) && Enabled(s, t, a) && DutyOk(s, s.pcs[t], d) && n == |s.loc|
    ensures Stays(s, t, a, d, n)
  {
    StepReady(s, t);
    if AtFront(s.pcs[t]) {
      FrontDuty(s, t, a, d, n);
    } else if s.pcs[t].PushTake? {
      TakeDuty(s, t, a, d, n);
    } else if s.pcs[t].PushPick? {
      PickDuty(s, t, a, d, n);
    } else if AtBack(s.pcs[t]) {
      BackDuty(s, t, a, d, n);
    } else if AtQueues(s.pcs[t]) {
      PullDuty(s, t, a, d, n);
    } else {
      IdleDuty(s, t, a, d, n);
    }
  }

  // ---- a step of another thread ----

  /** It leaves the queue that t has locked alone, and the waiter list if t has locked it. */
  lemma OtherKeeps(s: State, t: nat, u: nat, a: Action)
    requires Inv(s) && Enabled(s, u, a) && t < |s.pcs| && u != t
    ensures
      var s' := Do(s, u, a);
      && (HoldsQ(s.pcs[t]).Some? ==>
            var c := HoldsQ(s.pcs[t]).value;
            c < |s.q| && c < |s'.q| && s'.q[c] == s.q[c])
      && (HoldsW(s.pcs[t]) ==> s'.waiters == s.waiters)
  {
    StepReady(s, u);
    ProgramFits(s, u, a);
    ProgramQ(s, u, a);
    ProgramW(s, u, a);
    StepInv(s, u, a);
    var (e, pc') := Program(s, u, a);
    KeepSizes(s, u, e, pc', Do(s, u, a));
    if HoldsQ(s.pcs[t]).Some? {
      var c := HoldsQ(s.pcs[t]).value;
      assert Holders(s.pcs)[t] == Some(c) && Holders(s.pcs)[u] == HoldsQ(s.pcs[u]);
      Untouched(s, u, e, pc', Do(s, u, a), c);
    }
  }

  lemma OtherDuty(s: State, t: nat, u: nat, a: Action, d: Duty)
    requires Inv(s) && Enabled(s, u, a) && t < |s.pcs| && u != t && DutyOk(s, s.pcs[t], d)
    ensures DutyOk(Do(s, u, a), s.pcs[t], d)
  {
    OtherKeeps(s, t, u, a);
  }

  // ---- runs ----

  lemma StepCount(s: State, t: nat, a: Action)
    requires Inv(s) && Enabled(s, t, a)
    ensures |Do(s, t, a).loc| == |s.loc| + if a.BeginPush? then 1 else 0
    ensures |Do(s, t, a).pcs| == |s.pcs|
  {
    StepReady(s, t);
    ProgramFits(s, t, a);
  }

  lemma StepDuty(s: State, t: nat, u: nat, a: Action, d: Duty, n: nat)
    requires Inv(s) && Enabled(s, u, a) && t < |s.pcs| && DutyOk(s, s.pcs[t], d) && n == |s.loc|
    ensures
      var s' := Do(s, u, a);
      DutyOk(s', s'.pcs[t], Next(d, n, s, u, a, s', t))
  {
    if u == t {
      OwnDuty(s, t, a, d, n);
    } else {
      OtherDuty(s, t, u, a, d);
    }
  }

  /** Along every run, the position of a thread is one of its duty. */
  lemma {:induction false} RunDuty(s: State, run: seq<Step>, s': State, t: nat, d: Duty, n: nat)
    requires Inv(s) && Leads(s, run, s') && t < |s.pcs| && DutyOk(s, s.pcs[t], d) && n == |s.loc|
    ensures Inv(s') && t < |s'.pcs| && DutyOk(s', s'.pcs[t], DutyAfter(s, run, t, d, n))
    decreases |run|
  {
    if run != [] {
      var u, a := run[0].t, run[0].a;
      var m := Do(s, u, a);
      StepInv(s, u, a);
      StepCount(s, u, a);
      StepDuty(s, t, u, a, d, n);
      RunDuty(m, run[1..], s', t, Next(d, n, s, u, a, m, t), if a.BeginPush? then n + 1 else n);
    }
  }

  // ---- what each step does ----

  lemma FrontDoes(s: State, t: nat, a: Action, d: Duty)
    requires Inv(s) && Ready(s, t) && Enabled(s, t, a) && DutyOk(s, s.pcs[t], d) && AtFront(s.pcs[t])
    ensures Dutiful(d, s, t, a, Do(s, t, a))
  {
    ProgramFits(s, t, a);
  }

  lemma TakeDoes(s: State, t: nat, a: Action, d: Duty)
    requires Inv(s) && Ready(s, t) && Enabled(s, t, a) && DutyOk(s, s.pcs[t], d) && s.pcs[t].PushTake?
    ensures Dutiful(d, s, t, a, Do(s, t, a))
  {
    ProgramFits(s, t, a);
  }

  lemma PickDoes(s: State, t: nat, a: Action, d: Duty)
    requires Inv(s) && Ready(s, t) && Enabled(s, t, a) && DutyOk(s, s.pcs[t], d) && s.pcs[t].PushPick?
    ensures Dutiful(d, s, t, a, Do(s, t, a))
  {
    ProgramFits(s, t, a);
    PickServes(s, t, s.pcs[t].c);
  }

  lemma BackDoes(s: State, t: nat, a: Action, d: Duty)
    requires Inv(s) && Ready(s, t) && Enabled(s, t, a) && DutyOk(s, s.pcs[t], d)
    requires AtBack(s.pcs[t]) && !s.pcs[t].UnlockGive? && !s.pcs[t].Give?
    ensures Dutiful(d, s, t, a, Do(s, t, a))
  {
    ProgramFits(s, t, a);
    if s.pcs[t].PushDeq? { assert [d.m][1..] == []; }
  }

  lemma GiveDoes(s: State, t: nat, a: Action, d: Duty)
    requires Inv(s) && Ready(s, t) && Enabled(s, t, a) && DutyOk(s, s.pcs[t], d)
    requires s.pcs[t].UnlockGive? || s.pcs[t].Give?
    ensures Dutiful(d, s, t, a, Do(s, t, a))
  {
    ProgramFits(s, t, a);
    assert Hands(s.pcs)[t] == Some(s.pcs[t].x) && s.loc[s.pcs[t].x] == InHands(t);
    if s.pcs[t].Give? && !a.ok { assert Refuses(s.pcs[t].x, s, t, Do(s, t, a)); }
  }

  lemma PullDoes(s: State, t: nat, a: Action, d: Duty)
    requires Inv(s) && Ready(s, t) && Enabled(s, t, a) && DutyOk(s, s.pcs[t], d) && AtQueues(s.pcs[t])
    ensures Dutiful(d, s, t, a, Do(s, t, a))
  {
    ProgramFits(s, t, a);
  }

  lemma IdleDoes(s: State, t: nat, a: Action, d: Duty)
    requires Inv(s) && Ready(s, t) && Enabled(s, t, a) && DutyOk(s, s.pcs[t], d) && AtWaiters(s.pcs[t])
    ensures Dutiful(d, s, t, a, Do(s, t, a))
  {
    ProgramFits(s, t, a);
    if s.pcs[t].PullAdd? { assert s.wlock == Some(t); }
  }

  /** Over every interleaving, every step of a thread is one of its duty. */
  lemma EveryStepDutiful(n: nat, threads: nat, run: seq<Step>, s: State, t: nat, a: Action)
    requires Leads(Init(n, threads), run, s) && Enabled(s, t, a)
    ensures t < |Do(s, t, a).pcs| && Dutiful(DutyAfter(Init(n, threads), run, t, Off, 0), s, t, a, Do(s, t, a))
  {
    InitInv(n, threads);
    RunSize(Init(n, threads), run, s);
    var d := DutyAfter(Init(n, threads), run, t, Off, 0);
    RunDuty(Init(n, threads), run, s, t, Off, 0);
    StepReady(s, t);
    if AtFront(s.pcs[t]) {
      FrontDoes(s, t, a, d);
    } else if s.pcs[t].PushTake? {
      TakeDoes(s, t, a, d);
    } else if s.pcs[t].PushPick? {
      PickDoes(s, t, a, d);
    } else if s.pcs[t].UnlockGive? || s.pcs[t].Give? {
      GiveDoes(s, t, a, d);
    } else if AtBack(s.pcs[t]) {
      BackDoes(s, t, a, d);
    } else if AtQueues(s.pcs[t]) {
      PullDoes(s, t, a, d);
    } else {
      IdleDoes(s, t, a, d);
    }
  }

  lemma {:induction false} RunSize(s: State, run: seq<Step>, s': State)
    requires Inv(s) && Leads(s, run, s')
    ensures |s'.pcs| == |s.pcs|
    decreases |run|
  {
    if run != [] {
      StepInv(s, run[0].t, run[0].a);
      StepCount(s, run[0].t, run[0].a);
      RunSize(Do(s, run[0].t, run[0].a), run[1..], s');
    }
  }
}
