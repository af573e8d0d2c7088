/** The rakaia scheduler (rakaia/plain-tcp/rakaiasock.c) as a state machine whose steps are the
    lock operations, queue operations and bit operations of push, pull and steal. Any number of threads;
    random choices are arbitrary. The code keeps the non-empty bits in one 64-bit word, so the model is
    the code for up to 64 sockets (rakaia/plain-tcp/rakaia.h:18 sets 20); the theorems hold for any number. */
module SchedulerSteps {
  import opened Options
  import opened WaiterList

  /** Messages are numbered in the order they are pushed. */
  type Msg = nat

  /** Where a thread stands. c is the queue it locks or has locked, k the socket that pulls, w the
      socket that will receive, x the message in hand. */
  datatype PC =
    | Idle
    // rakaia_push_skb_single_queue
    | PushLock(m: Msg, c: nat)               // about to lock the chosen queue
    | PushIn(m: Msg, c: nat)                 // queue locked
    | PushWLock(m: Msg, c: nat)              // queue empty, about to lock the waiter list
    | PushTake(m: Msg, c: nat)               // both locked, about to append
    | PushPick(c: nat)                       // appended, about to unlink a waiter
    | PushClear(c: nat, w: nat)              // unlinked, about to clear its bit
    | PushWUnlock(c: nat, found: Option<nat>)
    | PushBit(c: nat)                        // nobody idle, about to set the queue's bit
    | PushDeq(c: nat, w: nat)                // about to take the message out again for w
    | PushFix(c: nat, w: nat, x: Msg)        // about to set or clear the queue's bit
    | PushUnlock(c: nat)
    // shared ends
    | UnlockGive(c: nat, w: nat, x: Msg)     // about to unlock the queue
    | Give(w: nat, x: Msg)                   // rakaia_queue_rcv_skb
    // rakaia_pull and rakaia_steal_skb
    | PullLock(k: nat)
    | PullDeq(k: nat)
    | PullFix(c: nat, w: nat, x: Msg)        // dequeued, about to clear the bit if empty
    | PullUnlock(k: nat)                     // own queue was empty
    | StealLook(k: nat)
    | StealLock(k: nat, c: nat)
    | StealDeq(k: nat, c: nat)
    | StealUnlock(k: nat, c: nat)            // victim was empty
    | PullWLock(k: nat)
    | PullCheck(k: nat)
    | PullAdd(k: nat)                        // bit set, about to link
    | PullWUnlock(k: nat, again: bool)

  datatype Place = InQueue(c: nat) | InHands(t: nat) | Received(w: nat) | Refused

  /** took, gave and loc are history: what each queue accepted and gave up, and where each
      message is. */
  datatype State = State(
    q: seq<seq<Msg>>, qlock: seq<Option<nat>>, bit: seq<bool>,
    waiters: seq<nat>, wbit: seq<bool>, wlock: Option<nat>,
    rcv: seq<seq<Msg>>, pcs: seq<PC>,
    took: seq<seq<Msg>>, gave: seq<seq<Msg>>, loc: seq<Place>)

  datatype Action = BeginPush(c: nat) | BeginPull(k: nat) | Go(v: nat, ok: bool)

  function Init(n: nat, threads: nat): State {
    State(seq(n, _ => []), seq(n, _ => None), seq(n, _ => false),
          seq(n, i => i), seq(n, _ => true), None,
          seq(n, _ => []), seq(threads, _ => Idle),
          seq(n, _ => []), seq(n, _ => []), [])
  }

  ghost predicate Sizes(s: State) {
    && |s.qlock| == |s.q| && |s.bit| == |s.q| && |s.wbit| == |s.q| && |s.rcv| == |s.q|
    && |s.took| == |s.q| && |s.gave| == |s.q|
    && forall t :: 0 <= t < |s.pcs| ==> InRange(s.pcs[t], |s.q|)
  }

  /** Socket indices are in range. */
  predicate InRange(pc: PC, n: nat) {
    match pc
    case Idle => true
    case PushLock(_, c) => c < n
    case PushIn(_, c) => c < n
    case PushWLock(_, c) => c < n
    case PushTake(_, c) => c < n
    case PushPick(c) => c < n
    case PushClear(c, w) => c < n && w < n
    case PushWUnlock(c, found) => c < n && (found.Some? ==> found.value < n)
    case PushBit(c) => c < n
    case PushDeq(c, w) => c < n && w < n
    case PushFix(c, w, _) => c < n && w < n
    case PushUnlock(c) => c < n
    case UnlockGive(c, w, _) => c < n && w < n
    case Give(w, _) => w < n
    case PullLock(k) => k < n
    case PullDeq(k) => k < n
    case PullFix(c, w, _) => c < n && w < n
    case PullUnlock(k) => k < n
    case StealLook(k) => k < n
    case StealLock(k, c) => k < n && c < n
    case StealDeq(k, c) => k < n && c < n
    case StealUnlock(k, c) => k < n && c < n
    case PullWLock(k) => k < n
    case PullCheck(k) => k < n
    case PullAdd(k) => k < n
    case PullWUnlock(k, _) => k < n
  }

  /** The queue whose lock the thread holds. */
  function HoldsQ(pc: PC): Option<nat> {
    match pc
    case PushIn(_, c) => Some(c)
    case PushWLock(_, c) => Some(c)
    case PushTake(_, c) => Some(c)
    case PushPick(c) => Some(c)
    case PushClear(c, _) => Some(c)
    case PushWUnlock(c, _) => Some(c)
    case PushBit(c) => Some(c)
    case PushDeq(c, _) => Some(c)
    case PushFix(c, _, _) => Some(c)
    case PushUnlock(c) => Some(c)
    case UnlockGive(c, _, _) => Some(c)
    case PullDeq(k) => Some(k)
    case PullFix(c, _, _) => Some(c)
    case PullUnlock(k) => Some(k)
    case StealDeq(_, c) => Some(c)
    case StealUnlock(_, c) => Some(c)
    case _ => None
  }

  predicate HoldsW(pc: PC) {
    pc.PushTake? || pc.PushPick? || pc.PushClear? || pc.PushWUnlock? || pc.PullCheck? || pc.PullAdd? || pc.PullWUnlock?
  }

  /** The message in the thread's hands. */
  function Hand(pc: PC): Option<Msg> {
    match pc
    case PushLock(m, _) => Some(m)
    case PushIn(m, _) => Some(m)
    case PushWLock(m, _) => Some(m)
    case PushTake(m, _) => Some(m)
    case PushFix(_, _, x) => Some(x)
    case PullFix(_, _, x) => Some(x)
    case UnlockGive(_, _, x) => Some(x)
    case Give(_, x) => Some(x)
    case _ => None
  }

  // ---- steps ----

  /** `rakaia_get_avail_sk`: the chosen socket itself if idle, else the longest waiting one. */
  function Avail(s: State, c: nat): Option<nat> {
    if s.waiters == [] then None else if IsWaiting(s, c) then Some(c) else Some(s.waiters[0])
  }

  /** Reads of the shared arrays; an index is never out of range (ProgramFits). */
  predicate IsWaiting(s: State, k: nat) { k < |s.wbit| && s.wbit[k] }
  function Queue(s: State, c: nat): seq<Msg> { if c < |s.q| then s.q[c] else [] }
  function Front(s: State, c: nat): Msg { if Queue(s, c) == [] then 0 else Queue(s, c)[0] }

  /** What a step does to the shared state. */
  datatype Effect =
    | Nothing
    | LockQ(c: nat) | UnlockQ(c: nat) | LockW | UnlockW
    | NewMsg | Enqueue(c: nat, m: Msg) | Dequeue(c: nat) | Deliver(w: nat, x: Msg) | Refuse(x: Msg)
    | Bit(c: nat, on: bool)
    | Unlink(w: nat) | Link(w: nat) | WaitBit(w: nat, on: bool)

  predicate NoBits(s: State) { forall i :: 0 <= i < |s.bit| ==> !s.bit[i] }

  predicate Enabled(s: State, t: nat, a: Action) {
    && t < |s.pcs|
    && match s.pcs[t]
       case Idle => (a.BeginPush? && a.c < |s.q|) || (a.BeginPull? && a.k < |s.q|)
       case PushLock(_, c) => a.Go? && c < |s.qlock| && s.qlock[c].None?
       case PushWLock(_, c) => a.Go? && s.wlock.None?
       case PullLock(k) => a.Go? && k < |s.qlock| && s.qlock[k].None?
       case StealLook(_) => a.Go? && (NoBits(s) || (a.v < |s.bit| && s.bit[a.v]))
       case StealLock(_, c) => a.Go? && c < |s.qlock| && s.qlock[c].None?
       case PullWLock(_) => a.Go? && s.wlock.None?
       case _ => a.Go?
  }

  /** The program: effect and next position of thread t. */
  function Program(s: State, t: nat, a: Action): (Effect, PC)
    requires Enabled(s, t, a)
  {
    match s.pcs[t]
    case Idle => if a.BeginPush? then (NewMsg, PushLock(|s.loc|, a.c)) else (Nothing, PullLock(a.k))
    case PushLock(m, c) => (LockQ(c), PushIn(m, c))
    case PushIn(m, c) => if |Queue(s, c)| >= 1 then (Enqueue(c, m), PushUnlock(c)) else (Nothing, PushWLock(m, c))
    case PushWLock(m, c) => (LockW, PushTake(m, c))
    case PushTake(m, c) => (Enqueue(c, m), PushPick(c))
    case PushPick(c) =>
      (match Avail(s, c)
       case None => (Nothing, PushWUnlock(c, None))
       case Some(w) => (Unlink(w), PushClear(c, w)))
    case PushClear(c, w) => (WaitBit(w, false), PushWUnlock(c, Some(w)))
    case PushWUnlock(c, found) => (UnlockW, match found case None => PushBit(c) case Some(w) => PushDeq(c, w))
    case PushBit(c) => (Bit(c, true), PushUnlock(c))
    case PushDeq(c, w) => (Dequeue(c), PushFix(c, w, Front(s, c)))
    case PushFix(c, w, x) => (Bit(c, |Queue(s, c)| >= 1), UnlockGive(c, w, x))
    case PushUnlock(c) => (UnlockQ(c), Idle)
    case UnlockGive(c, w, x) => (UnlockQ(c), Give(w, x))
    case Give(w, x) => (if a.ok then Deliver(w, x) else Refuse(x), Idle)
    case PullLock(k) => (LockQ(k), PullDeq(k))
    case PullDeq(k) => if Queue(s, k) != [] then (Dequeue(k), PullFix(k, k, Front(s, k))) else (Nothing, PullUnlock(k))
    case PullFix(c, w, x) => (if Queue(s, c) == [] then Bit(c, false) else Nothing, UnlockGive(c, w, x))
    case PullUnlock(k) => (UnlockQ(k), StealLook(k))
    case StealLook(k) => (Nothing, if NoBits(s) then PullWLock(k) else StealLock(k, a.v))
    case StealLock(k, c) => (LockQ(c), StealDeq(k, c))
    case StealDeq(k, c) =>
      if Queue(s, c) != [] then (Dequeue(c), PullFix(c, k, Front(s, c))) else (Nothing, StealUnlock(k, c))
    case StealUnlock(k, c) => (UnlockQ(c), StealLook(k))
    case PullWLock(k) => (LockW, PullCheck(k))
    case PullCheck(k) =>
      if !NoBits(s) then (Nothing, PullWUnlock(k, true))
      else if !IsWaiting(s, k) then (WaitBit(k, true), PullAdd(k))
      else (Nothing, PullWUnlock(k, false))
    case PullAdd(k) => (Link(k), PullWUnlock(k, false))
    case PullWUnlock(k, again) => (UnlockW, if again then PullLock(k) else Idle)
  }

  /** The effect is within bounds. */
  predicate Fits(s: State, e: Effect) {
    match e
    case LockQ(c) => c < |s.qlock|
    case UnlockQ(c) => c < |s.qlock|
    case Enqueue(c, m) => c < |s.q| && c < |s.took| && m < |s.loc|
    case Dequeue(c) => c < |s.q| && c < |s.gave| && s.q[c] != [] && s.q[c][0] < |s.loc|
    case Deliver(w, x) => w < |s.rcv| && x < |s.loc|
    case Refuse(x) => x < |s.loc|
    case Bit(c, _) => c < |s.bit|
    case WaitBit(w, _) => w < |s.wbit|
    case _ => true
  }

  function Apply(s: State, t: nat, e: Effect): State {
    if !Fits(s, e) then s else
    match e
    case Nothing => s
    case LockQ(c) => s.(qlock := s.qlock[c := Some(t)])
    case UnlockQ(c) => s.(qlock := s.qlock[c := None])
    case LockW => s.(wlock := Some(t))
    case UnlockW => s.(wlock := None)
    case NewMsg => s.(loc := s.loc + [InHands(t)])
    case Enqueue(c, m) =>
      s.(q := s.q[c := s.q[c] + [m]], took := s.took[c := s.took[c] + [m]], loc := s.loc[m := InQueue(c)])
    case Dequeue(c) =>
      var x := s.q[c][0];
      s.(q := s.q[c := s.q[c][1..]], gave := s.gave[c := s.gave[c] + [x]], loc := s.loc[x := InHands(t)])
    case Deliver(w, x) => s.(rcv := s.rcv[w := s.rcv[w] + [x]], loc := s.loc[x := Received(w)])
    case Refuse(x) => s.(loc := s.loc[x := Refused])
    case Bit(c, on) => s.(bit := s.bit[c := on])
    case Unlink(w) => s.(waiters := Without(s.waiters, w))
    case Link(w) => s.(waiters := s.waiters + [w])
    case WaitBit(w, on) => s.(wbit := s.wbit[w := on])
  }

  function Do(s: State, t: nat, a: Action): State
    requires Enabled(s, t, a)
  {
    var (e, pc) := Program(s, t, a);
    Apply(s, t, e).(pcs := s.pcs[t := pc])
  }

  /** All sizes and indices that a step needs. */
  ghost predicate Ready(s: State, t: nat) {
    && Sizes(s) && t < |s.pcs|
    && (Hand(s.pcs[t]).Some? ==> Hand(s.pcs[t]).value < |s.loc|)
    && (forall c, i :: 0 <= c < |s.q| && 0 <= i < |s.q[c]| ==> s.q[c][i] < |s.loc|)
    && (s.pcs[t].PushDeq? ==> s.q[s.pcs[t].c] != [])
    && (s.pcs[t].PushPick? && s.waiters != [] ==> s.waiters[0] < |s.q|)
  }

  /** Positions of rakaia_push_skb_single_queue, up to the shared ends. */
  predicate InPush(pc: PC) {
    pc.PushLock? || pc.PushIn? || pc.PushWLock? || pc.PushTake? || pc.PushPick? || pc.PushClear? || pc.PushWUnlock? ||
    pc.PushBit? || pc.PushDeq? || pc.PushFix? || pc.PushUnlock?
  }

  lemma PushFits(s: State, t: nat, a: Action)
    requires Ready(s, t) && Enabled(s, t, a) && InPush(s.pcs[t])
    ensures Fits(s, Program(s, t, a).0) && InRange(Program(s, t, a).1, |s.q|)
  {
  }

  lemma OtherFits(s: State, t: nat, a: Action)
    requires Ready(s, t) && Enabled(s, t, a) && !InPush(s.pcs[t])
    ensures Fits(s, Program(s, t, a).0) && InRange(Program(s, t, a).1, |s.q|)
  {
  }

  lemma ProgramFits(s: State, t: nat, a: Action)
    requires Ready(s, t) && Enabled(s, t, a)
    ensures Fits(s, Program(s, t, a).0) && InRange(Program(s, t, a).1, |s.q|)
  {
    if InPush(s.pcs[t]) {
      PushFits(s, t, a);
    } else {
      OtherFits(s, t, a);
    }
  }

  // ---- the invariant ----

  /** Locks are held by the threads that think they hold them. */
  ghost predicate LocksOk(s: State) { LocksMatch(Holders(s.pcs), s.qlock) && WLockOk(s) }

  /** held[t] is the queue thread t has locked. */
  ghost predicate LocksMatch(held: seq<Option<nat>>, lock: seq<Option<nat>>) {
    && (forall t :: 0 <= t < |held| && held[t].Some? ==> held[t].value < |lock| && lock[held[t].value] == Some(t))
    && (forall c :: 0 <= c < |lock| && lock[c].Some? ==> lock[c].value < |held| && held[lock[c].value] == Some(c))
  }

  function Holders(pcs: seq<PC>): (h: seq<Option<nat>>)
    ensures |h| == |pcs| && forall t :: 0 <= t < |pcs| ==> h[t] == HoldsQ(pcs[t])
  {
    seq(|pcs|, t requires 0 <= t < |pcs| => HoldsQ(pcs[t]))
  }

  ghost predicate WLockOk(s: State) {
    && (forall t :: 0 <= t < |s.pcs| && HoldsW(s.pcs[t]) ==> s.wlock == Some(t))
    && (s.wlock.Some? ==> s.wlock.value < |s.pcs| && HoldsW(s.pcs[s.wlock.value]))
  }

  /** How queue and bit stand to each other while a thread is at pc, holding the queue's lock. */
  ghost predicate Phase(pc: PC, q: seq<Msg>, bit: bool) {
    match pc
    case PushWLock(_, _) => q == [] && !bit
    case PushTake(_, _) => q == [] && !bit
    case PushPick(_) => |q| == 1 && !bit
    case PushClear(_, _) => |q| == 1 && !bit
    case PushWUnlock(_, _) => |q| == 1 && !bit
    case PushBit(_) => |q| == 1 && !bit
    case PushDeq(_, _) => |q| == 1 && !bit
    case PushFix(_, _, _) => q == [] && !bit
    case PullFix(_, _, _) => bit
    case _ => bit == (q != [])
  }

  ghost predicate QueueOk(s: State, c: nat)
    requires Sizes(s) && LocksOk(s) && c < |s.q|
  {
    if s.qlock[c].None? then s.bit[c] == (s.q[c] != []) else Phase(s.pcs[s.qlock[c].value], s.q[c], s.bit[c])
  }

  /** The socket whose list entry and bit differ while a thread is at pc. */
  function Moving(pc: PC): Option<nat> {
    match pc
    case PushClear(_, w) => Some(w)
    case PullAdd(k) => Some(k)
    case _ => None
  }

  ghost predicate WaitersOk(s: State)
    requires WLockOk(s)
  {
    WaitersMatch(s.waiters, s.wbit, if s.wlock.None? then None else Moving(s.pcs[s.wlock.value]))
  }

  /** List and bits agree, except at mid. */
  ghost predicate WaitersMatch(waiters: seq<nat>, wbit: seq<bool>, mid: Option<nat>) {
    && NoDup(waiters)
    && (forall i :: 0 <= i < |waiters| ==> waiters[i] < |wbit|)
    && (forall k :: 0 <= k < |wbit| ==>
          if mid == Some(k) then wbit[k] && k !in waiters else (wbit[k] <==> k in waiters))
  }

  /** loc says exactly where each message is. */
  ghost predicate PlacesOk(s: State) { PlacesMatch(s.q, s.rcv, Hands(s.pcs), s.loc) }

  function Hands(pcs: seq<PC>): (h: seq<Option<Msg>>)
    ensures |h| == |pcs| && forall t :: 0 <= t < |pcs| ==> h[t] == Hand(pcs[t])
  {
    seq(|pcs|, t requires 0 <= t < |pcs| => Hand(pcs[t]))
  }

  ghost predicate PlacesMatch(q: seq<seq<Msg>>, rcv: seq<seq<Msg>>, hands: seq<Option<Msg>>, loc: seq<Place>) {
    && (forall c, i :: 0 <= c < |q| && 0 <= i < |q[c]| ==> q[c][i] < |loc| && loc[q[c][i]] == InQueue(c))
    && (forall w, i :: 0 <= w < |rcv| && 0 <= i < |rcv[w]| ==> rcv[w][i] < |loc| && loc[rcv[w][i]] == Received(w))
    && (forall t :: 0 <= t < |hands| && hands[t].Some? ==> hands[t].value < |loc| && loc[hands[t].value] == InHands(t))
    && (forall m :: 0 <= m < |loc| ==> Found(q, rcv, hands, loc, m))
    && (forall c :: 0 <= c < |q| ==> NoDup(q[c]))
    && (forall w :: 0 <= w < |rcv| ==> NoDup(rcv[w]))
  }

  ghost predicate Found(q: seq<seq<Msg>>, rcv: seq<seq<Msg>>, hands: seq<Option<Msg>>, loc: seq<Place>, m: Msg)
    requires m < |loc|
  {
    match loc[m]
    case InQueue(c) => c < |q| && m in q[c]
    case InHands(t) => t < |hands| && hands[t] == Some(m)
    case Received(w) => w < |rcv| && m in rcv[w]
    case Refused => true
  }

  ghost predicate FifoOk(s: State)
    requires Sizes(s)
  {
    forall c :: 0 <= c < |s.q| ==> s.took[c] == s.gave[c] + s.q[c]
  }

  ghost predicate Inv(s: State) {
    && Sizes(s) && LocksOk(s)
    && (forall c :: 0 <= c < |s.q| ==> QueueOk(s, c))
    && WaitersOk(s) && PlacesOk(s) && FifoOk(s)
  }

  lemma StepReady(s: State, t: nat)
    requires Inv(s) && t < |s.pcs|
    ensures Ready(s, t)
  {
    assert Holders(s.pcs)[t] == HoldsQ(s.pcs[t]) && Hands(s.pcs)[t] == Hand(s.pcs[t]);
    if s.pcs[t].PushDeq? {
      assert QueueOk(s, s.pcs[t].c);
    }
  }

  // ---- the program keeps its own discipline ----

  /** Queue locks are taken when not held and given back when held; a queue and its bit are
      touched under its lock. */
  ghost predicate QDiscipline(s: State, pc: PC, e: Effect, pc': PC) {
    if e.LockQ? then e.c < |s.qlock| && s.qlock[e.c].None? && HoldsQ(pc).None? && HoldsQ(pc') == Some(e.c)
    else if e.UnlockQ? then HoldsQ(pc) == Some(e.c) && HoldsQ(pc').None?
    else HoldsQ(pc') == HoldsQ(pc) && (e.Enqueue? || e.Dequeue? || e.Bit? ==> HoldsQ(pc) == Some(e.c))
  }

  lemma ProgramQ(s: State, t: nat, a: Action)
    requires Ready(s, t) && Enabled(s, t, a)
    ensures QDiscipline(s, s.pcs[t], Program(s, t, a).0, Program(s, t, a).1)
  {
  }

  /** The same for the waiter list. */
  ghost predicate WDiscipline(s: State, pc: PC, e: Effect, pc': PC) {
    if e.LockW? then s.wlock.None? && !HoldsW(pc) && HoldsW(pc')
    else if e.UnlockW? then HoldsW(pc) && !HoldsW(pc')
    else HoldsW(pc') == HoldsW(pc) && (e.Unlink? || e.Link? || e.WaitBit? ==> HoldsW(pc))
  }

  lemma ProgramW(s: State, t: nat, a: Action)
    requires Ready(s, t) && Enabled(s, t, a)
    ensures WDiscipline(s, s.pcs[t], Program(s, t, a).0, Program(s, t, a).1)
  {
  }

  /** Messages change hands one at a time. */
  ghost predicate HandDiscipline(s: State, pc: PC, e: Effect, pc': PC) {
    match e
    case NewMsg => Hand(pc).None? && Hand(pc') == Some(|s.loc|)
    case Enqueue(_, m) => Hand(pc) == Some(m) && Hand(pc').None?
    case Dequeue(c) => Hand(pc).None? && c < |s.q| && s.q[c] != [] && Hand(pc') == Some(s.q[c][0])
    case Deliver(_, x) => Hand(pc) == Some(x) && Hand(pc').None?
    case Refuse(x) => Hand(pc) == Some(x) && Hand(pc').None?
    case _ => Hand(pc') == Hand(pc)
  }

  lemma PushHand(s: State, t: nat, a: Action)
    requires Ready(s, t) && Enabled(s, t, a) && InPush(s.pcs[t])
    ensures HandDiscipline(s, s.pcs[t], Program(s, t, a).0, Program(s, t, a).1)
  {
  }

  lemma OtherHand(s: State, t: nat, a: Action)
    requires Ready(s, t) && Enabled(s, t, a) && !InPush(s.pcs[t])
    ensures HandDiscipline(s, s.pcs[t], Program(s, t, a).0, Program(s, t, a).1)
  {
  }

  lemma ProgramHand(s: State, t: nat, a: Action)
    requires Ready(s, t) && Enabled(s, t, a)
    ensures HandDiscipline(s, s.pcs[t], Program(s, t, a).0, Program(s, t, a).1)
  {
    if InPush(s.pcs[t]) {
      PushHand(s, t, a);
    } else {
      OtherHand(s, t, a);
    }
  }

  /** What a thread at pc' leaves of the queue c it had locked. */
  ghost predicate PhaseAfter(pc': PC, s': State, c: nat) {
    && c < |s'.q| && c < |s'.bit|
    && (HoldsQ(pc') == Some(c) ==> Phase(pc', s'.q[c], s'.bit[c]))
    && (HoldsQ(pc') != Some(c) ==> s'.bit[c] == (s'.q[c] != []))
  }

  lemma PushPhase(s: State, t: nat, a: Action, c: nat)
    requires Ready(s, t) && Enabled(s, t, a) && InPush(s.pcs[t]) && HoldsQ(s.pcs[t]) == Some(c) && c < |s.q|
    requires Phase(s.pcs[t], s.q[c], s.bit[c]) && Fits(s, Program(s, t, a).0)
    ensures PhaseAfter(Program(s, t, a).1, Apply(s, t, Program(s, t, a).0), c)
  {
  }

  lemma OtherPhase(s: State, t: nat, a: Action, c: nat)
    requires Ready(s, t) && Enabled(s, t, a) && !InPush(s.pcs[t]) && HoldsQ(s.pcs[t]) == Some(c) && c < |s.q|
    requires Phase(s.pcs[t], s.q[c], s.bit[c]) && Fits(s, Program(s, t, a).0)
    ensures PhaseAfter(Program(s, t, a).1, Apply(s, t, Program(s, t, a).0), c)
  {
  }

  /** A step takes the queue it has locked from phase to phase. */
  lemma ProgramPhase(s: State, t: nat, a: Action, c: nat)
    requires Ready(s, t) && Enabled(s, t, a) && HoldsQ(s.pcs[t]) == Some(c) && c < |s.q|
    requires Phase(s.pcs[t], s.q[c], s.bit[c]) && Fits(s, Program(s, t, a).0)
    ensures PhaseAfter(Program(s, t, a).1, Apply(s, t, Program(s, t, a).0), c)
  {
    if InPush(s.pcs[t]) {
      PushPhase(s, t, a, c);
    } else {
      OtherPhase(s, t, a, c);
    }
  }

  lemma AcquirePhase(s: State, t: nat, a: Action)
    requires Ready(s, t) && Enabled(s, t, a) && Program(s, t, a).0.LockQ?
    ensures forall q, b :: b == (q != []) ==> Phase(Program(s, t, a).1, q, b)
  {
  }

  // ---- every effect of a disciplined program keeps the invariant ----

  /** s' is s after effect e with thread t moved to pc'. */
  ghost predicate Moves(s: State, t: nat, e: Effect, pc': PC, s': State) {
    t < |s.pcs| && Fits(s, e) && s' == Apply(s, t, e).(pcs := s.pcs[t := pc'])
  }

  lemma KeepSizes(s: State, t: nat, e: Effect, pc': PC, s': State)
    requires Sizes(s) && Moves(s, t, e, pc', s') && InRange(pc', |s.q|)
    ensures Sizes(s') && |s'.q| == |s.q|
  {
  }

  lemma KeepLocks(s: State, t: nat, e: Effect, pc': PC, s': State)
    requires LocksOk(s) && Moves(s, t, e, pc', s')
    requires QDiscipline(s, s.pcs[t], e, pc') && WDiscipline(s, s.pcs[t], e, pc')
    ensures LocksOk(s')
  {
    KeepWLock(s, t, e, pc', s');
    KeepQLocks(s, t, e, pc', s');
  }

  lemma KeepWLock(s: State, t: nat, e: Effect, pc': PC, s': State)
    requires WLockOk(s) && Moves(s, t, e, pc', s') && WDiscipline(s, s.pcs[t], e, pc')
    ensures WLockOk(s')
  {
  }

  lemma KeepQLocks(s: State, t: nat, e: Effect, pc': PC, s': State)
    requires LocksMatch(Holders(s.pcs), s.qlock) && Moves(s, t, e, pc', s') && QDiscipline(s, s.pcs[t], e, pc')
    ensures LocksMatch(Holders(s'.pcs), s'.qlock)
  {
    var h := Holders(s.pcs);
    assert Holders(s'.pcs) == h[t := HoldsQ(pc')];
    assert h[t] == HoldsQ(s.pcs[t]);
    KeepMatch(h, s.qlock, t, HoldsQ(pc'), s'.qlock);
  }

  lemma KeepMatch(h: seq<Option<nat>>, lock: seq<Option<nat>>, t: nat, after: Option<nat>, lock': seq<Option<nat>>)
    requires LocksMatch(h, lock) && t < |h|
    requires
      if h[t] == after then lock' == lock
      else if h[t].None? then after.value < |lock| && lock[after.value].None? && lock' == lock[after.value := Some(t)]
      else after.None? && h[t].value < |lock| && lock' == lock[h[t].value := None]
    ensures LocksMatch(h[t := after], lock')
  {
  }

  lemma KeepFifo(s: State, t: nat, e: Effect, pc': PC, s': State)
    requires Sizes(s) && FifoOk(s) && Moves(s, t, e, pc', s') && Sizes(s')
    ensures FifoOk(s')
  {
  }

  /** A queue whose lock thread t does not hold is left alone. */
  lemma Untouched(s: State, t: nat, e: Effect, pc': PC, s': State, c: nat)
    requires Sizes(s) && Moves(s, t, e, pc', s') && Sizes(s') && |s'.q| == |s.q| && c < |s.q|
    requires QDiscipline(s, s.pcs[t], e, pc') && HoldsQ(s.pcs[t]) != Some(c)
    ensures s'.q[c] == s.q[c] && s'.bit[c] == s.bit[c]
    ensures s'.qlock[c] == if e == LockQ(c) then Some(t) else s.qlock[c]
  {
  }

  lemma KeepQueue(s: State, t: nat, e: Effect, pc': PC, s': State, c: nat)
    requires Sizes(s) && LocksOk(s) && Moves(s, t, e, pc', s') && Sizes(s') && LocksOk(s') && c < |s.q|
    requires QDiscipline(s, s.pcs[t], e, pc') && QueueOk(s, c) && |s'.q| == |s.q|
    requires e.LockQ? ==> forall q, b :: b == (q != []) ==> Phase(pc', q, b)
    requires HoldsQ(s.pcs[t]) == Some(c) && HoldsQ(pc') == Some(c) ==> Phase(pc', s'.q[c], s'.bit[c])
    requires HoldsQ(s.pcs[t]) == Some(c) && HoldsQ(pc') != Some(c) ==> s'.bit[c] == (s'.q[c] != [])
    ensures QueueOk(s', c)
  {
    assert Holders(s.pcs)[t] == HoldsQ(s.pcs[t]) && Holders(s'.pcs)[t] == HoldsQ(pc');
    if HoldsQ(s.pcs[t]) != Some(c) {
      Untouched(s, t, e, pc', s', c);
      if s.qlock[c].Some? {
        var u := s.qlock[c].value;
        assert Holders(s.pcs)[u] == Some(c);
      }
    }
  }

  /** How the waiter list is edited: unlink then clear, or set then link. */
  ghost predicate WaitDiscipline(s: State, pc: PC, e: Effect, pc': PC) {
    match e
    case Unlink(w) => Moving(pc).None? && Moving(pc') == Some(w) && w in s.waiters
    case WaitBit(w, on) =>
      if on then Moving(pc).None? && Moving(pc') == Some(w) && w < |s.wbit| && !s.wbit[w]
      else pc.PushClear? && Moving(pc) == Some(w) && Moving(pc').None?
    case Link(w) => Moving(pc) == Some(w) && Moving(pc').None? && w < |s.wbit|
    case _ => Moving(pc).None? && Moving(pc').None?
  }

  lemma ProgramWait(s: State, t: nat, a: Action)
    requires Ready(s, t) && Enabled(s, t, a)
    requires s.pcs[t].PushPick? && s.waiters != [] ==> (s.wbit[s.pcs[t].c] ==> s.pcs[t].c in s.waiters)
    ensures WaitDiscipline(s, s.pcs[t], Program(s, t, a).0, Program(s, t, a).1)
  {
  }

  lemma KeepWaiters(s: State, t: nat, e: Effect, pc': PC, s': State)
    requires WLockOk(s) && WaitersOk(s) && Moves(s, t, e, pc', s') && WLockOk(s')
    requires WDiscipline(s, s.pcs[t], e, pc') && WaitDiscipline(s, s.pcs[t], e, pc')
    ensures WaitersOk(s')
  {
    if e.Unlink? {
      WithoutElems(s.waiters, e.w);
      assert forall i :: 0 <= i < |s'.waiters| ==> s'.waiters[i] in s.waiters;
    }
  }

  // -- messages --

  lemma KeepNew(q: seq<seq<Msg>>, rcv: seq<seq<Msg>>, hands: seq<Option<Msg>>, loc: seq<Place>, t: nat)
    requires PlacesMatch(q, rcv, hands, loc) && t < |hands| && hands[t].None?
    ensures PlacesMatch(q, rcv, hands[t := Some(|loc|)], loc + [InHands(t)])
  {
    var h', l' := hands[t := Some(|loc|)], loc + [InHands(t)];
    forall m | 0 <= m < |l'| ensures Found(q, rcv, h', l', m) {
      if m < |loc| { assert Found(q, rcv, hands, loc, m); }
    }
  }

  lemma KeepEnqueue(q: seq<seq<Msg>>, rcv: seq<seq<Msg>>, hands: seq<Option<Msg>>, loc: seq<Place>, t: nat, c: nat,
                    m: Msg)
    requires PlacesMatch(q, rcv, hands, loc) && t < |hands| && hands[t] == Some(m) && c < |q| && m < |loc|
    ensures PlacesMatch(q[c := q[c] + [m]], rcv, hands[t := None], loc[m := InQueue(c)])
  {
    var q', h', l' := q[c := q[c] + [m]], hands[t := None], loc[m := InQueue(c)];
    forall i | 0 <= i < |l'| ensures Found(q', rcv, h', l', i) {
      assert Found(q, rcv, hands, loc, i);
    }
  }

  lemma KeepDequeue(q: seq<seq<Msg>>, rcv: seq<seq<Msg>>, hands: seq<Option<Msg>>, loc: seq<Place>, t: nat, c: nat)
    requires PlacesMatch(q, rcv, hands, loc) && t < |hands| && hands[t].None? && c < |q| && q[c] != [] &&
        q[c][0] < |loc|
    ensures PlacesMatch(q[c := q[c][1..]], rcv, hands[t := Some(q[c][0])], loc[q[c][0] := InHands(t)])
  {
    var x := q[c][0];
    assert x !in q[c][1..];
    var q', h', l' := q[c := q[c][1..]], hands[t := Some(x)], loc[x := InHands(t)];
    forall i | 0 <= i < |l'| ensures Found(q', rcv, h', l', i) {
      assert Found(q, rcv, hands, loc, i);
      if i != x && loc[i] == InQueue(c) {
        var j :| 0 <= j < |q[c]| && q[c][j] == i;
        assert q[c][1..][j - 1] == i;
      }
    }
  }

  lemma KeepDeliver(q: seq<seq<Msg>>, rcv: seq<seq<Msg>>, hands: seq<Option<Msg>>, loc: seq<Place>, t: nat, w: nat,
                    x: Msg)
    requires PlacesMatch(q, rcv, hands, loc) && t < |hands| && hands[t] == Some(x) && w < |rcv| && x < |loc|
    ensures PlacesMatch(q, rcv[w := rcv[w] + [x]], hands[t := None], loc[x := Received(w)])
  {
    var r', h', l' := rcv[w := rcv[w] + [x]], hands[t := None], loc[x := Received(w)];
    forall i | 0 <= i < |l'| ensures Found(q, r', h', l', i) {
      assert Found(q, rcv, hands, loc, i);
    }
  }

  lemma KeepRefuse(q: seq<seq<Msg>>, rcv: seq<seq<Msg>>, hands: seq<Option<Msg>>, loc: seq<Place>, t: nat, x: Msg)
    requires PlacesMatch(q, rcv, hands, loc) && t < |hands| && hands[t] == Some(x) && x < |loc|
    ensures PlacesMatch(q, rcv, hands[t := None], loc[x := Refused])
  {
    var h', l' := hands[t := None], loc[x := Refused];
    forall i | 0 <= i < |l'| ensures Found(q, rcv, h', l', i) {
      assert Found(q, rcv, hands, loc, i);
    }
  }

  lemma KeepPlaces(s: State, t: nat, e: Effect, pc': PC, s': State)
    requires PlacesOk(s) && Moves(s, t, e, pc', s') && HandDiscipline(s, s.pcs[t], e, pc')
    ensures PlacesOk(s')
  {
    var h := Hands(s.pcs);
    assert h[t] == Hand(s.pcs[t]);
    assert Hands(s'.pcs) == h[t := Hand(pc')];
    match e
    case NewMsg => KeepNew(s.q, s.rcv, h, s.loc, t);
    case Enqueue(c, m) => KeepEnqueue(s.q, s.rcv, h, s.loc, t, c, m);
    case Dequeue(c) => KeepDequeue(s.q, s.rcv, h, s.loc, t, c);
    case Deliver(w, x) => KeepDeliver(s.q, s.rcv, h, s.loc, t, w, x);
    case Refuse(x) => KeepRefuse(s.q, s.rcv, h, s.loc, t, x);
    case _ => assert h[t := Hand(pc')] == h;
  }

  // ---- all steps ----

  lemma StepInv(s: State, t: nat, a: Action)
    requires Inv(s) && t < |s.pcs| && Enabled(s, t, a)
    ensures Inv(Do(s, t, a))
  {
    StepReady(s, t);
    ProgramFits(s, t, a);
    ProgramQ(s, t, a);
    ProgramW(s, t, a);
    ProgramHand(s, t, a);
    PickIsWaiting(s, t);
    ProgramWait(s, t, a);
    var (e, pc') := Program(s, t, a);
    var s' := Do(s, t, a);
    KeepSizes(s, t, e, pc', s');
    KeepLocks(s, t, e, pc', s');
    KeepFifo(s, t, e, pc', s');
    KeepWaiters(s, t, e, pc', s');
    KeepPlaces(s, t, e, pc', s');
    forall c | 0 <= c < |s'.q| ensures QueueOk(s', c) { StepQueue(s, t, a, c); }
  }

  lemma PickIsWaiting(s: State, t: nat)
    requires Inv(s) && t < |s.pcs|
    ensures s.pcs[t].PushPick? ==> (s.wbit[s.pcs[t].c] ==> s.pcs[t].c in s.waiters)
  {
    if s.pcs[t].PushPick? { assert s.wlock == Some(t); }
  }

  lemma StepQueue(s: State, t: nat, a: Action, c: nat)
    requires Inv(s) && Ready(s, t) && Enabled(s, t, a) && c < |s.q|
    requires Sizes(Do(s, t, a)) && LocksOk(Do(s, t, a)) && |Do(s, t, a).q| == |s.q|
    ensures QueueOk(Do(s, t, a), c)
  {
    assert QueueOk(s, c);
    ProgramFits(s, t, a);
    ProgramQ(s, t, a);
    var (e, pc') := Program(s, t, a);
    if HoldsQ(s.pcs[t]) == Some(c) {
      assert Holders(s.pcs)[t] == Some(c);
      ProgramPhase(s, t, a, c);
    }
    if e.LockQ? { AcquirePhase(s, t, a); }
    KeepQueue(s, t, e, pc', Do(s, t, a), c);
  }

  // ---- runs ----

  datatype Step = Step(t: nat, a: Action)

  /** s leads to s' in the steps of the run. */
  ghost predicate Leads(s: State, run: seq<Step>, s': State)
    decreases |run|
  {
    if run == [] then s' == s
    else Enabled(s, run[0].t, run[0].a) && Leads(Do(s, run[0].t, run[0].a), run[1..], s')
  }

  ghost predicate Reachable(s: State) {
    exists n: nat, threads: nat, run :: Leads(Init(n, threads), run, s)
  }

  lemma InitInv(n: nat, threads: nat)
    ensures Inv(Init(n, threads))
  {
    var s := Init(n, threads);
    assert Holders(s.pcs) == seq(threads, _ => None);
    assert Hands(s.pcs) == seq(threads, _ => None);
    forall k | 0 <= k < n ensures k in s.waiters { assert s.waiters[k] == k; }
  }

  lemma {:induction false} RunInv(s: State, run: seq<Step>, s': State)
    requires Inv(s) && Leads(s, run, s')
    ensures Inv(s')
    decreases |run|
  {
    if run != [] {
      StepInv(s, run[0].t, run[0].a);
      RunInv(Do(s, run[0].t, run[0].a), run[1..], s');
    }
  }

  lemma ReachableInv(s: State)
    requires Reachable(s)
    ensures Inv(s)
  {
    var n: nat, threads: nat, run :| Leads(Init(n, threads), run, s);
    InitInv(n, threads);
    RunInv(Init(n, threads), run, s);
  }

  /** Over every interleaving: a queue's bit says whether it is non-empty whenever its lock is
      free. */
  lemma BitmapAgrees(s: State, c: nat)
    requires Reachable(s) && c < |s.q|
    ensures c < |s.qlock| && c < |s.bit|
    ensures s.qlock[c].None? ==> s.bit[c] == (s.q[c] != [])
  {
    ReachableInv(s);
    assert QueueOk(s, c);
  }

  /** A socket is on the waiter list, once, exactly when its bit is set, whenever the list's lock is
      free. */
  lemma WaitersAgree(s: State, k: nat)
    requires Reachable(s) && k < |s.q| && s.wlock.None?
    ensures k < |s.wbit| && NoDup(s.waiters) && (s.wbit[k] <==> k in s.waiters)
  {
    ReachableInv(s);
  }

  /** m is at place p. */
  ghost predicate IsAt(s: State, m: Msg, p: Place) {
    match p
    case InQueue(c) => c < |s.q| && exists i :: 0 <= i < |s.q[c]| && s.q[c][i] == m
    case InHands(t) => t < |s.pcs| && Hand(s.pcs[t]) == Some(m)
    case Received(w) => w < |s.rcv| && exists i :: 0 <= i < |s.rcv[w]| && s.rcv[w][i] == m
    case Refused => m < |s.loc| && s.loc[m] == Refused
  }

  /** Every pushed message is in exactly one place, and there only once. */
  lemma ExactlyOnePlace(s: State, m: Msg, p: Place)
    requires Reachable(s) && m < |s.loc|
    ensures IsAt(s, m, p) <==> p == s.loc[m]
    ensures p.InQueue? && p.c < |s.q| ==> NoDup(s.q[p.c])
    ensures p.Received? && p.w < |s.rcv| ==> NoDup(s.rcv[p.w])
  {
    ReachableInv(s);
    assert Found(s.q, s.rcv, Hands(s.pcs), s.loc, m);
    if p.InHands? && p.t < |s.pcs| {
      assert Hands(s.pcs)[p.t] == Hand(s.pcs[p.t]);
    }
  }

  /** Every queue gives up messages in the order it took them. */
  lemma QueuesAreFifo(s: State, c: nat)
    requires Reachable(s) && c < |s.q|
    ensures c < |s.took| && c < |s.gave| && s.took[c] == s.gave[c] + s.q[c]
  {
    ReachableInv(s);
  }
}
