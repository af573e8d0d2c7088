/** One connection of the pool server (bench/servers/common-linux-pool.c) shared by any number of
    worker and I/O threads: the push-only inbox, the response list of the owner, ownership by
    compare-and-swap, partial sends, closing, and reference counting. Every atomic operation is one
    step. */
module PoolConn {
  import opened Options
  import opened WaiterList
  import opened Framing

  /** A request of this connection, numbered in the order of enqueue_job; later its completion. */
  type Id = nat

  const TOTAL := 28                         // sizeof(completion->response)

  /** What follows the release of the connection: nothing, one more look (flush_owned_conn_from_worker), or
      another round (drive_owned_conn_until_idle). */
  datatype Then = Stop | Once | Loop

  /** The accesses of update_conn_events, in order. */
  datatype Arming = LoadClosed | LoadArmed | LoadFd | StoreArmed | Ctl

  /** Where a thread stands. */
  datatype PC =
    | Idle
    // worker_thread_main
    | WJob(c: Id)                           // job popped, about to fill a completion
    | WLoad(c: Id)                          // inbox_push: about to load the top
    | WCas(c: Id, top: Option<nat>)         // about to compare and swap
    | WCheck                                // about to load closed
    | WStale                                // about to take the inbox of a closed connection
    | WDrop(list: seq<Id>)
    | WPend                                 // about to set io_pending
    | WTry                                  // about to acquire
    | WArm(step: Arming)                    // not acquired, asking for EPOLLOUT
    // io_thread_main
    | EPend
    | ETry
    | EErr
    // the owner: drive_conn, flush_owned_conn_from_worker
    | OClear(io: bool)
    | ODrain(io: bool)
    | OQueue(io: bool, list: seq<Id>)       // drained, oldest first, about to be queued
    | OFlush(io: bool)
    | OFree(io: bool, c: Id)                // sent, about to be released
    | OArm(io: bool, want: bool, step: Arming)
    | ORead
    | OCheck
    | OClose(next: Then)
    | ODiscard(next: Then)
    | OFreeResp(next: Then, c: Id)
    | OTake(next: Then)
    | ODrop(next: Then, list: seq<Id>)
    | OShut(next: Then)                     // about to close the descriptor
    | ORelease(next: Then)
    | OAfter(once: bool)
    | OTry(once: bool)

  datatype Place = InRing | InHands(t: nat) | InInbox | InResp | Gone

  /** Threads below ios are I/O threads, the others workers. The io_owned flag is kept as the thread that
      set it; armed is epollout_armed and out whether epoll is to report EPOLLOUT; retired says that an I/O
      thread has closed the connection. pushed, flushed, wire and loc are history: ids in the order their
      pushes succeeded, ids sent completely, bytes sent, and where each id is. */
  datatype State = State(
    ios: nat, owner: Option<nat>, pending: bool, closed: bool, open: bool, retired: bool, accept: bool, refcnt: int,
    armed: bool, out: bool, inbox: seq<Id>, resp: seq<Id>, off: nat, pcs: seq<PC>,
    addr: seq<nat>, body: seq<Bytes>,
    pushed: seq<Id>, flushed: seq<Id>, wire: Bytes, loc: seq<Place>)

  function Init(threads: nat, ios: nat): State {
    State(ios, None, false, false, true, false, true, 1, false, false, [], [], 0, seq(threads, _ => Idle),
          [], [], [], [], [], [])
  }

  /** What the environment decides: which thread starts what, what recv and send do, which memory a
      completion gets. */
  datatype Action =
    | Worker(c: Id) | Event | ErrorEvent | FreeAccept
    | Go | Sent(n: nat) | Blocked | Broken | Request(b: Bytes) | Alloc(a: nat)

  datatype Effect =
    | Nothing
    | NewJob(b: Bytes) | PopJob(c: Id) | SetAddr(c: Id, a: nat) | Push(c: Id) | TakeInbox | Queue(c: Id)
    | Send(n: nat) | PopSent | PopUnsent | Release(c: Id) | ReleaseAccept
    | Pending(on: bool) | Own | Disown | SetClosed | Shut | SetArmed(on: bool) | SetOut(on: bool)

  function Reverse(s: seq<Id>): seq<Id> {
    if s == [] then [] else Reverse(s[1..]) + [s[0]]
  }

  /** The address at the top of the inbox. Addresses are reused, so equal tops may be different
      completions. */
  function Top(s: State): Option<nat> {
    if s.inbox == [] || s.inbox[0] >= |s.addr| then None else Some(s.addr[s.inbox[0]])
  }

  predicate Sendable(s: State, n: nat) {
    s.resp != [] && s.open && s.off < TOTAL && 1 <= n <= TOTAL - s.off
  }

  predicate Enabled(s: State, t: nat, a: Action) {
    && t < |s.pcs|
    && match s.pcs[t]
       case Idle =>
         if t < s.ios then
           || ((a.Event? || a.ErrorEvent?) && s.open)
           || (a.FreeAccept? && s.ios == 1 && !s.open && s.retired && s.accept)
         else
           a.Worker? && a.c < |s.loc| && s.loc[a.c] == InRing
       case WJob(_) => a.Alloc?
       case OFlush(_) =>
         if s.resp == [] || !s.open then a.Go?
         else if s.off == TOTAL then a.Go? else (a.Sent? && Sendable(s, a.n)) || a.Blocked? || a.Broken?
       case ORead => a.Go? || a.Broken? || (a.Request? && |a.b| == TOTAL)
       case _ => a.Go?
  }

  /** The program: effect and next position of thread t. */
  function Program(s: State, t: nat, a: Action): (Effect, PC)
    requires t < |s.pcs|
  {
    match s.pcs[t]
    case Idle =>
      (match a
       case Worker(c) => (PopJob(c), WJob(c))
       case Event => (Nothing, EPend)
       case ErrorEvent => (Nothing, EErr)
       case _ => (ReleaseAccept, Idle))
    case WJob(c) => (SetAddr(c, if a.Alloc? then a.a else 0), WLoad(c))
    case WLoad(c) => (Nothing, WCas(c, Top(s)))
    case WCas(c, top) => if Top(s) == top then (Push(c), WCheck) else (Nothing, WLoad(c))
    case WCheck => (Nothing, if s.closed then WStale else WPend)
    case WStale => (TakeInbox, WDrop(s.inbox))
    case WDrop(list) => if list == [] then (Nothing, Idle) else (Release(list[0]), WDrop(list[1..]))
    case WPend => (Pending(true), WTry)
    case WTry => if s.owner.None? then (Own, OClear(false)) else (Nothing, WArm(LoadClosed))
    case WArm(step) =>
      var (e, next) := Arm(s, true, step);
      (e, if next.None? then Idle else WArm(next.value))
    case EPend => (Pending(true), ETry)
    case ETry => if s.owner.None? then (Own, OClear(true)) else (Nothing, Idle)
    case EErr => if s.owner.None? then (Own, OClose(Stop)) else (Pending(true), Idle)
    case OClear(io) => (Pending(false), ODrain(io))
    case ODrain(io) => (TakeInbox, OQueue(io, Reverse(s.inbox)))
    case OQueue(io, list) => if list == [] then (Nothing, OFlush(io)) else (Queue(list[0]), OQueue(io, list[1..]))
    case OFlush(io) =>
      if s.resp == [] then (Nothing, OArm(io, false, LoadClosed))
      else if !s.open then (Nothing, ORelease(After(io)))              // send on a closed descriptor
      else if s.off == TOTAL then (PopSent, OFree(io, s.resp[0]))
      else (match a
            case Sent(n) => (Send(n), OFlush(io))
            case Broken => (Nothing, OClose(After(io)))
            case _ => (Nothing, OArm(io, true, LoadClosed)))
    case OFree(io, c) => (Release(c), OFlush(io))
    case OArm(io, want, step) =>
      var (e, next) := Arm(s, want, step);
      (e, if next.Some? then OArm(io, want, next.value) else if io then ORead else ORelease(Once))
    case ORead =>
      (match a
       case Request(b) => (NewJob(b), ORead)
       case Broken => (Nothing, OClose(Loop))
       case _ => (Nothing, if s.open then OCheck else ORelease(Loop)))
    case OCheck => (Pending(false), if s.pending then OClear(true) else ORelease(Loop))
    case OClose(next) => if s.open then (SetClosed, ODiscard(next)) else (Nothing, ORelease(next))
    case ODiscard(next) =>
      if s.resp == [] then (Nothing, OTake(next)) else (PopUnsent, OFreeResp(next, s.resp[0]))
    case OFreeResp(next, c) => (Release(c), ODiscard(next))
    case OTake(next) => (TakeInbox, ODrop(next, s.inbox))
    case ODrop(next, list) =>
      if list == [] then (Nothing, OShut(next)) else (Release(list[0]), ODrop(next, list[1..]))
    case OShut(next) => (Shut, ORelease(next))
    case ORelease(next) => (Disown, if next == Stop then Idle else OAfter(next == Once))
    case OAfter(once) => (Pending(false), if s.pending then OTry(once) else Idle)
    case OTry(once) =>
      if s.owner.None? then (Own, OClear(true)) else (Nothing, if once then WArm(LoadClosed) else Idle)
  }

  function After(io: bool): Then { if io then Loop else Once }

  /** update_conn_events: effect and next access, if any. */
  function Arm(s: State, want: bool, step: Arming): (Effect, Option<Arming>) {
    match step
    case LoadClosed => (Nothing, if s.closed then None else Some(LoadArmed))
    case LoadArmed => (Nothing, if s.armed == want then None else Some(LoadFd))
    case LoadFd => (Nothing, if s.open then Some(StoreArmed) else None)
    case StoreArmed => (SetArmed(want), Some(Ctl))
    case Ctl => (SetOut(want), None)
  }

  /** Ids in ids move to place p. */
  function MoveAll(loc: seq<Place>, ids: seq<Id>, p: Place): (r: seq<Place>)
    ensures |r| == |loc|
    ensures forall i :: 0 <= i < |loc| ==> r[i] == if i in ids then p else loc[i]
  {
    seq(|loc|, i requires 0 <= i < |loc| => if i in ids then p else loc[i])
  }

  predicate Fits(s: State, e: Effect) {
    match e
    case PopJob(c) => c < |s.loc|
    case SetAddr(c, _) => c < |s.addr|
    case Push(c) => c < |s.loc|
    case Queue(c) => c < |s.loc|
    case Send(n) => s.resp != [] && s.resp[0] < |s.body| && s.off + n <= TOTAL == |s.body[s.resp[0]]|
    case PopSent => s.resp != [] && s.resp[0] < |s.loc|
    case PopUnsent => s.resp != [] && s.resp[0] < |s.loc|
    case Release(c) => c < |s.loc|
    case _ => true
  }

  /** Where the ids are after e. */
  function LocAfter(s: State, t: nat, e: Effect): seq<Place>
    requires Fits(s, e)
  {
    match e
    case NewJob(_) => s.loc + [InRing]
    case PopJob(c) => s.loc[c := InHands(t)]
    case Push(c) => s.loc[c := InInbox]
    case TakeInbox => MoveAll(s.loc, s.inbox, InHands(t))
    case Queue(c) => s.loc[c := InResp]
    case PopSent => s.loc[s.resp[0] := InHands(t)]
    case PopUnsent => s.loc[s.resp[0] := InHands(t)]
    case Release(c) => s.loc[c := Gone]
    case _ => s.loc
  }

  /** The state after e by thread t, field by field. */
  function Apply(s: State, t: nat, e: Effect): State {
    if !Fits(s, e) then s else
    var pop := e.PopSent? || e.PopUnsent?;
    State(
      s.ios,
      if e.Own? then Some(t) else if e.Disown? then None else s.owner,
      if e.Pending? then e.on else s.pending,
      s.closed || e.SetClosed?,
      s.open && !e.Shut?,
      if e.Shut? then t < s.ios else s.retired,
      s.accept && !e.ReleaseAccept?,
      s.refcnt + if e.NewJob? then 1 else if e.Release? || e.ReleaseAccept? then -1 else 0,
      if e.SetArmed? then e.on else s.armed,
      if e.SetOut? && s.open then e.on else s.out,                    // EPOLL_CTL_MOD fails on a closed descriptor
      if e.Push? then [e.c] + s.inbox else if e.TakeInbox? then [] else s.inbox,
      if e.Queue? then s.resp + [e.c] else if pop then s.resp[1..] else s.resp,
      if e.Send? then s.off + e.n else if pop then 0 else s.off,
      s.pcs,
      if e.NewJob? then s.addr + [0] else if e.SetAddr? then s.addr[e.c := e.a] else s.addr,
      if e.NewJob? then s.body + [e.b] else s.body,
      if e.Push? then s.pushed + [e.c] else s.pushed,
      if e.PopSent? then s.flushed + [s.resp[0]] else s.flushed,
      if e.Send? then s.wire + s.body[s.resp[0]][s.off..s.off + e.n] else s.wire,
      LocAfter(s, t, e))
  }

  function Do(s: State, t: nat, a: Action): State
    requires t < |s.pcs|
  {
    var (e, pc) := Program(s, t, a);
    Apply(s, t, e).(pcs := s.pcs[t := pc])
  }

  // ---- the invariant ----

  predicate Owns(pc: PC) {
    pc.OClear? || pc.ODrain? || pc.OQueue? || pc.OFlush? || pc.OFree? || pc.OArm? || pc.ORead? || pc.OCheck? ||
    pc.OClose? || pc.ODiscard? || pc.OFreeResp? || pc.OTake? || pc.ODrop? || pc.OShut? || pc.ORelease?
  }

  /** Between setting closed and closing the descriptor. */
  predicate Closing(pc: PC) { pc.ODiscard? || pc.OFreeResp? || pc.OTake? || pc.ODrop? || pc.OShut? }

  function Hand(pc: PC): seq<Id> {
    match pc
    case WJob(c) => [c]
    case WLoad(c) => [c]
    case WCas(c, _) => [c]
    case WDrop(list) => list
    case OQueue(_, list) => list
    case OFree(_, c) => [c]
    case OFreeResp(_, c) => [c]
    case ODrop(_, list) => list
    case _ => []
  }

  /** At most one thread owns the connection: the one io_owned was set by. */
  ghost predicate OwnerOk(s: State) {
    && (forall t :: 0 <= t < |s.pcs| && Owns(s.pcs[t]) ==> s.owner == Some(t))
    && (s.owner.Some? ==> s.owner.value < |s.pcs| && Owns(s.pcs[s.owner.value]))
  }

  function OwnerPC(s: State): PC
    requires s.owner.Some? ==> s.owner.value < |s.pcs|
  {
    if s.owner.None? then Idle else s.pcs[s.owner.value]
  }

  ghost predicate ClosedOk(s: State)
    requires OwnerOk(s)
  {
    && (!s.open ==> s.closed)
    && (Closing(OwnerPC(s)) ==> s.closed && s.open)
    && (s.closed && s.open ==> Closing(OwnerPC(s)))
    && (forall t :: 0 <= t < |s.pcs| && (s.pcs[t].WStale? || s.pcs[t].WDrop?) ==> s.closed)
  }

  function Hands(pcs: seq<PC>): (h: seq<seq<Id>>)
    ensures |h| == |pcs| && forall t :: 0 <= t < |pcs| ==> h[t] == Hand(pcs[t])
  {
    seq(|pcs|, t requires 0 <= t < |pcs| => Hand(pcs[t]))
  }

  /** Everything in list is at place p, once. */
  ghost predicate AllAt(list: seq<Id>, loc: seq<Place>, p: Place) {
    NoDup(list) && forall i :: 0 <= i < |list| ==> list[i] < |loc| && loc[list[i]] == p
  }

  ghost predicate PlacesMatch(inbox: seq<Id>, resp: seq<Id>, hands: seq<seq<Id>>, loc: seq<Place>) {
    && AllAt(inbox, loc, InInbox) && AllAt(resp, loc, InResp)
    && (forall t :: 0 <= t < |hands| ==> AllAt(hands[t], loc, InHands(t)))
    && (forall c :: 0 <= c < |loc| ==> Found(inbox, resp, hands, loc, c))
  }

  ghost predicate Found(inbox: seq<Id>, resp: seq<Id>, hands: seq<seq<Id>>, loc: seq<Place>, c: Id)
    requires c < |loc|
  {
    match loc[c]
    case InInbox => c in inbox
    case InResp => c in resp
    case InHands(t) => t < |hands| && c in hands[t]
    case _ => true
  }

  function Live(loc: seq<Place>): nat {
    if loc == [] then 0 else Live(loc[..|loc| - 1]) + if loc[|loc| - 1] == Gone then 0 else 1
  }

  ghost predicate RefsOk(s: State) { s.refcnt == Live(s.loc) + if s.accept then 1 else 0 }

  /** The drained completions the owner has not queued yet. */
  function Draining(pc: PC): seq<Id> { if pc.OQueue? then pc.list else [] }

  /** The pushed completions in order: sent, queued, being drained, in the inbox. */
  ghost predicate OrderOk(s: State)
    requires OwnerOk(s)
  {
    !s.closed ==> s.pushed == s.flushed + s.resp + Draining(OwnerPC(s)) + Reverse(s.inbox)
  }

  /** The responses of ids, one after the other. */
  function Cat(body: seq<Bytes>, ids: seq<Id>): Bytes {
    if ids == [] then [] else
      var c := ids[|ids| - 1];
      Cat(body, ids[..|ids| - 1]) + if c < |body| then body[c] else []
  }

  ghost predicate Bodies(s: State) {
    && |s.body| == |s.loc| && |s.addr| == |s.loc|
    && (forall c :: 0 <= c < |s.body| ==> |s.body[c]| == TOTAL)
    && (forall i :: 0 <= i < |s.pushed| ==> s.pushed[i] < |s.body|)
    && (forall i :: 0 <= i < |s.flushed| ==> s.flushed[i] < |s.body|)
    && s.off <= TOTAL && (s.resp == [] ==> s.off == 0)
  }

  /** What has been sent is whole responses and the first bytes of the next. */
  ghost predicate BytesOk(s: State) {
    && Bodies(s)
    && (!s.closed ==> s.wire == Cat(s.body, s.flushed) + Partial(s))
    && s.wire <= Cat(s.body, s.pushed)
  }

  function Partial(s: State): Bytes {
    if s.resp != [] && s.resp[0] < |s.body| && s.off <= |s.body[s.resp[0]]| then s.body[s.resp[0]][..s.off] else []
  }

  /** The accept reference goes only after an I/O thread has closed the connection, and only if there is a
      single one. */
  ghost predicate AcceptOk(s: State) {
    (s.retired ==> !s.open) && (!s.accept ==> s.ios == 1 && !s.open && s.retired)
  }

  ghost predicate Inv(s: State) {
    && OwnerOk(s) && ClosedOk(s) && PlacesMatch(s.inbox, s.resp, Hands(s.pcs), s.loc)
    && RefsOk(s) && AcceptOk(s) && OrderOk(s) && BytesOk(s)
  }

  // ---- the program's discipline ----

  ghost predicate OwnDiscipline(s: State, pc: PC, e: Effect, pc': PC) {
    if e.Own? then s.owner.None? && !Owns(pc) && Owns(pc') && !Closing(pc')
    else if e.Disown? then Owns(pc) && !Owns(pc') && !Closing(pc)
    else
      && Owns(pc') == Owns(pc)
      && (e.Queue? || e.Send? || e.PopSent? || e.PopUnsent? || e.SetClosed? || e.Shut? ==> Owns(pc))
  }

  /** Positions that do not touch io_owned: before the completion is in the inbox, or about EPOLLOUT. */
  predicate Working(pc: PC) { pc.WJob? || pc.WLoad? || pc.WCas? || pc.WStale? || pc.WDrop? || pc.WArm? }

  lemma ProgramOwnWorking(s: State, t: nat, a: Action)
    requires Enabled(s, t, a) && Working(s.pcs[t])
    ensures OwnDiscipline(s, s.pcs[t], Program(s, t, a).0, Program(s, t, a).1)
  {
  }

  lemma ProgramOwnTrying(s: State, t: nat, a: Action)
    requires Enabled(s, t, a) && !Owns(s.pcs[t]) && !Working(s.pcs[t])
    ensures OwnDiscipline(s, s.pcs[t], Program(s, t, a).0, Program(s, t, a).1)
  {
  }

  lemma ProgramOwnWorker(s: State, t: nat, a: Action)
    requires Enabled(s, t, a) && !Owns(s.pcs[t])
    ensures OwnDiscipline(s, s.pcs[t], Program(s, t, a).0, Program(s, t, a).1)
  {
    if Working(s.pcs[t]) {
      ProgramOwnWorking(s, t, a);
    } else {
      ProgramOwnTrying(s, t, a);
    }
  }

  lemma ProgramOwnOwner(s: State, t: nat, a: Action)
    requires Enabled(s, t, a) && Owns(s.pcs[t]) && !Closing(s.pcs[t])
    ensures OwnDiscipline(s, s.pcs[t], Program(s, t, a).0, Program(s, t, a).1)
  {
  }

  lemma ProgramOwnCloser(s: State, t: nat, a: Action)
    requires Enabled(s, t, a) && Closing(s.pcs[t])
    ensures OwnDiscipline(s, s.pcs[t], Program(s, t, a).0, Program(s, t, a).1)
  {
  }

  lemma ProgramOwn(s: State, t: nat, a: Action)
    requires Enabled(s, t, a)
    ensures OwnDiscipline(s, s.pcs[t], Program(s, t, a).0, Program(s, t, a).1)
  {
    if Closing(s.pcs[t]) {
      ProgramOwnCloser(s, t, a);
    } else if Owns(s.pcs[t]) {
      ProgramOwnOwner(s, t, a);
    } else {
      ProgramOwnWorker(s, t, a);
    }
  }

  ghost predicate CloseDiscipline(s: State, pc: PC, e: Effect, pc': PC) {
    && (e.SetClosed? ==> s.open && !Closing(pc) && Closing(pc'))
    && (e.Shut? ==> Closing(pc) && !Closing(pc'))
    && (!e.SetClosed? && !e.Shut? ==> Closing(pc') == Closing(pc))
    && (pc'.WStale? || pc'.WDrop? ==> pc.WStale? || pc.WDrop? || s.closed)
    && (e.Send? || e.PopSent? ==> s.open && !Closing(pc))
    && (e.PopUnsent? ==> Closing(pc))
  }

  lemma ProgramCloseWorker(s: State, t: nat, a: Action)
    requires Enabled(s, t, a) && !Owns(s.pcs[t])
    ensures CloseDiscipline(s, s.pcs[t], Program(s, t, a).0, Program(s, t, a).1)
  {
  }

  lemma ProgramCloseOwner(s: State, t: nat, a: Action)
    requires Enabled(s, t, a) && Owns(s.pcs[t]) && !Closing(s.pcs[t])
    ensures CloseDiscipline(s, s.pcs[t], Program(s, t, a).0, Program(s, t, a).1)
  {
  }

  lemma ProgramCloseCloser(s: State, t: nat, a: Action)
    requires Enabled(s, t, a) && Closing(s.pcs[t])
    ensures CloseDiscipline(s, s.pcs[t], Program(s, t, a).0, Program(s, t, a).1)
  {
  }

  lemma ProgramClose(s: State, t: nat, a: Action)
    requires Enabled(s, t, a)
    ensures CloseDiscipline(s, s.pcs[t], Program(s, t, a).0, Program(s, t, a).1)
  {
    if Closing(s.pcs[t]) {
      ProgramCloseCloser(s, t, a);
    } else if Owns(s.pcs[t]) {
      ProgramCloseOwner(s, t, a);
    } else {
      ProgramCloseWorker(s, t, a);
    }
  }

  ghost predicate HandDiscipline(s: State, pc: PC, e: Effect, pc': PC) {
    match e
    case PopJob(c) => Hand(pc) == [] && Hand(pc') == [c] && c < |s.loc| && s.loc[c] == InRing
    case Push(c) => Hand(pc) == [c] && Hand(pc') == []
    case TakeInbox => Hand(pc) == [] && (Hand(pc') == s.inbox || Hand(pc') == Reverse(s.inbox))
    case Queue(c) => Hand(pc) == [c] + Hand(pc')
    case PopSent => Hand(pc) == [] && s.resp != [] && Hand(pc') == [s.resp[0]]
    case PopUnsent => Hand(pc) == [] && s.resp != [] && Hand(pc') == [s.resp[0]]
    case Release(c) => Hand(pc) == [c] + Hand(pc')
    case _ => Hand(pc') == Hand(pc)
  }

  lemma ProgramHandWorker(s: State, t: nat, a: Action)
    requires Enabled(s, t, a) && !Owns(s.pcs[t])
    ensures HandDiscipline(s, s.pcs[t], Program(s, t, a).0, Program(s, t, a).1)
  {
    HeadFirst(Hand(s.pcs[t]));
  }

  lemma ProgramHandFlush(s: State, t: nat, a: Action)
    requires Enabled(s, t, a) && (s.pcs[t].OFlush? || s.pcs[t].OArm?)
    ensures HandDiscipline(s, s.pcs[t], Program(s, t, a).0, Program(s, t, a).1)
  {
  }

  lemma ProgramHandOwner(s: State, t: nat, a: Action)
    requires Enabled(s, t, a) && Owns(s.pcs[t]) && !Closing(s.pcs[t]) && !s.pcs[t].OFlush? && !s.pcs[t].OArm?
    ensures HandDiscipline(s, s.pcs[t], Program(s, t, a).0, Program(s, t, a).1)
  {
    HeadFirst(Hand(s.pcs[t]));
  }

  lemma ProgramHandCloser(s: State, t: nat, a: Action)
    requires Enabled(s, t, a) && Closing(s.pcs[t])
    ensures HandDiscipline(s, s.pcs[t], Program(s, t, a).0, Program(s, t, a).1)
  {
    HeadFirst(Hand(s.pcs[t]));
  }

  lemma ProgramHand(s: State, t: nat, a: Action)
    requires Enabled(s, t, a)
    ensures HandDiscipline(s, s.pcs[t], Program(s, t, a).0, Program(s, t, a).1)
  {
    if Closing(s.pcs[t]) {
      ProgramHandCloser(s, t, a);
    } else if s.pcs[t].OFlush? || s.pcs[t].OArm? {
      ProgramHandFlush(s, t, a);
    } else if Owns(s.pcs[t]) {
      ProgramHandOwner(s, t, a);
    } else {
      ProgramHandWorker(s, t, a);
    }
  }

  lemma HeadFirst(list: seq<Id>)
    ensures list != [] ==> list == [list[0]] + list[1..]
  {
  }

  /** How responses move along while the connection is open. */
  ghost predicate DrainDiscipline(s: State, pc: PC, e: Effect, pc': PC) {
    match e
    case TakeInbox => (pc.ODrain? && Draining(pc') == Reverse(s.inbox)) || pc.WStale? || Closing(pc)
    case Queue(c) => Draining(pc) == [c] + Draining(pc')
    case PopSent => Draining(pc) == [] && Draining(pc') == [] && s.off == TOTAL
    case Send(n) => Draining(pc) == [] && Draining(pc') == [] && Sendable(s, n)
    case NewJob(b) => Draining(pc) == [] && Draining(pc') == [] && |b| == TOTAL
    case _ => Draining(pc') == Draining(pc)
  }

  lemma ProgramDrainWorker(s: State, t: nat, a: Action)
    requires Enabled(s, t, a) && !Owns(s.pcs[t])
    ensures DrainDiscipline(s, s.pcs[t], Program(s, t, a).0, Program(s, t, a).1)
  {
  }

  lemma ProgramDrainOwner(s: State, t: nat, a: Action)
    requires Enabled(s, t, a) && Owns(s.pcs[t]) && !Closing(s.pcs[t])
    ensures DrainDiscipline(s, s.pcs[t], Program(s, t, a).0, Program(s, t, a).1)
  {
  }

  lemma ProgramDrainCloser(s: State, t: nat, a: Action)
    requires Enabled(s, t, a) && Closing(s.pcs[t])
    ensures DrainDiscipline(s, s.pcs[t], Program(s, t, a).0, Program(s, t, a).1)
  {
  }

  lemma ProgramDrain(s: State, t: nat, a: Action)
    requires Enabled(s, t, a)
    ensures DrainDiscipline(s, s.pcs[t], Program(s, t, a).0, Program(s, t, a).1)
  {
    if Closing(s.pcs[t]) {
      ProgramDrainCloser(s, t, a);
    } else if Owns(s.pcs[t]) {
      ProgramDrainOwner(s, t, a);
    } else {
      ProgramDrainWorker(s, t, a);
    }
  }

  // ---- every effect of a disciplined program keeps the invariant ----

  ghost predicate Moves(s: State, t: nat, e: Effect, pc': PC, s': State) {
    t < |s.pcs| && Fits(s, e) && s' == Apply(s, t, e).(pcs := s.pcs[t := pc'])
  }

  lemma KeepOwner(s: State, t: nat, e: Effect, pc': PC, s': State)
    requires OwnerOk(s) && Moves(s, t, e, pc', s') && OwnDiscipline(s, s.pcs[t], e, pc')
    ensures OwnerOk(s')
    ensures OwnerPC(s') == if s.owner == Some(t) || e.Own? then (if e.Disown? then Idle else pc') else OwnerPC(s)
  {
  }

  lemma KeepClosed(s: State, t: nat, e: Effect, pc': PC, s': State)
    requires OwnerOk(s) && ClosedOk(s) && Moves(s, t, e, pc', s') && OwnerOk(s')
    requires OwnDiscipline(s, s.pcs[t], e, pc') && CloseDiscipline(s, s.pcs[t], e, pc')
    requires OwnerPC(s') == if s.owner == Some(t) || e.Own? then (if e.Disown? then Idle else pc') else OwnerPC(s)
    ensures ClosedOk(s')
  {
  }

  // -- places --

  /** One id moves to place p. */
  lemma KeepMoveOne(inbox: seq<Id>, resp: seq<Id>, hands: seq<seq<Id>>, loc: seq<Place>,
                    inbox': seq<Id>, resp': seq<Id>, hands': seq<seq<Id>>, c: Id, p: Place)
    requires PlacesMatch(inbox, resp, hands, loc) && c < |loc| && |hands'| == |hands|
    requires forall i :: i in inbox' <==> (i in inbox && i != c) || (i == c && p == InInbox)
    requires forall i :: i in resp' <==> (i in resp && i != c) || (i == c && p == InResp)
    requires forall t, i :: 0 <= t < |hands| ==>
        (i in hands'[t] <==> (i in hands[t] && i != c) || (i == c && p == InHands(t)))
    requires NoDup(inbox') && NoDup(resp') && forall t :: 0 <= t < |hands'| ==> NoDup(hands'[t])
    requires p.InHands? ==> p.t < |hands|
    ensures PlacesMatch(inbox', resp', hands', loc[c := p])
  {
    var loc' := loc[c := p];
    MembersAt(inbox, loc, InInbox);
    MembersAt(resp, loc, InResp);
    forall t | 0 <= t < |hands| ensures AllAt(hands'[t], loc', InHands(t)) {
      MembersAt(hands[t], loc, InHands(t));
      AtMembers(hands'[t], loc', InHands(t));
    }
    AtMembers(inbox', loc', InInbox);
    AtMembers(resp', loc', InResp);
    forall i | 0 <= i < |loc'| ensures Found(inbox', resp', hands', loc', i) {
      assert Found(inbox, resp, hands, loc, i);
    }
  }

  lemma MembersAt(list: seq<Id>, loc: seq<Place>, p: Place)
    requires AllAt(list, loc, p)
    ensures forall i :: i in list ==> i < |loc| && loc[i] == p
  {
  }

  lemma AtMembers(list: seq<Id>, loc: seq<Place>, p: Place)
    requires NoDup(list) && forall i :: i in list ==> i < |loc| && loc[i] == p
    ensures AllAt(list, loc, p)
  {
    assert forall i :: 0 <= i < |list| ==> list[i] in list;
  }

  lemma ConsElems(c: Id, s: seq<Id>)
    ensures forall i :: i in [c] + s <==> i == c || i in s
    ensures NoDup([c] + s) <==> NoDup(s) && c !in s
  {
    var l := [c] + s;
    assert forall i :: 0 <= i < |s| ==> l[i + 1] == s[i];
    assert forall i :: 0 < i < |l| ==> l[i] == s[i - 1];
    if NoDup(l) {
      forall i | 0 <= i < |s| ensures s[i] != c { assert l[0] == c && l[i + 1] == s[i]; }
      forall i, j | 0 <= i < j < |s| ensures s[i] != s[j] { assert l[i + 1] == s[i] && l[j + 1] == s[j]; }
    }
  }

  lemma SnocElems(s: seq<Id>, c: Id)
    ensures forall i :: i in s + [c] <==> i == c || i in s
    ensures NoDup(s) && c !in s ==> NoDup(s + [c])
  {
  }

  lemma {:induction false} ReverseElems(s: seq<Id>)
    ensures |Reverse(s)| == |s|
    ensures forall i :: i in Reverse(s) <==> i in s
    ensures NoDup(s) ==> NoDup(Reverse(s))
  {
    if s != [] {
      HeadFirst(s);
      ConsElems(s[0], s[1..]);
      ReverseElems(s[1..]);
      SnocElems(Reverse(s[1..]), s[0]);
    }
  }

  /** Where nothing moves but hands stay the same. */
  lemma SameHands(s: State, t: nat, pc': PC)
    requires t < |s.pcs|
    ensures Hands(s.pcs[t := pc']) == Hands(s.pcs)[t := Hand(pc')]
  {
  }

  /** The whole inbox moves into hands t. */
  lemma KeepTakeInbox(inbox: seq<Id>, resp: seq<Id>, hands: seq<seq<Id>>, loc: seq<Place>, t: nat, list: seq<Id>)
    requires PlacesMatch(inbox, resp, hands, loc) && t < |hands| && hands[t] == []
    requires list == inbox || list == Reverse(inbox)
    ensures PlacesMatch([], resp, hands[t := list], MoveAll(loc, inbox, InHands(t)))
  {
    var h', l' := hands[t := list], MoveAll(loc, inbox, InHands(t));
    ReverseElems(inbox);
    MembersAt(inbox, loc, InInbox);
    MembersAt(resp, loc, InResp);
    AtMembers(resp, l', InResp);
    forall u | 0 <= u < |h'| ensures AllAt(h'[u], l', InHands(u)) {
      MembersAt(hands[u], loc, InHands(u));
      AtMembers(h'[u], l', InHands(u));
    }
    forall i | 0 <= i < |l'| ensures Found([], resp, h', l', i) {
      assert Found(inbox, resp, hands, loc, i);
    }
  }

  lemma KeepNewJob(inbox: seq<Id>, resp: seq<Id>, hands: seq<seq<Id>>, loc: seq<Place>)
    requires PlacesMatch(inbox, resp, hands, loc)
    ensures PlacesMatch(inbox, resp, hands, loc + [InRing])
  {
    var l' := loc + [InRing];
    forall u | 0 <= u < |hands| ensures AllAt(hands[u], l', InHands(u)) {
      assert AllAt(hands[u], loc, InHands(u));
    }
    forall i | 0 <= i < |l'| ensures Found(inbox, resp, hands, l', i) {
      if i < |loc| { assert Found(inbox, resp, hands, loc, i); }
    }
  }

  lemma KeepPlaces(s: State, t: nat, e: Effect, pc': PC, s': State)
    requires PlacesMatch(s.inbox, s.resp, Hands(s.pcs), s.loc) && Moves(s, t, e, pc', s') &&
        HandDiscipline(s, s.pcs[t], e, pc')
    ensures PlacesMatch(s'.inbox, s'.resp, Hands(s'.pcs), s'.loc)
  {
    var h := Hands(s.pcs);
    var h' := h[t := Hand(pc')];
    SameHands(s, t, pc');
    assert h[t] == Hand(s.pcs[t]) && AllAt(h[t], s.loc, InHands(t));
    if e.PopJob? || e.Push? || e.Queue? || e.Release? {
      KeepMoved(s, t, e, pc', s');
    } else if e.NewJob? || e.TakeInbox? || e.PopSent? || e.PopUnsent? {
      KeepTaken(s, t, e, pc', s');
    } else {
      assert h' == h;
    }
  }

  lemma KeepMoved(s: State, t: nat, e: Effect, pc': PC, s': State)
    requires PlacesMatch(s.inbox, s.resp, Hands(s.pcs), s.loc) && Moves(s, t, e, pc', s') &&
        HandDiscipline(s, s.pcs[t], e, pc')
    requires e.PopJob? || e.Push? || e.Queue? || e.Release?
    ensures PlacesMatch(s'.inbox, s'.resp, Hands(s'.pcs), s'.loc)
  {
    var h := Hands(s.pcs);
    SameHands(s, t, pc');
    match e
    case PopJob(c) => MovePop(s.inbox, s.resp, h, s.loc, t, c);
    case Push(c) => MovePush(s.inbox, s.resp, h, s.loc, t, c);
    case Queue(c) => MoveQueue(s.inbox, s.resp, h, s.loc, t, c, Hand(pc'));
    case Release(c) => MoveGone(s.inbox, s.resp, h, s.loc, t, c, Hand(pc'));
  }

  lemma KeepTaken(s: State, t: nat, e: Effect, pc': PC, s': State)
    requires PlacesMatch(s.inbox, s.resp, Hands(s.pcs), s.loc) && Moves(s, t, e, pc', s') &&
        HandDiscipline(s, s.pcs[t], e, pc')
    requires e.NewJob? || e.TakeInbox? || e.PopSent? || e.PopUnsent?
    ensures PlacesMatch(s'.inbox, s'.resp, Hands(s'.pcs), s'.loc)
  {
    var h := Hands(s.pcs);
    SameHands(s, t, pc');
    match e
    case NewJob(_) =>
      assert h[t := Hand(pc')] == h;
      KeepNewJob(s.inbox, s.resp, h, s.loc);
    case TakeInbox => KeepTakeInbox(s.inbox, s.resp, h, s.loc, t, Hand(pc'));
    case PopSent => PopHead(s.inbox, s.resp, h, s.loc, t);
    case PopUnsent => PopHead(s.inbox, s.resp, h, s.loc, t);
  }

  lemma MovePop(inbox: seq<Id>, resp: seq<Id>, hands: seq<seq<Id>>, loc: seq<Place>, t: nat, c: Id)
    requires PlacesMatch(inbox, resp, hands, loc) && t < |hands| && hands[t] == [] && c < |loc| && loc[c] == InRing
    ensures PlacesMatch(inbox, resp, hands[t := [c]], loc[c := InHands(t)])
  {
    MembersAt(inbox, loc, InInbox);
    MembersAt(resp, loc, InResp);
    Single(inbox, resp, hands, loc, inbox, resp, t, [c], c, InHands(t));
  }

  lemma MovePush(inbox: seq<Id>, resp: seq<Id>, hands: seq<seq<Id>>, loc: seq<Place>, t: nat, c: Id)
    requires PlacesMatch(inbox, resp, hands, loc) && t < |hands| && hands[t] == [c]
    ensures c < |loc| && PlacesMatch([c] + inbox, resp, hands[t := []], loc[c := InInbox])
  {
    assert AllAt(hands[t], loc, InHands(t)) && hands[t][0] == c;
    MembersAt(inbox, loc, InInbox);
    MembersAt(resp, loc, InResp);
    ConsElems(c, inbox);
    Single(inbox, resp, hands, loc, [c] + inbox, resp, t, [], c, InInbox);
  }

  lemma MoveQueue(inbox: seq<Id>, resp: seq<Id>, hands: seq<seq<Id>>, loc: seq<Place>, t: nat, c: Id, rest: seq<Id>)
    requires PlacesMatch(inbox, resp, hands, loc) && t < |hands| && hands[t] == [c] + rest
    ensures c < |loc| && PlacesMatch(inbox, resp + [c], hands[t := rest], loc[c := InResp])
  {
    assert AllAt(hands[t], loc, InHands(t)) && hands[t][0] == c;
    MembersAt(inbox, loc, InInbox);
    MembersAt(resp, loc, InResp);
    ConsElems(c, rest);
    SnocElems(resp, c);
    Single(inbox, resp, hands, loc, inbox, resp + [c], t, rest, c, InResp);
  }

  lemma MoveGone(inbox: seq<Id>, resp: seq<Id>, hands: seq<seq<Id>>, loc: seq<Place>, t: nat, c: Id, rest: seq<Id>)
    requires PlacesMatch(inbox, resp, hands, loc) && t < |hands| && hands[t] == [c] + rest
    ensures c < |loc| && loc[c] != Gone && PlacesMatch(inbox, resp, hands[t := rest], loc[c := Gone])
  {
    assert AllAt(hands[t], loc, InHands(t)) && hands[t][0] == c;
    MembersAt(inbox, loc, InInbox);
    MembersAt(resp, loc, InResp);
    ConsElems(c, rest);
    Single(inbox, resp, hands, loc, inbox, resp, t, rest, c, Gone);
  }

  lemma PopHead(inbox: seq<Id>, resp: seq<Id>, hands: seq<seq<Id>>, loc: seq<Place>, t: nat)
    requires PlacesMatch(inbox, resp, hands, loc) && t < |hands| && hands[t] == [] && resp != [] && resp[0] < |loc|
    ensures PlacesMatch(inbox, resp[1..], hands[t := [resp[0]]], loc[resp[0] := InHands(t)])
  {
    HeadFirst(resp);
    ConsElems(resp[0], resp[1..]);
    Single(inbox, resp, hands, loc, inbox, resp[1..], t, [resp[0]], resp[0], InHands(t));
  }

  /** One id moves between thread t's hands, inbox, response list and the rest. */
  lemma Single(inbox: seq<Id>, resp: seq<Id>, hands: seq<seq<Id>>, loc: seq<Place>,
               inbox': seq<Id>, resp': seq<Id>, t: nat, hand: seq<Id>, c: Id, p: Place)
    requires PlacesMatch(inbox, resp, hands, loc) && c < |loc| && t < |hands|
    requires loc[c] == InHands(t) || loc[c] == InRing || loc[c] == InResp
    requires p == InHands(t) || !p.InHands?
    requires forall i :: i in inbox' <==> (i in inbox && i != c) || (i == c && p == InInbox)
    requires forall i :: i in resp' <==> (i in resp && i != c) || (i == c && p == InResp)
    requires forall i :: i in hand <==> (i in hands[t] && i != c) || (i == c && p == InHands(t))
    requires NoDup(inbox') && NoDup(resp') && NoDup(hand)
    ensures PlacesMatch(inbox', resp', hands[t := hand], loc[c := p])
  {
    var hands' := hands[t := hand];
    forall u, i | 0 <= u < |hands|
      ensures i in hands'[u] <==> (i in hands[u] && i != c) || (i == c && p == InHands(u))
    {
      if u != t { MembersAt(hands[u], loc, InHands(u)); }
    }
    forall u | 0 <= u < |hands'| ensures NoDup(hands'[u]) {
      assert AllAt(hands[u], loc, InHands(u));
    }
    KeepMoveOne(inbox, resp, hands, loc, inbox', resp', hands', c, p);
  }

  // -- reference count --

  lemma {:induction false} LiveSame(l: seq<Place>, m: seq<Place>)
    requires |l| == |m| && forall i :: 0 <= i < |l| ==> (l[i] == Gone <==> m[i] == Gone)
    ensures Live(l) == Live(m)
  {
    if l != [] { LiveSame(l[..|l| - 1], m[..|m| - 1]); }
  }

  lemma {:induction false} LiveLeaves(l: seq<Place>, c: Id)
    requires c < |l| && l[c] != Gone
    ensures Live(l[c := Gone]) + 1 == Live(l)
  {
    var n := |l| - 1;
    if c < n {
      assert l[c := Gone][..n] == l[..n][c := Gone];
      LiveLeaves(l[..n], c);
    } else {
      assert l[c := Gone][..n] == l[..n];
    }
  }

  /** What an effect moves has not been released. */
  ghost predicate MovesLive(s: State, e: Effect) {
    match e
    case PopJob(c) => c < |s.loc| && s.loc[c] != Gone
    case Push(c) => c < |s.loc| && s.loc[c] != Gone
    case TakeInbox => forall i :: i in s.inbox ==> i < |s.loc| && s.loc[i] != Gone
    case Queue(c) => c < |s.loc| && s.loc[c] != Gone
    case PopSent => s.resp != [] && s.resp[0] < |s.loc| && s.loc[s.resp[0]] != Gone
    case PopUnsent => s.resp != [] && s.resp[0] < |s.loc| && s.loc[s.resp[0]] != Gone
    case Release(c) => c < |s.loc| && s.loc[c] != Gone
    case ReleaseAccept => s.accept
    case _ => true
  }

  /** In particular, no completion is released twice. */
  lemma EffectLive(s: State, t: nat, e: Effect, pc': PC)
    requires PlacesMatch(s.inbox, s.resp, Hands(s.pcs), s.loc) && t < |s.pcs|
    requires HandDiscipline(s, s.pcs[t], e, pc') && (e.ReleaseAccept? ==> s.accept)
    ensures MovesLive(s, e)
  {
    var h := Hands(s.pcs);
    assert h[t] == Hand(s.pcs[t]) && AllAt(h[t], s.loc, InHands(t));
    if e.Push? || e.Queue? || e.Release? { assert h[t][0] == e.c; }
    if e.TakeInbox? { MembersAt(s.inbox, s.loc, InInbox); }
  }

  lemma KeepRefs(s: State, t: nat, e: Effect, pc': PC, s': State)
    requires RefsOk(s) && Moves(s, t, e, pc', s') && MovesLive(s, e)
    ensures RefsOk(s')
  {
    match e
    case NewJob(_) => assert (s.loc + [InRing])[..|s.loc|] == s.loc;
    case Release(c) => LiveLeaves(s.loc, c);
    case _ => LiveSame(s.loc, s'.loc);
  }

  // -- order of responses --

  lemma KeepOrder(s: State, t: nat, e: Effect, pc': PC, s': State)
    requires OwnerOk(s) && ClosedOk(s) && OrderOk(s) && OwnerOk(s')
    requires Moves(s, t, e, pc', s')
    requires OwnDiscipline(s, s.pcs[t], e, pc') && CloseDiscipline(s, s.pcs[t], e, pc') &&
        DrainDiscipline(s, s.pcs[t], e, pc')
    requires OwnerPC(s') == if s.owner == Some(t) || e.Own? then (if e.Disown? then Idle else pc') else OwnerPC(s)
    requires e.PopSent? ==> s.resp != []
    ensures OrderOk(s')
  {
    if !s'.closed {
      var d, d' := Draining(OwnerPC(s)), Draining(OwnerPC(s'));
      if e.Push? {
        OrderPush(s.flushed + s.resp + d, s.inbox, e.c);
      } else if e.TakeInbox? {
        OrderTake(s.flushed + s.resp, Reverse(s.inbox));
      } else if e.Queue? {
        OrderQueue(s.flushed, s.resp, e.c, d', Reverse(s.inbox));
      } else if e.PopSent? {
        OrderSent(s.flushed, s.resp, d, Reverse(s.inbox));
      }
    }
  }

  lemma OrderPush(before: seq<Id>, inbox: seq<Id>, c: Id)
    ensures before + Reverse([c] + inbox) == before + Reverse(inbox) + [c]
  {
    assert ([c] + inbox)[1..] == inbox;
    Assoc(before, Reverse(inbox), [c]);
  }

  lemma OrderTake(before: seq<Id>, drained: seq<Id>)
    ensures before + [] + drained == before + drained + Reverse([])
  {
    assert before + [] == before && before + drained + [] == before + drained;
  }

  lemma OrderQueue(flushed: seq<Id>, resp: seq<Id>, c: Id, d: seq<Id>, rest: seq<Id>)
    ensures flushed + resp + ([c] + d) + rest == flushed + (resp + [c]) + d + rest
  {
    Assoc(flushed, resp, [c]);
    Assoc(flushed + resp, [c], d);
  }

  lemma OrderSent(flushed: seq<Id>, resp: seq<Id>, d: seq<Id>, rest: seq<Id>)
    requires resp != []
    ensures flushed + resp + d + rest == flushed + [resp[0]] + resp[1..] + d + rest
  {
    HeadFirst(resp);
    Assoc(flushed, [resp[0]], resp[1..]);
  }

  // -- bytes --

  lemma CatSnoc(body: seq<Bytes>, ids: seq<Id>, c: Id)
    requires c < |body|
    ensures Cat(body, ids + [c]) == Cat(body, ids) + body[c]
  {
    assert (ids + [c])[..|ids|] == ids;
  }

  lemma DropLast(a: seq<Id>, b: seq<Id>)
    requires b != []
    ensures (a + b)[..|a + b| - 1] == a + b[..|b| - 1] && (a + b)[|a + b| - 1] == b[|b| - 1]
  {
  }

  lemma {:induction false} CatAppend(body: seq<Bytes>, a: seq<Id>, b: seq<Id>)
    ensures Cat(body, a + b) == Cat(body, a) + Cat(body, b)
  {
    if b == [] {
      assert a + b == a;
    } else {
      var n := |b| - 1;
      DropLast(a, b);
      CatAppend(body, a, b[..n]);
      Assoc(Cat(body, a), Cat(body, b[..n]), if b[n] < |body| then body[b[n]] else []);
    }
  }

  lemma {:induction false} CatGrow(body: seq<Bytes>, x: Bytes, ids: seq<Id>)
    requires forall i :: 0 <= i < |ids| ==> ids[i] < |body|
    ensures Cat(body + [x], ids) == Cat(body, ids)
  {
    if ids != [] { CatGrow(body, x, ids[..|ids| - 1]); }
  }

  lemma PrefixAfter(a: Bytes, b: Bytes, c: Bytes)
    requires b <= c
    ensures a + b <= a + c
  {
  }

  lemma HeadOfCat(body: seq<Bytes>, ids: seq<Id>, n: nat)
    requires ids != [] && ids[0] < |body| && n <= |body[ids[0]]|
    ensures body[ids[0]][..n] <= Cat(body, ids)
  {
    var c := ids[0];
    HeadFirst(ids);
    CatAppend(body, [c], ids[1..]);
    assert [c][..0] == [] && Cat(body, [c]) == [] + body[c] == body[c];
  }

  /** While open, the responses pushed begin with what has been sent and what is being sent. */
  lemma SentIsPrefix(s: State)
    requires OwnerOk(s) && OrderOk(s) && !s.closed
    requires s.resp != [] ==> s.resp[0] < |s.body| && s.off <= |s.body[s.resp[0]]|
    ensures Cat(s.body, s.flushed) + Partial(s) <= Cat(s.body, s.pushed)
  {
    var tail := Draining(OwnerPC(s)) + Reverse(s.inbox);
    var rest := s.resp + tail;
    assert s.pushed == s.flushed + rest;
    CatAppend(s.body, s.flushed, rest);
    if s.resp != [] {
      assert rest[0] == s.resp[0];
      HeadOfCat(s.body, rest, s.off);
    }
    PrefixAfter(Cat(s.body, s.flushed), Partial(s), Cat(s.body, rest));
  }

  lemma KeepBodies(s: State, t: nat, e: Effect, pc': PC, s': State)
    requires Bodies(s) && Moves(s, t, e, pc', s') && DrainDiscipline(s, s.pcs[t], e, pc')
    requires s.resp != [] ==> s.resp[0] < |s.body|
    ensures Bodies(s')
  {
  }

  lemma JoinSlices(b: Bytes, i: nat, n: nat)
    requires i + n <= |b|
    ensures b[..i] + b[i..i + n] == b[..i + n]
  {
  }

  lemma KeepWire(s: State, t: nat, e: Effect, pc': PC, s': State)
    requires Bodies(s) && Bodies(s') && Moves(s, t, e, pc', s') && DrainDiscipline(s, s.pcs[t], e, pc')
    requires s.wire == Cat(s.body, s.flushed) + Partial(s) && !e.PopUnsent?
    requires forall i :: 0 <= i < |s.resp| ==> s.resp[i] < |s.body|
    ensures s'.wire == Cat(s'.body, s'.flushed) + Partial(s')
  {
    if e.Send? || e.PopSent? {
      KeepSent(s, t, e, pc', s');
    } else if e.NewJob? {
      CatGrow(s.body, e.b, s.flushed);
    }
  }

  lemma KeepSent(s: State, t: nat, e: Effect, pc': PC, s': State)
    requires Bodies(s) && Moves(s, t, e, pc', s') && DrainDiscipline(s, s.pcs[t], e, pc')
    requires s.wire == Cat(s.body, s.flushed) + Partial(s) && (e.Send? || e.PopSent?)
    requires s.resp != [] ==> s.resp[0] < |s.body|
    ensures s'.wire == Cat(s'.body, s'.flushed) + Partial(s')
  {
    var b := s.body[s.resp[0]];
    if e.Send? {
      WireSend(Cat(s.body, s.flushed), b, s.off, e.n);
    } else {
      CatSnoc(s.body, s.flushed, s.resp[0]);
      WholeResponse(Cat(s.body, s.flushed), b);
    }
  }

  lemma WireSend(sent: Bytes, b: Bytes, off: nat, n: nat)
    requires off + n <= |b|
    ensures sent + b[..off] + b[off..off + n] == sent + b[..off + n]
  {
    JoinSlices(b, off, n);
    Assoc(sent, b[..off], b[off..off + n]);
  }

  lemma WholeResponse(sent: Bytes, b: Bytes)
    ensures sent + b[..|b|] == sent + b + []
  {
    assert b[..|b|] == b;
  }

  lemma KeepClosedWire(s: State, t: nat, e: Effect, pc': PC, s': State)
    requires Bodies(s) && Moves(s, t, e, pc', s') && !e.Send?
    requires s.wire <= Cat(s.body, s.pushed)
    ensures s'.wire <= Cat(s'.body, s'.pushed)
  {
    if e.NewJob? { CatGrow(s.body, e.b, s.pushed); }
    if e.Push? { CatSnoc(s.body, s.pushed, e.c); }
  }

  lemma KeepBytes(s: State, t: nat, e: Effect, pc': PC, s': State)
    requires OwnerOk(s) && ClosedOk(s) && BytesOk(s)
    requires Moves(s, t, e, pc', s')
    requires OwnDiscipline(s, s.pcs[t], e, pc') && CloseDiscipline(s, s.pcs[t], e, pc') &&
        DrainDiscipline(s, s.pcs[t], e, pc')
    requires OwnerOk(s') && OrderOk(s')
    requires forall i :: 0 <= i < |s.resp| ==> s.resp[i] < |s.loc|
    requires forall i :: 0 <= i < |s'.resp| ==> s'.resp[i] < |s'.loc|
    ensures BytesOk(s')
  {
    KeepBodies(s, t, e, pc', s');
    if s'.closed {
      KeepClosedWire(s, t, e, pc', s');
    } else {
      KeepWire(s, t, e, pc', s');
      SentIsPrefix(s');
    }
  }

  // ---- all steps and all runs ----

  lemma StepFits(s: State, t: nat, a: Action)
    requires Inv(s) && Enabled(s, t, a)
    ensures Fits(s, Program(s, t, a).0)
  {
    var (e, pc') := Program(s, t, a);
    ProgramHand(s, t, a);
    ProgramDrain(s, t, a);
    EffectLive(s, t, e, pc');
    assert Hands(s.pcs)[t] == Hand(s.pcs[t]) && AllAt(Hands(s.pcs)[t], s.loc, InHands(t));
    if e.SetAddr? { assert Hand(s.pcs[t])[0] == e.c; }
    if e.Send? { assert s.resp[0] < |s.loc|; }
  }

  ghost predicate Disciplined(s: State, t: nat, e: Effect, pc': PC)
    requires t < |s.pcs|
  {
    && (e.ReleaseAccept? ==> s.ios == 1 && !s.open && s.retired)
    && OwnDiscipline(s, s.pcs[t], e, pc') && CloseDiscipline(s, s.pcs[t], e, pc')
    && HandDiscipline(s, s.pcs[t], e, pc') && DrainDiscipline(s, s.pcs[t], e, pc')
    && Fits(s, e) && MovesLive(s, e)
  }

  lemma StepDisciplined(s: State, t: nat, a: Action)
    requires Inv(s) && Enabled(s, t, a)
    ensures Disciplined(s, t, Program(s, t, a).0, Program(s, t, a).1)
  {
    var (e, pc') := Program(s, t, a);
    StepFits(s, t, a);
    ProgramOwn(s, t, a);
    ProgramClose(s, t, a);
    ProgramHand(s, t, a);
    ProgramDrain(s, t, a);
    EffectLive(s, t, e, pc');
  }

  lemma KeepFirst(s: State, t: nat, e: Effect, pc': PC, s': State)
    requires Inv(s) && Moves(s, t, e, pc', s') && Disciplined(s, t, e, pc')
    ensures OwnerOk(s') && ClosedOk(s') && PlacesMatch(s'.inbox, s'.resp, Hands(s'.pcs), s'.loc) && RefsOk(s')
  {
    KeepOwner(s, t, e, pc', s');
    KeepClosed(s, t, e, pc', s');
    KeepPlaces(s, t, e, pc', s');
    KeepRefs(s, t, e, pc', s');
  }

  lemma KeepSecond(s: State, t: nat, e: Effect, pc': PC, s': State)
    requires Inv(s) && Moves(s, t, e, pc', s') && Disciplined(s, t, e, pc')
    requires OwnerOk(s') && AllAt(s'.resp, s'.loc, InResp)
    ensures OrderOk(s') && BytesOk(s')
  {
    KeepOwner(s, t, e, pc', s');
    KeepOrder(s, t, e, pc', s');
    assert AllAt(s.resp, s.loc, InResp);
    KeepBytes(s, t, e, pc', s');
  }

  lemma KeepAccept(s: State, t: nat, e: Effect, pc': PC, s': State)
    requires AcceptOk(s) && Moves(s, t, e, pc', s') && (e.ReleaseAccept? ==> s.ios == 1 && !s.open && s.retired)
    requires OwnerOk(s) && ClosedOk(s) && OwnDiscipline(s, s.pcs[t], e, pc') && CloseDiscipline(s, s.pcs[t], e, pc')
    ensures AcceptOk(s')
  {
  }

  lemma KeepInv(s: State, t: nat, e: Effect, pc': PC, s': State)
    requires Inv(s) && Moves(s, t, e, pc', s') && Disciplined(s, t, e, pc')
    ensures Inv(s')
  {
    KeepFirst(s, t, e, pc', s');
    KeepSecond(s, t, e, pc', s');
    KeepAccept(s, t, e, pc', s');
  }

  lemma StepInv(s: State, t: nat, a: Action)
    requires Inv(s) && Enabled(s, t, a)
    ensures Inv(Do(s, t, a))
  {
    var (e, pc') := Program(s, t, a);
    var s' := Do(s, t, a);
    StepDisciplined(s, t, a);
    KeepInv(s, t, e, pc', s');
  }

  datatype Step = Step(t: nat, a: Action)

  ghost predicate Leads(s: State, run: seq<Step>, s': State)
    decreases |run|
  {
    if run == [] then s' == s
    else Enabled(s, run[0].t, run[0].a) && Leads(Do(s, run[0].t, run[0].a), run[1..], s')
  }

  /** Reached from an accepted connection by some interleaving of some number of threads. */
  ghost predicate Reachable(s: State) {
    exists threads: nat, ios: nat, run :: Leads(Init(threads, ios), run, s)
  }

  lemma {:induction false} RunInv(s: State, run: seq<Step>, s': State)
    requires Inv(s) && Leads(s, run, s')
    ensures Inv(s')
    decreases |run|
  {
    if run != [] {
      StepInv(s, run[0].t, run[0].a);
      RunInv(Do(s, run[0].t, run[0].a), run[1..], s');
    }
  }

  lemma InitInv(threads: nat, ios: nat)
    ensures Inv(Init(threads, ios))
  {
    var s := Init(threads, ios);
    assert forall t :: 0 <= t < threads ==> Hands(s.pcs)[t] == [];
    assert PlacesMatch([], [], Hands(s.pcs), []);
    assert Reverse([]) == [] && OrderOk(s);
    assert Cat(s.body, s.flushed) == [] && Partial(s) == [] && BytesOk(s);
  }

  lemma ReachableInv(s: State)
    requires Reachable(s)
    ensures Inv(s)
  {
    var threads: nat, ios: nat, run :| Leads(Init(threads, ios), run, s);
    InitInv(threads, ios);
    RunInv(Init(threads, ios), run, s);
  }

  /** At most one thread owns the connection. */
  lemma OneOwner(s: State, t: nat, u: nat)
    requires Reachable(s) && t < |s.pcs| && u < |s.pcs| && Owns(s.pcs[t]) && Owns(s.pcs[u])
    ensures t == u
  {
    ReachableInv(s);
  }

  lemma FlushedFirst(s: State)
    requires OwnerOk(s) && OrderOk(s)
    ensures !s.closed ==> s.flushed <= s.pushed
  {
    var d := Draining(OwnerPC(s));
    assert s.flushed + s.resp + d + Reverse(s.inbox) == s.flushed + (s.resp + d + Reverse(s.inbox));
  }

  /** The bytes sent are always a prefix of the responses in the order their pushes succeeded; while
      the connection is open, exactly the completely sent ones and the first bytes of the next. */
  lemma SentInOrder(s: State)
    requires Reachable(s)
    ensures s.wire <= Cat(s.body, s.pushed)
    ensures !s.closed ==> s.flushed <= s.pushed && s.wire == Cat(s.body, s.flushed) + Partial(s)
  {
    ReachableInv(s);
    FlushedFirst(s);
  }

  /** The reference count is the accept reference plus the requests not released, and with more than
      one I/O thread it never reaches 0. */
  lemma RefcountExact(s: State)
    requires Reachable(s)
    ensures s.refcnt == Live(s.loc) + if s.accept then 1 else 0
    ensures s.ios != 1 ==> s.refcnt >= 1
  {
    ReachableInv(s);
  }

  /** A completion about to be released has not been released before, and no other thread or list
      holds it. */
  lemma ReleasedOnce(s: State, t: nat, a: Action, c: Id)
    requires Reachable(s) && Enabled(s, t, a) && Program(s, t, a).0 == Release(c)
    ensures c < |s.loc| && s.loc[c] == InHands(t) && c !in s.inbox && c !in s.resp
    ensures forall u :: 0 <= u < |s.pcs| && u != t ==> c !in Hand(s.pcs[u])
  {
    ReachableInv(s);
    ProgramHand(s, t, a);
    var h := Hands(s.pcs);
    assert h[t] == Hand(s.pcs[t]) && AllAt(h[t], s.loc, InHands(t)) && h[t][0] == c;
    MembersAt(s.inbox, s.loc, InInbox);
    MembersAt(s.resp, s.loc, InResp);
    forall u | 0 <= u < |s.pcs| && u != t ensures c !in Hand(s.pcs[u]) {
      MembersAt(h[u], s.loc, InHands(u));
    }
  }
}
