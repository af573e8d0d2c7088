/** The job ring of the pool server (bench/servers/common-linux-pool.c): a ticketed ring with any
    number of pushers and poppers and a semaphore. Every atomic operation is one step of one
    thread; the capacity and the number of threads are arbitrary. */
module JobRing {
  import opened Options

  type Job = nat

  datatype Cell = Cell(seq_: nat, job: Job)

  /** Where a thread stands inside job_ring_push or job_ring_pop_wait. */
  datatype PC =
    | Idle
    | PushSpin(pos: nat, job: Job)    // ticket taken, waiting for cell.seq == pos
    | PushWrite(pos: nat, job: Job)   // about to write the job
    | PushStore(pos: nat)             // about to store pos + 1
    | PushPost                        // about to post
    | PopWait                         // in sem_wait
    | PopClaim                        // about to take a ticket
    | PopSpin(pos: nat)               // waiting for cell.seq == pos + 1
    | PopRead(pos: nat)               // about to read the job
    | PopStore(pos: nat, job: Job)    // about to store pos + capacity

  /** jobs and got are history: the job of every push ticket, and what each pop ticket received. */
  datatype State = State(cells: seq<Cell>, head: nat, tail: nat, sem: nat, pcs: seq<PC>,
                         jobs: seq<Job>, got: map<nat, Job>)

  datatype Label = BeginPush(job: Job) | SeePush | Write | Publish | Post | BeginPop | Wait | ClaimPop | SeePop
    | Read | Free

  function Init(capacity: nat, threads: nat): State {
    State(seq(capacity, i requires i >= 0 => Cell(i, 0)), 0, 0, 0, seq(threads, _ => Idle), [], map[])
  }

  /** The cell of ticket p. */
  function CellOf(s: State, p: nat): Cell
    requires |s.cells| > 0
  {
    s.cells[p % |s.cells|]
  }

  predicate Enabled(s: State, t: nat, l: Label)
    requires |s.cells| > 0
  {
    t < |s.pcs| &&
    var pc := s.pcs[t];
    match l
    case BeginPush(_) => pc.Idle?
    case SeePush => pc.PushSpin? && CellOf(s, pc.pos).seq_ == pc.pos
    case Write => pc.PushWrite?
    case Publish => pc.PushStore?
    case Post => pc.PushPost?
    case BeginPop => pc.Idle?
    case Wait => pc.PopWait? && s.sem > 0
    case ClaimPop => pc.PopClaim?
    case SeePop => pc.PopSpin? && CellOf(s, pc.pos).seq_ == pc.pos + 1
    case Read => pc.PopRead?
    case Free => pc.PopStore?
  }

  function SetCell(s: State, p: nat, c: Cell): seq<Cell>
    requires |s.cells| > 0
  {
    s.cells[p % |s.cells| := c]
  }

  function Do(s: State, t: nat, l: Label): State
    requires |s.cells| > 0 && Enabled(s, t, l)
  {
    var pc := s.pcs[t];
    match l
    case BeginPush(job) =>
      s.(head := s.head + 1, jobs := s.jobs + [job], pcs := s.pcs[t := PushSpin(s.head, job)])
    case SeePush => s.(pcs := s.pcs[t := PushWrite(pc.pos, pc.job)])
    case Write =>
      s.(cells := SetCell(s, pc.pos, CellOf(s, pc.pos).(job := pc.job)), pcs := s.pcs[t := PushStore(pc.pos)])
    case Publish =>
      s.(cells := SetCell(s, pc.pos, CellOf(s, pc.pos).(seq_ := pc.pos + 1)), pcs := s.pcs[t := PushPost])
    case Post => s.(sem := s.sem + 1, pcs := s.pcs[t := Idle])
    case BeginPop => s.(pcs := s.pcs[t := PopWait])
    case Wait => s.(sem := s.sem - 1, pcs := s.pcs[t := PopClaim])
    case ClaimPop => s.(tail := s.tail + 1, pcs := s.pcs[t := PopSpin(s.tail)])
    case SeePop => s.(pcs := s.pcs[t := PopRead(pc.pos)])
    case Read =>
      var job := CellOf(s, pc.pos).job;
      s.(got := s.got[pc.pos := job], pcs := s.pcs[t := PopStore(pc.pos, job)])
    case Free =>
      s.(cells := SetCell(s, pc.pos, CellOf(s, pc.pos).(seq_ := pc.pos + |s.cells|)), pcs := s.pcs[t := Idle])
  }

  // ---- the invariant ----

  predicate Pushing(pc: PC, p: nat) {
    (pc.PushSpin? || pc.PushWrite? || pc.PushStore?) && pc.pos == p
  }

  predicate Popping(pc: PC, p: nat) {
    (pc.PopSpin? || pc.PopRead? || pc.PopStore?) && pc.pos == p
  }

  ghost predicate BeingPushed(pcs: seq<PC>, p: nat) { exists t :: 0 <= t < |pcs| && Pushing(pcs[t], p) }
  ghost predicate BeingPopped(pcs: seq<PC>, p: nat) { exists t :: 0 <= t < |pcs| && Popping(pcs[t], p) }

  /** Posts still owed and posts consumed whose ticket is not taken yet. */
  function Weight(pc: PC): nat {
    if pc.PushSpin? || pc.PushWrite? || pc.PushStore? || pc.PushPost? || pc.PopClaim? then 1 else 0
  }

  function Sum(pcs: seq<PC>): nat {
    if pcs == [] then 0 else Sum(pcs[..|pcs| - 1]) + Weight(pcs[|pcs| - 1])
  }

  /** seq is the ticket the cell is free for, or one more than the ticket it holds. */
  ghost predicate CellsOk(s: State) {
    forall c :: 0 <= c < |s.cells| ==>
      var q := s.cells[c].seq_;
      q % |s.cells| == c || (q > 0 && (q - 1) % |s.cells| == c && q <= |s.jobs| && s.cells[c].job == s.jobs[q - 1])
  }

  /** How far the cell of ticket p has come. */
  ghost predicate TicketOk(s: State, p: nat)
    requires |s.cells| > 0
  {
    var q := CellOf(s, p).seq_;
    && (p < s.head && !BeingPushed(s.pcs, p) <==> q >= p + 1)
    && (p < s.tail && !BeingPopped(s.pcs, p) <==> q >= p + |s.cells|)
    && (q < p + |s.cells| ==> q <= p + 1)
  }

  ghost predicate ThreadOk(s: State, t: nat)
    requires |s.cells| > 0 && t < |s.pcs|
  {
    match s.pcs[t]
    case PushSpin(p, job) => p < s.head <= |s.jobs| && job == s.jobs[p]
    case PushWrite(p, job) => p < s.head <= |s.jobs| && job == s.jobs[p] && CellOf(s, p).seq_ == p
    case PushStore(p) => p < s.head <= |s.jobs| && CellOf(s, p) == Cell(p, s.jobs[p])
    case PopSpin(p) => p < s.tail && p !in s.got
    case PopRead(p) => p < s.tail && p !in s.got && CellOf(s, p).seq_ == p + 1
    case PopStore(p, job) => p < s.tail <= |s.jobs| && CellOf(s, p).seq_ == p + 1 && job == s.jobs[p]
    case _ => true
  }

  /** No ticket is in two hands. */
  ghost predicate Distinct(pcs: seq<PC>) {
    && (forall t, u, p: nat :: 0 <= t < |pcs| && 0 <= u < |pcs| && Pushing(pcs[t], p) && Pushing(pcs[u], p) ==> t == u)
    && (forall t, u, p: nat :: 0 <= t < |pcs| && 0 <= u < |pcs| && Popping(pcs[t], p) && Popping(pcs[u], p) ==> t == u)
  }

  ghost predicate Inv(s: State) {
    && |s.cells| >= 2
    && |s.jobs| == s.head
    && s.sem + s.tail + Sum(s.pcs) == s.head
    && Distinct(s.pcs)
    && CellsOk(s)
    && (forall p: nat :: TicketOk(s, p))
    && (forall t :: 0 <= t < |s.pcs| ==> ThreadOk(s, t))
    && (forall p :: p in s.got ==> p < s.tail && s.got[p] == s.jobs[p])
  }

  // ---- every step keeps the invariant ----

  /** Two tickets of one cell are at least one lap apart. */
  lemma Lap(a: nat, b: nat, n: nat)
    requires n > 0 && a % n == b % n && a < b
    ensures a + n <= b
  {
    var i, j := a / n, b / n;
    assert a == n * i + a % n && b == n * j + b % n;
    if i < j {
      Below(n, i + 1, j);
      assert n * (i + 1) == n * i + n;
    } else {
      Below(n, j, i);
    }
  }

  lemma NextLap(a: nat, n: nat)
    requires n > 0
    ensures (a + n) % n == a % n
  {
    var r := a % n;
    assert a == n * (a / n) + r;
    assert a + n == n * (a / n + 1) + r;
    Quotient(a + n, n, a / n + 1, r);
  }

  lemma Quotient(a: nat, n: nat, q: nat, r: nat)
    requires n > 0 && r < n && a == n * q + r
    ensures a % n == r
  {
    var q' := a / n;
    assert a == n * q' + a % n;
    if q' < q { Below(n, q' + 1, q); }
    if q < q' { Below(n, q + 1, q'); }
  }

  lemma Below(n: nat, i: nat, j: nat)
    requires i <= j
    ensures n * i <= n * j
  {
  }

  lemma {:induction false} SumUpdate(pcs: seq<PC>, t: nat, pc: PC)
    requires t < |pcs|
    ensures Sum(pcs[t := pc]) + Weight(pcs[t]) == Sum(pcs) + Weight(pc)
  {
    var n := |pcs| - 1;
    if t < n {
      assert pcs[t := pc][..n] == pcs[..n][t := pc];
      SumUpdate(pcs[..n], t, pc);
    } else {
      assert pcs[t := pc][..n] == pcs[..n];
    }
  }

  lemma StepSum(s: State, t: nat, l: Label)
    requires Inv(s) && Enabled(s, t, l)
    ensures var s' := Do(s, t, l); s'.sem + s'.tail + Sum(s'.pcs) == s'.head
  {
    SumUpdate(s.pcs, t, Do(s, t, l).pcs[t]);
  }

  /** Whose hands a ticket is in after thread t moved on. */
  lemma Hands(pcs: seq<PC>, t: nat, pc: PC, p: nat)
    requires t < |pcs| && Distinct(pcs)
    ensures BeingPushed(pcs[t := pc], p) <==> Pushing(pc, p) || (BeingPushed(pcs, p) && !Pushing(pcs[t], p))
    ensures BeingPopped(pcs[t := pc], p) <==> Popping(pc, p) || (BeingPopped(pcs, p) && !Popping(pcs[t], p))
  {
    var pcs' := pcs[t := pc];
    if Pushing(pc, p) { assert Pushing(pcs'[t], p); }
    if Popping(pc, p) { assert Popping(pcs'[t], p); }
    if BeingPushed(pcs, p) && !Pushing(pcs[t], p) {
      var u :| 0 <= u < |pcs| && Pushing(pcs[u], p);
      assert Pushing(pcs'[u], p);
    }
    if BeingPopped(pcs, p) && !Popping(pcs[t], p) {
      var u :| 0 <= u < |pcs| && Popping(pcs[u], p);
      assert Popping(pcs'[u], p);
    }
  }

  lemma StepTicket(s: State, t: nat, l: Label, p: nat)
    requires Inv(s) && Enabled(s, t, l)
    ensures TicketOk(Do(s, t, l), p)
  {
    var s', n := Do(s, t, l), |s.cells|;
    Hands(s.pcs, t, s'.pcs[t], p);
    assert TicketOk(s, p) && ThreadOk(s, t);
    if l.Publish? || l.Free? || l.Write? {
      var p0 := s.pcs[t].pos;
      if p % n == p0 % n {
        if p < p0 { Lap(p, p0, n); }
        if p0 < p { Lap(p0, p, n); }
      }
    }
  }

  lemma StepDistinct(s: State, t: nat, l: Label)
    requires Inv(s) && Enabled(s, t, l)
    ensures Distinct(Do(s, t, l).pcs)
  {
    var s' := Do(s, t, l);
    forall u, p: nat | 0 <= u < |s.pcs| && u != t
      ensures !(Pushing(s'.pcs[t], p) && Pushing(s'.pcs[u], p))
      ensures !(Popping(s'.pcs[t], p) && Popping(s'.pcs[u], p))
    {
      assert ThreadOk(s, u);
    }
  }

  lemma StepCells(s: State, t: nat, l: Label)
    requires Inv(s) && Enabled(s, t, l)
    ensures CellsOk(Do(s, t, l))
  {
    assert ThreadOk(s, t);
    if l.Free? { NextLap(s.pcs[t].pos, |s.cells|); }
  }

  /** A cell whose seq is one more than a ticket of its own holds that ticket's job. */
  lemma FullCell(s: State, p: nat)
    requires Inv(s) && CellOf(s, p).seq_ == p + 1
    ensures p < s.head && CellOf(s, p).job == s.jobs[p]
  {
    if (p + 1) % |s.cells| == p % |s.cells| {
      Lap(p, p + 1, |s.cells|);
    }
  }

  lemma StepSelf(s: State, t: nat, l: Label)
    requires Inv(s) && Enabled(s, t, l)
    ensures ThreadOk(Do(s, t, l), t)
  {
    assert ThreadOk(s, t);
    if l.Read? { FullCell(s, s.pcs[t].pos); }
  }

  /** A write by one thread leaves the cells that other threads rely on alone. */
  lemma StepOther(s: State, t: nat, l: Label, u: nat)
    requires Inv(s) && Enabled(s, t, l) && u < |s.pcs| && u != t
    ensures ThreadOk(Do(s, t, l), u)
  {
    var s', pu := Do(s, t, l), s.pcs[u];
    assert ThreadOk(s, u);
    StepSum(s, t, l);
    if UsesCell(pu) {
      StepOtherCell(s, t, l, u);
    }
    if pu.PopSpin? || pu.PopRead? {
      assert Popping(pu, pu.pos);
    }
  }

  lemma StepOtherCell(s: State, t: nat, l: Label, u: nat)
    requires Inv(s) && Enabled(s, t, l) && u < |s.pcs| && u != t
    requires UsesCell(s.pcs[u])
    ensures CellOf(Do(s, t, l), s.pcs[u].pos) == CellOf(s, s.pcs[u].pos)
  {
    if l.Write? || l.Publish? || l.Free? {
      OtherCell(s, t, u);
    }
  }

  lemma OtherCell(s: State, t: nat, u: nat)
    requires Inv(s) && t < |s.pcs| && u < |s.pcs| && t != u
    requires UsesCell(s.pcs[t]) && UsesCell(s.pcs[u])
    ensures s.pcs[t].pos % |s.cells| != s.pcs[u].pos % |s.cells|
  {
    var p, q, n := s.pcs[t].pos, s.pcs[u].pos, |s.cells|;
    assert ThreadOk(s, t) && ThreadOk(s, u);
    assert Pushing(s.pcs[t], p) || Popping(s.pcs[t], p);
    if p % n == q % n {
      if p < q { Lap(p, q, n); }
      if q < p { Lap(q, p, n); }
    }
  }

  lemma StepGot(s: State, t: nat, l: Label, p: nat)
    requires Inv(s) && Enabled(s, t, l) && p in Do(s, t, l).got
    ensures var s' := Do(s, t, l); p < s'.tail <= s'.head == |s'.jobs| && s'.got[p] == s'.jobs[p]
  {
    assert ThreadOk(s, t);
    StepSum(s, t, l);
    if l.Read? { FullCell(s, s.pcs[t].pos); }
  }

  lemma StepInv(s: State, t: nat, l: Label)
    requires Inv(s) && Enabled(s, t, l)
    ensures Inv(Do(s, t, l))
  {
    var s' := Do(s, t, l);
    StepSum(s, t, l);
    StepDistinct(s, t, l);
    StepCells(s, t, l);
    StepSelf(s, t, l);
    forall p: nat ensures TicketOk(s', p) { StepTicket(s, t, l, p); }
    forall u | 0 <= u < |s.pcs| && u != t ensures ThreadOk(s', u) { StepOther(s, t, l, u); }
    forall p | p in s'.got ensures p < s'.tail && s'.got[p] == s'.jobs[p] { StepGot(s, t, l, p); }
  }

  // ---- runs ----

  datatype Step = Step(t: nat, l: Label)

  /** s, and every state after it along the run, takes the next step of the run. */
  predicate IsRun(s: State, run: seq<Step>)
    requires |s.cells| > 0
    decreases |run|
  {
    run == [] || (Enabled(s, run[0].t, run[0].l) && IsRun(Do(s, run[0].t, run[0].l), run[1..]))
  }

  function End(s: State, run: seq<Step>): (r: State)
    requires |s.cells| > 0 && IsRun(s, run)
    ensures |r.cells| == |s.cells|
    decreases |run|
  {
    if run == [] then s else End(Do(s, run[0].t, run[0].l), run[1..])
  }

  /** The jobs the callers of push hand in along the run, in order. */
  function Pushes(run: seq<Step>): seq<Job> {
    if run == [] then [] else (if run[0].l.BeginPush? then [run[0].l.job] else []) + Pushes(run[1..])
  }

  /** Which of the claims of the run, counted from base, is the last one of thread t. */
  function ClaimFrom(base: nat, run: seq<Step>, t: nat): Option<nat>
    decreases |run|
  {
    if run == [] then None else
      var mine := run[0].l.ClaimPop?;
      var later := ClaimFrom(if mine then base + 1 else base, run[1..], t);
      if later.Some? then later else if mine && run[0].t == t then Some(base) else None
  }

  function ClaimOf(run: seq<Step>, t: nat): Option<nat> { ClaimFrom(0, run, t) }

  function PopTicket(pc: PC): Option<nat> {
    if pc.PopSpin? || pc.PopRead? || pc.PopStore? then Some(pc.pos) else None
  }

  /** The ticket of a pop is the number of its claim. */
  lemma {:induction false} TicketsInOrder(s: State, run: seq<Step>, t: nat)
    requires |s.cells| > 0 && IsRun(s, run) && t < |s.pcs|
    ensures
      var e := End(s, run);
      && |e.pcs| == |s.pcs|
      && (PopTicket(e.pcs[t]).Some? ==>
            var c := ClaimFrom(s.tail, run, t);
            PopTicket(e.pcs[t]) == if c.Some? then c else PopTicket(s.pcs[t]))
    decreases |run|
  {
    if run != [] { TicketsInOrder(Do(s, run[0].t, run[0].l), run[1..], t); }
  }

  lemma InitInv(capacity: nat, threads: nat)
    requires capacity >= 2
    ensures Inv(Init(capacity, threads))
  {
    var s := Init(capacity, threads);
    IdleSum(threads);
    forall c | 0 <= c < capacity ensures s.cells[c].seq_ % capacity == c { Quotient(c, capacity, 0, c); }
    forall p: nat ensures TicketOk(s, p) {
      var c := p % capacity;
      Quotient(c, capacity, 0, c);
      if c < p { Lap(c, p, capacity); }
    }
  }

  lemma {:induction false} IdleSum(threads: nat)
    ensures Sum(seq(threads, _ => Idle)) == 0
  {
    if threads > 0 {
      assert seq(threads, _ => Idle)[..threads - 1] == seq(threads - 1, _ => Idle);
      IdleSum(threads - 1);
    }
  }

  lemma {:induction false} RunInv(s: State, run: seq<Step>)
    requires Inv(s) && IsRun(s, run)
    ensures Inv(End(s, run))
    decreases |run|
  {
    if run != [] {
      StepInv(s, run[0].t, run[0].l);
      RunInv(Do(s, run[0].t, run[0].l), run[1..]);
    }
  }

  /** Every pop along the run that has read its job has the job of its turn: with the p-th claim comes the
      job of the p-th push. */
  ghost predicate Delivered(run: seq<Step>, s: State) {
    && (forall p :: p in s.got ==> p < |Pushes(run)| && s.got[p] == Pushes(run)[p])
    && (forall t :: 0 <= t < |s.pcs| && s.pcs[t].PopStore? ==>
          var p := ClaimOf(run, t);
          p.Some? && p.value < |Pushes(run)| && s.pcs[t].job == Pushes(run)[p.value])
  }

  /** The same in terms of tickets. */
  ghost predicate TicketsMatch(s: State) {
    && (forall p :: p in s.got ==> p < |s.jobs| && s.got[p] == s.jobs[p])
    && (forall t :: 0 <= t < |s.pcs| && s.pcs[t].PopStore? ==>
          s.pcs[t].pos < |s.jobs| && s.pcs[t].job == s.jobs[s.pcs[t].pos])
  }

  lemma InvMatches(s: State)
    requires Inv(s)
    ensures TicketsMatch(s)
  {
    forall t | 0 <= t < |s.pcs| && s.pcs[t].PopStore?
      ensures s.pcs[t].pos < |s.jobs| && s.pcs[t].job == s.jobs[s.pcs[t].pos]
    {
      assert ThreadOk(s, t);
    }
  }

  lemma DeliveredIff(capacity: nat, threads: nat, run: seq<Step>)
    requires capacity > 0 && IsRun(Init(capacity, threads), run)
    ensures
      var s := End(Init(capacity, threads), run);
      Pushes(run) == s.jobs && (Delivered(run, s) <==> TicketsMatch(s))
  {
    var i := Init(capacity, threads);
    var s := End(i, run);
    assert i.jobs + Pushes(run) == Pushes(run);
    RunJobs(i, run);
    forall t | 0 <= t < |s.pcs| && s.pcs[t].PopStore? ensures ClaimOf(run, t) == Some(s.pcs[t].pos) {
      TicketsInOrder(i, run, t);
    }
  }

  lemma {:induction false} RunJobs(s: State, run: seq<Step>)
    requires |s.cells| > 0 && IsRun(s, run)
    ensures End(s, run).jobs == s.jobs + Pushes(run) && |End(s, run).pcs| == |s.pcs|
    decreases |run|
  {
    if run == [] {
      assert s.jobs + [] == s.jobs;
    } else {
      var s' := Do(s, run[0].t, run[0].l);
      RunJobs(s', run[1..]);
      var first := if run[0].l.BeginPush? then [run[0].l.job] else [];
      assert s'.jobs == s.jobs + first && |s'.pcs| == |s.pcs|;
      Regroup(s.jobs, first, Pushes(run[1..]));
    }
  }

  lemma Regroup(a: seq<Job>, b: seq<Job>, c: seq<Job>)
    ensures (a + b) + c == a + (b + c)
  {
  }

  /** s is reached by some interleaving of some number of threads on a ring of two or more cells. */
  ghost predicate Reachable(s: State) {
    exists capacity: nat, threads: nat, run ::
      capacity >= 2 && IsRun(Init(capacity, threads), run) && End(Init(capacity, threads), run) == s
  }

  lemma ReachableInv(s: State)
    requires Reachable(s)
    ensures Inv(s)
  {
    var capacity: nat, threads: nat, run :|
      capacity >= 2 && IsRun(Init(capacity, threads), run) && End(Init(capacity, threads), run) == s;
    InitInv(capacity, threads);
    RunInv(Init(capacity, threads), run);
  }

  /** Whatever the interleaving: the popper with ticket p receives the job of the pusher with
      ticket p; a thread about to read holds a ticket nobody has received; a thread about to write
      a cell has it to itself. */
  lemma RingSafe(capacity: nat, threads: nat, run: seq<Step>, s: State, t: nat)
    requires capacity >= 2 && IsRun(Init(capacity, threads), run) && End(Init(capacity, threads), run) == s
    ensures Delivered(run, s)
    ensures |s.cells| > 0 && Enabled(s, t, Read) ==> s.pcs[t].pos !in s.got
    ensures |s.cells| > 0 && Enabled(s, t, Write) ==>
      forall u :: 0 <= u < |s.pcs| && u != t && UsesCell(s.pcs[u]) ==>
        s.pcs[u].pos % |s.cells| != s.pcs[t].pos % |s.cells|
  {
    ReachableInv(s);
    assert Delivered(run, s) by {
      InvMatches(s);
      DeliveredIff(capacity, threads, run);
    }
    if Enabled(s, t, Read) {
      assert ThreadOk(s, t);
    }
    if Enabled(s, t, Write) {
      forall u | 0 <= u < |s.pcs| && u != t && UsesCell(s.pcs[u])
        ensures s.pcs[u].pos % |s.cells| != s.pcs[t].pos % |s.cells|
      {
        OtherCell(s, t, u);
      }
    }
  }

  /** Between seeing its cell and releasing it. */
  predicate UsesCell(pc: PC) { pc.PushWrite? || pc.PushStore? || pc.PopRead? || pc.PopStore? }

  /** The semaphore makes every popper's ticket one that a pusher has taken. */
  lemma TicketClaimed(s: State, t: nat)
    requires Reachable(s) && t < |s.pcs|
    ensures s.pcs[t].PopClaim? ==> s.tail < s.head
    ensures s.pcs[t].PopSpin? || s.pcs[t].PopRead? || s.pcs[t].PopStore? ==> s.pcs[t].pos < s.tail <= s.head
  {
    ReachableInv(s);
    assert ThreadOk(s, t);
    SumUpdate(s.pcs, t, Idle);
  }

  // ---- a ring of one cell ----

  lemma Unroll(s: State, st: Step, run: seq<Step>)
    requires |s.cells| > 0 && Enabled(s, st.t, st.l) && IsRun(Do(s, st.t, st.l), run)
    ensures IsRun(s, [st] + run) && End(s, [st] + run) == End(Do(s, st.t, st.l), run)
  {
    assert ([st] + run)[1..] == run;
  }

  lemma {:induction false} Append(s: State, a: seq<Step>, b: seq<Step>)
    requires |s.cells| > 0 && IsRun(s, a) && IsRun(End(s, a), b)
    ensures IsRun(s, a + b) && End(s, a + b) == End(End(s, a), b)
    decreases |a|
  {
    if a == [] {
      assert a + b == b;
    } else {
      Append(Do(s, a[0].t, a[0].l), a[1..], b);
      assert (a + b)[1..] == a[1..] + b;
    }
  }

  function Idlers(threads: nat): seq<PC> { seq(threads, _ => Idle) }

  /** seq = pos + 1 means both "holds ticket pos" and "free for ticket pos + 1". So after one
      push, a second one gets as far as overwriting the job that nobody has read. */
  lemma PushTwice(threads: nat) returns (run: seq<Step>)
    requires threads >= 2
    ensures IsRun(Init(1, threads), run)
    ensures End(Init(1, threads), run) ==
        State([Cell(1, 8)], 2, 0, 1, Idlers(threads)[0 := PushStore(1)], [7, 8], map[])
  {
    var idle := Idlers(threads);
    var s0 := Init(1, threads);
    var s5 := State([Cell(1, 7)], 1, 0, 1, idle, [7], map[]);
    run := FirstPush(threads);
    var s6 := s5.(head := 2, jobs := [7, 8], pcs := idle[0 := PushSpin(1, 8)]);
    var s7 := s6.(pcs := idle[0 := PushWrite(1, 8)]);
    var s8 := s7.(cells := [Cell(1, 8)], pcs := idle[0 := PushStore(1)]);
    assert s6 == Do(s5, 0, BeginPush(8));
    assert s7 == Do(s6, 0, SeePush);
    assert s8 == Do(s7, 0, Write);
    Unroll(s7, Step(0, Write), []);
    Unroll(s6, Step(0, SeePush), [Step(0, Write)]);
    var more := [Step(0, SeePush)] + [Step(0, Write)];
    Unroll(s5, Step(0, BeginPush(8)), more);
    Append(s0, run, [Step(0, BeginPush(8))] + more);
    run := run + ([Step(0, BeginPush(8))] + more);
  }

  lemma FirstPush(threads: nat) returns (run: seq<Step>)
    requires threads >= 2
    ensures IsRun(Init(1, threads), run)
    ensures End(Init(1, threads), run) == State([Cell(1, 7)], 1, 0, 1, Idlers(threads), [7], map[])
  {
    var idle := Idlers(threads);
    var s0 := State([Cell(0, 0)], 0, 0, 0, idle, [], map[]);
    assert Init(1, threads) == s0;
    var s1 := s0.(head := 1, jobs := [7], pcs := idle[0 := PushSpin(0, 7)]);
    var s2 := s1.(pcs := idle[0 := PushWrite(0, 7)]);
    var s3 := s2.(cells := [Cell(0, 7)], pcs := idle[0 := PushStore(0)]);
    var s4 := s3.(cells := [Cell(1, 7)], pcs := idle[0 := PushPost]);
    var s5 := s4.(sem := 1, pcs := idle);
    assert s1 == Do(s0, 0, BeginPush(7));
    assert s2 == Do(s1, 0, SeePush);
    assert s3 == Do(s2, 0, Write);
    assert s4 == Do(s3, 0, Publish);
    assert s5 == Do(s4, 0, Post);
    run := [];
    Unroll(s4, Step(0, Post), run); run := [Step(0, Post)] + run;
    Unroll(s3, Step(0, Publish), run); run := [Step(0, Publish)] + run;
    Unroll(s2, Step(0, Write), run); run := [Step(0, Write)] + run;
    Unroll(s1, Step(0, SeePush), run); run := [Step(0, SeePush)] + run;
    Unroll(s0, Step(0, BeginPush(7)), run); run := [Step(0, BeginPush(7))] + run;
  }

  lemma PopWrongJob(pcs: seq<PC>) returns (run: seq<Step>)
    requires |pcs| >= 2 && pcs[1].Idle?
    ensures
      var s := State([Cell(1, 8)], 2, 0, 1, pcs, [7, 8], map[]);
      && IsRun(s, run)
      && var e := End(s, run);
         0 in e.got && e.got[0] == 8 && e.jobs == [7, 8]
  {
    var s8 := State([Cell(1, 8)], 2, 0, 1, pcs, [7, 8], map[]);
    var s9 := s8.(pcs := pcs[1 := PopWait]);
    var s10 := s9.(sem := 0, pcs := pcs[1 := PopClaim]);
    var s11 := s10.(tail := 1, pcs := pcs[1 := PopSpin(0)]);
    var s12 := s11.(pcs := pcs[1 := PopRead(0)]);
    var s13 := s12.(got := map[0 := 8], pcs := pcs[1 := PopStore(0, 8)]);
    assert s9 == Do(s8, 1, BeginPop);
    assert s10 == Do(s9, 1, Wait);
    assert s11 == Do(s10, 1, ClaimPop);
    assert s12 == Do(s11, 1, SeePop);
    assert s13 == Do(s12, 1, Read);
    run := [];
    Unroll(s12, Step(1, Read), run); run := [Step(1, Read)] + run;
    Unroll(s11, Step(1, SeePop), run); run := [Step(1, SeePop)] + run;
    Unroll(s10, Step(1, ClaimPop), run); run := [Step(1, ClaimPop)] + run;
    Unroll(s9, Step(1, Wait), run); run := [Step(1, Wait)] + run;
    Unroll(s8, Step(1, BeginPop), run); run := [Step(1, BeginPop)] + run;
  }

  lemma OneCellFails(threads: nat)
    requires threads >= 2
    ensures !DeliversAlways(1, threads)
  {
    var a := PushTwice(threads);
    var b := PopWrongJob(Idlers(threads)[0 := PushStore(1)]);
    Append(Init(1, threads), a, b);
    DeliveredIff(1, threads, a + b);
  }

  ghost predicate DeliversAlways(capacity: nat, threads: nat)
    requires capacity > 0
  {
    forall run :: IsRun(Init(capacity, threads), run) ==> Delivered(run, End(Init(capacity, threads), run))
  }

  /** With a pusher and a popper, the ring delivers correctly on every run exactly when it has at
      least two cells. */
  lemma RingDeliversIff(capacity: nat, threads: nat)
    requires capacity > 0 && threads >= 2
    ensures DeliversAlways(capacity, threads) <==> capacity >= 2
  {
    if capacity >= 2 {
      forall run | IsRun(Init(capacity, threads), run)
        ensures Delivered(run, End(Init(capacity, threads), run))
      {
        RingSafe(capacity, threads, run, End(Init(capacity, threads), run), 0);
      }
    } else {
      OneCellFails(threads);
    }
  }

  // ---- progress ----

  /** Inside a push or a pop. */
  predicate Unfinished(pc: PC) { !pc.Idle? && !pc.PopWait? }

  /** Some thread can take a step other than starting something new. */
  ghost predicate CanStep(s: State)
    requires |s.cells| > 0
  {
    exists t: nat, l: Label :: !l.BeginPush? && !l.BeginPop? && Enabled(s, t, l)
  }

  /** Push tickets of the first n threads still waiting for their cell. */
  function Waiting(pcs: seq<PC>, n: nat): set<nat>
    requires n <= |pcs|
  {
    set t | 0 <= t < n && pcs[t].PushSpin? :: pcs[t].pos
  }

  lemma {:induction false} SubsetSize(a: set<nat>, b: set<nat>)
    requires a <= b
    ensures |a| <= |b|
  {
    if a != {} {
      var x :| x in a;
      SubsetSize(a - {x}, b - {x});
    }
  }

  function Range(lo: nat, hi: nat): (r: set<nat>)
    requires lo <= hi
    ensures forall i :: i in r <==> lo <= i < hi
    ensures |r| == hi - lo
    decreases hi - lo
  {
    if lo == hi then {} else {lo} + Range(lo + 1, hi)
  }

  /** When nobody is past spinning, the posts owed are the waiting push tickets. */
  lemma {:induction false} OwedIsWaiting(pcs: seq<PC>, n: nat)
    requires n <= |pcs| && Distinct(pcs)
    requires forall t :: 0 <= t < n ==> pcs[t].Idle? || pcs[t].PopWait? || pcs[t].PushSpin? || pcs[t].PopSpin?
    ensures Sum(pcs[..n]) == |Waiting(pcs, n)|
  {
    if n > 0 {
      OwedIsWaiting(pcs, n - 1);
      assert pcs[..n][..n - 1] == pcs[..n - 1];
      var w := Waiting(pcs, n - 1);
      if pcs[n - 1].PushSpin? {
        var p := pcs[n - 1].pos;
        assert Pushing(pcs[n - 1], p);
        assert p !in w;
        assert Waiting(pcs, n) == w + {p};
      } else {
        assert Waiting(pcs, n) == w;
      }
    } else {
      assert Waiting(pcs, 0) == {};
    }
  }

  /** Ticket p is in some thread's hands. */
  ghost predicate Pending(s: State, p: nat) { BeingPushed(s.pcs, p) || BeingPopped(s.pcs, p) }

  lemma {:induction false} LeastPending(s: State, p: nat) returns (q: nat)
    requires Pending(s, p)
    ensures q <= p && Pending(s, q) && forall r: nat :: r < q ==> !Pending(s, r)
  {
    if r: nat :| r < p && Pending(s, r) {
      q := LeastPending(s, r);
    } else {
      q := p;
    }
  }

  predicate Stalls(pc: PC) { pc.Idle? || pc.PopWait? || pc.PushSpin? || pc.PopSpin? }

  ghost predicate AllSpinning(s: State) { forall t :: 0 <= t < |s.pcs| ==> Stalls(s.pcs[t]) }

  /** The least pending push ticket finds its cell free. */
  lemma LeastPushSeesCell(s: State, q: nat)
    requires Inv(s) && s.sem == 0 && AllSpinning(s)
    requires BeingPushed(s.pcs, q) && forall r: nat :: r < q ==> !Pending(s, r)
    ensures CellOf(s, q).seq_ == q
  {
    var n := |s.cells|;
    var t :| 0 <= t < |s.pcs| && Pushing(s.pcs[t], q);
    assert TicketOk(s, q) && ThreadOk(s, t);
    TailReaches(s, q);
    if q >= n {
      NextLap(q - n, n);
      assert TicketOk(s, q - n) && !Pending(s, q - n);
    } else {
      var seq_ := CellOf(s, q).seq_;
      Quotient(q, n, 0, q);
      Quotient(seq_, n, 0, seq_);
      if seq_ > 0 { Quotient(seq_ - 1, n, 0, seq_ - 1); }
    }
  }

  /** Every push ticket below the least pending one has been posted, and every post consumed. */
  lemma TailReaches(s: State, q: nat)
    requires Inv(s) && s.sem == 0 && AllSpinning(s)
    requires q < s.head && forall r: nat :: r < q ==> !Pending(s, r)
    ensures q <= s.tail
  {
    var n := |s.pcs|;
    assert s.pcs[..n] == s.pcs;
    OwedIsWaiting(s.pcs, n);
    var w, range := Waiting(s.pcs, n), Range(q, s.head);
    forall p | p in w ensures p in range {
      var t :| 0 <= t < n && s.pcs[t].PushSpin? && s.pcs[t].pos == p;
      assert ThreadOk(s, t) && Pushing(s.pcs[t], p);
      assert BeingPushed(s.pcs, p) && Pending(s, p);
    }
    SubsetSize(w, range);
  }

  lemma LeastPopSeesCell(s: State, q: nat)
    requires Inv(s) && BeingPopped(s.pcs, q) && !BeingPushed(s.pcs, q)
    ensures CellOf(s, q).seq_ == q + 1
  {
    var t :| 0 <= t < |s.pcs| && Popping(s.pcs[t], q);
    assert ThreadOk(s, t) && TicketOk(s, q);
  }

  /** No deadlock: while a push or pop is unfinished and some thread waits to pop, some thread can
      take a step. */
  lemma RingNeverStuck(s: State, t: nat, u: nat)
    requires Reachable(s) && t < |s.pcs| && Unfinished(s.pcs[t]) && u < |s.pcs| && s.pcs[u].PopWait?
    ensures |s.cells| > 0 && CanStep(s)
  {
    ReachableInv(s);
    if s.sem > 0 {
      assert Enabled(s, u, Wait);
    } else if v :| 0 <= v < |s.pcs| && !Stalls(s.pcs[v]) {
      var l := match s.pcs[v]
        case PushWrite(_, _) => Write
        case PushStore(_) => Publish
        case PushPost => Post
        case PopClaim => ClaimPop
        case PopRead(_) => Read
        case _ => Free;
      assert Enabled(s, v, l);
    } else {
      var p := s.pcs[t].pos;
      assert Pushing(s.pcs[t], p) || Popping(s.pcs[t], p);
      SpinnerCanStep(s, p);
    }
  }

  lemma SpinnerCanStep(s: State, p: nat)
    requires Inv(s) && s.sem == 0 && AllSpinning(s) && Pending(s, p)
    ensures CanStep(s)
  {
    var q := LeastPending(s, p);
    if BeingPushed(s.pcs, q) {
      var v :| 0 <= v < |s.pcs| && Pushing(s.pcs[v], q);
      LeastPushSeesCell(s, q);
      assert Enabled(s, v, SeePush);
    } else {
      var v :| 0 <= v < |s.pcs| && Popping(s.pcs[v], q);
      LeastPopSeesCell(s, q);
      assert Enabled(s, v, SeePop);
    }
  }
}
