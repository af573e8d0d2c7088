/** What the history of a pool server connection (bench/servers/common-linux-pool.c) has to do with the
    actions of its run: the requests read, the bytes sent, and that no request is answered twice. */
module PoolHistory {
  import opened WaiterList
  import opened Framing
  import opened PoolConn

  /** The requests that recv brought in a run, in order. */
  function Requests(run: seq<Step>): seq<Bytes> {
    if run == [] then [] else (if run[0].a.Request? then [run[0].a.b] else []) + Requests(run[1..])
  }

  /** The bytes that send took in a run. */
  function BytesSent(run: seq<Step>): nat {
    if run == [] then 0 else (if run[0].a.Sent? then run[0].a.n else 0) + BytesSent(run[1..])
  }

  /** A worker holds its job until the push succeeds. */
  predicate Holds(pc: PC) { pc.WJob? || pc.WLoad? || pc.WCas? }

  /** What an effect says about the action behind it and about holding a job. */
  ghost predicate Traced(a: Action, pc: PC, e: Effect, pc': PC) {
    && (if a.Request? then e == NewJob(a.b) else !e.NewJob?)
    && (if a.Sent? then e == Send(a.n) else !e.Send?)
    && (if e.PopJob? then !Holds(pc) && Holds(pc')
        else if e.Push? then Holds(pc) && !Holds(pc')
        else if e.Nothing? || e.SetAddr? then Holds(pc') == Holds(pc)
        else !Holds(pc) && !Holds(pc'))
  }

  lemma TracedWorker(s: State, t: nat, a: Action)
    requires Enabled(s, t, a) && !Owns(s.pcs[t])
    ensures Traced(a, s.pcs[t], Program(s, t, a).0, Program(s, t, a).1)
  {
  }

  lemma TracedFlush(s: State, t: nat, a: Action)
    requires Enabled(s, t, a) && (s.pcs[t].OFlush? || s.pcs[t].OArm? || s.pcs[t].ORead?)
    ensures Traced(a, s.pcs[t], Program(s, t, a).0, Program(s, t, a).1)
  {
  }

  lemma TracedOwner(s: State, t: nat, a: Action)
    requires Enabled(s, t, a) && Owns(s.pcs[t]) && !s.pcs[t].OFlush? && !s.pcs[t].OArm? && !s.pcs[t].ORead?
    ensures Traced(a, s.pcs[t], Program(s, t, a).0, Program(s, t, a).1)
  {
  }

  lemma ProgramTraced(s: State, t: nat, a: Action)
    requires Enabled(s, t, a)
    ensures Traced(a, s.pcs[t], Program(s, t, a).0, Program(s, t, a).1)
  {
    if s.pcs[t].OFlush? || s.pcs[t].OArm? || s.pcs[t].ORead? {
      TracedFlush(s, t, a);
    } else if Owns(s.pcs[t]) {
      TracedOwner(s, t, a);
    } else {
      TracedWorker(s, t, a);
    }
  }

  // ---- requests and bytes ----

  lemma KeepTrace(s: State, t: nat, a: Action, e: Effect, pc': PC, s': State)
    requires Moves(s, t, e, pc', s') && Traced(a, s.pcs[t], e, pc')
    ensures s'.body == s.body + if a.Request? then [a.b] else []
    ensures |s'.wire| == |s.wire| + if a.Sent? then a.n else 0
  {
  }

  lemma {:induction false} RunTrace(s: State, run: seq<Step>, s': State)
    requires Inv(s) && Leads(s, run, s')
    ensures s'.body == s.body + Requests(run) && |s'.wire| == |s.wire| + BytesSent(run)
    decreases |run|
  {
    if run != [] {
      var t, a := run[0].t, run[0].a;
      StepTrace(s, t, a);
      RunTrace(Do(s, t, a), run[1..], s');
      Assoc(s.body, if a.Request? then [a.b] else [], Requests(run[1..]));
    }
  }

  lemma StepTrace(s: State, t: nat, a: Action)
    requires Inv(s) && Enabled(s, t, a)
    ensures
      var s' := Do(s, t, a);
      && Inv(s') && s'.body == s.body + (if a.Request? then [a.b] else [])
      && |s'.wire| == |s.wire| + if a.Sent? then a.n else 0
  {
    StepInv(s, t, a);
    StepFits(s, t, a);
    ProgramTraced(s, t, a);
    var (e, pc') := Program(s, t, a);
    KeepTrace(s, t, a, e, pc', Do(s, t, a));
  }

  // ---- no request is answered twice ----

  /** Request c has not been answered: it waits, or a worker works on it. */
  predicate Early(loc: seq<Place>, pcs: seq<PC>, c: Id)
    requires c < |loc|
  {
    loc[c] == InRing || (loc[c].InHands? && loc[c].t < |pcs| && Holds(pcs[loc[c].t]))
  }

  ghost predicate Answered(s: State) {
    NoDup(s.pushed) && forall c :: 0 <= c < |s.loc| ==> (c in s.pushed <==> !Early(s.loc, s.pcs, c))
  }

  lemma HandAt(s: State, t: nat, c: Id)
    requires PlacesMatch(s.inbox, s.resp, Hands(s.pcs), s.loc) && t < |s.pcs| && c < |s.loc|
    ensures s.loc[c] == InHands(t) <==> c in Hand(s.pcs[t])
    ensures s.loc[c].InHands? ==> s.loc[c].t < |s.pcs|
    ensures c in s.inbox ==> s.loc[c] == InInbox
    ensures c in s.resp ==> s.loc[c] == InResp
  {
    var h := Hands(s.pcs);
    assert Found(s.inbox, s.resp, h, s.loc, c) && AllAt(h[t], s.loc, InHands(t));
  }

  /** Only its own push answers a request. */
  lemma KeepEarly(s: State, t: nat, a: Action, e: Effect, pc': PC, s': State, c: Id)
    requires PlacesMatch(s.inbox, s.resp, Hands(s.pcs), s.loc) && Moves(s, t, e, pc', s') && c < |s.loc|
    requires Traced(a, s.pcs[t], e, pc') && HandDiscipline(s, s.pcs[t], e, pc')
    ensures c < |s'.loc| && (Early(s'.loc, s'.pcs, c) <==> Early(s.loc, s.pcs, c) && e != Push(c))
  {
    HandAt(s, t, c);
  }

  lemma PushedAfter(s: State, t: nat, a: Action, e: Effect, pc': PC, s': State)
    requires Moves(s, t, e, pc', s') && Traced(a, s.pcs[t], e, pc') && HandDiscipline(s, s.pcs[t], e, pc')
    requires PlacesMatch(s.inbox, s.resp, Hands(s.pcs), s.loc) && Answered(s)
    ensures NoDup(s'.pushed) && s'.pushed == s.pushed + if e.Push? then [e.c] else []
    ensures |s'.loc| == |s.loc| + if e.NewJob? then 1 else 0
    ensures e.NewJob? ==> s'.loc[|s.loc|] == InRing
  {
    if e.Push? {
      HandAt(s, t, e.c);
      assert Early(s.loc, s.pcs, e.c);
    }
  }

  lemma KeepAnswered(s: State, t: nat, a: Action, e: Effect, pc': PC, s': State)
    requires Moves(s, t, e, pc', s') && Traced(a, s.pcs[t], e, pc') && HandDiscipline(s, s.pcs[t], e, pc')
    requires PlacesMatch(s.inbox, s.resp, Hands(s.pcs), s.loc) && Answered(s)
    requires forall i :: 0 <= i < |s.pushed| ==> s.pushed[i] < |s.loc|
    ensures Answered(s')
  {
    PushedAfter(s, t, a, e, pc', s');
    forall c | 0 <= c < |s'.loc| ensures c in s'.pushed <==> !Early(s'.loc, s'.pcs, c) {
      if c < |s.loc| { KeepEarly(s, t, a, e, pc', s', c); }
    }
  }

  lemma StepAnswered(s: State, t: nat, a: Action)
    requires Inv(s) && Enabled(s, t, a) && Answered(s)
    ensures Answered(Do(s, t, a))
  {
    StepFits(s, t, a);
    ProgramTraced(s, t, a);
    ProgramHand(s, t, a);
    var (e, pc') := Program(s, t, a);
    KeepAnswered(s, t, a, e, pc', Do(s, t, a));
  }

  lemma {:induction false} RunAnswered(s: State, run: seq<Step>, s': State)
    requires Inv(s) && Leads(s, run, s') && Answered(s)
    ensures Answered(s')
    decreases |run|
  {
    if run != [] {
      StepInv(s, run[0].t, run[0].a);
      StepAnswered(s, run[0].t, run[0].a);
      RunAnswered(Do(s, run[0].t, run[0].a), run[1..], s');
    }
  }

  lemma FirstAnswered(threads: nat, ios: nat)
    ensures Answered(Init(threads, ios))
  {
  }

  lemma InvPushes(s: State)
    requires Inv(s)
    ensures |s.body| == |s.loc| && s.wire <= Cat(s.body, s.pushed)
    ensures forall i :: 0 <= i < |s.pushed| ==> s.pushed[i] < |s.body|
  {
  }

  lemma AnsweredOnce(threads: nat, ios: nat, run: seq<Step>, s: State)
    requires Leads(Init(threads, ios), run, s)
    ensures Answered(s)
  {
    InitInv(threads, ios);
    FirstAnswered(threads, ios);
    RunAnswered(Init(threads, ios), run, s);
  }

  lemma RequestsRead(threads: nat, ios: nat, run: seq<Step>, s: State)
    requires Leads(Init(threads, ios), run, s)
    ensures s.body == Requests(run) && |s.wire| == BytesSent(run) && Inv(s)
  {
    InitInv(threads, ios);
    RunInv(Init(threads, ios), run, s);
    RunTrace(Init(threads, ios), run, s);
    assert [] + Requests(run) == Requests(run);
  }

  /** In every run, the bytes sent are as many as send took, and a prefix of the responses to requests that
      the run read, no request twice. A request not answered yet waits or has a worker. */
  lemma AnswersFollowRun(threads: nat, ios: nat, run: seq<Step>, s: State)
    requires Leads(Init(threads, ios), run, s)
    ensures |s.wire| == BytesSent(run) && s.wire <= Cat(Requests(run), s.pushed)
    ensures NoDup(s.pushed) && forall i :: 0 <= i < |s.pushed| ==> s.pushed[i] < |Requests(run)|
    ensures |s.loc| == |Requests(run)|
    ensures forall c :: 0 <= c < |s.loc| ==> c in s.pushed || Early(s.loc, s.pcs, c)
  {
    RequestsRead(threads, ios, run, s);
    InvPushes(s);
    AnsweredOnce(threads, ios, run, s);
  }
}
