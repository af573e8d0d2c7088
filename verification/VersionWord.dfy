/** The version word of a tree node (bench/servers/silo/btree.h): lock bit, modifying and deleting
    marks and a 55-bit version, used by readers to validate what they read without locking. Every
    load, store and compare-and-swap of the word is one step; any number of threads. */
module VersionWord {
  import opened Options

  const VERSIONS: nat := 0x80_0000_0000_0000        // 2^55 values of the version field

  /** The fields, low bits first: type, key slots used, locked, is_root, modifying, deleting, version. */
  datatype Hdr = Hdr(kind: nat, slots: nat, locked: bool, root: bool, modifying: bool, deleting: bool, version: nat)

  predicate InRange(h: Hdr) { h.kind < 2 && h.slots < 16 && h.version < VERSIONS }

  function Bit(b: bool): nat { if b then 1 else 0 }

  /** The 64-bit word: every field above the ones before it. */
  function Pack(h: Hdr): nat { h.kind + 2 * (h.slots + 16 * (Bit(h.locked) + 2 * Marks(h))) }

  function Marks(h: Hdr): nat {
    Bit(h.root) + 2 * (Bit(h.modifying) + 2 * (Bit(h.deleting) + 2 * h.version))
  }

  function Unlocked(h: Hdr): Hdr { h.(locked := false) }

  /** `CheckVersion`: compare the words with the lock bit masked out. */
  predicate CheckVersion(t: Hdr, stable: Hdr) { Pack(Unlocked(t)) == Pack(Unlocked(stable)) }

  /** Comparing masked words is comparing every field but the lock bit. */
  lemma CheckComparesFields(t: Hdr, stable: Hdr)
    requires InRange(t) && InRange(stable)
    ensures CheckVersion(t, stable) <==> Unlocked(t) == Unlocked(stable)
    ensures Pack(t) < 0x1_0000_0000_0000_0000
  {
    MarksDecide(Unlocked(t), Unlocked(stable));
    MarksDecide(t, t);
  }

  lemma MarksDecide(h: Hdr, h': Hdr)
    requires InRange(h)
    ensures Marks(h) < 8 * VERSIONS
    ensures Marks(h) == Marks(h') <==>
      h.root == h'.root && h.modifying == h'.modifying && h.deleting == h'.deleting && h.version == h'.version
  {
  }

  /** `Unlock`: a marked node gets the next version. */
  function UnlockWord(h: Hdr): Hdr {
    h.(locked := false, modifying := false,
       version := if h.modifying || h.deleting then (h.version + 1) % VERSIONS else h.version)
  }

  // ---- the state machine ----

  /** A reader holding a stable version remembers, as history, how many version bumps, writes and
      quiet writes there had been when it loaded it. A lock holder may have filled in insert_info. */
  datatype PC =
    | Idle
    | Spin                                              // stable_version
    | Reading(v: Hdr, bumps: nat, writes: nat, quiet: nat)
    | Checked(ok: bool)                                 // what check_version said
    | LockLoad
    | LockCas(v: Hdr)
    | Holding(info: Option<nat>)                        // old_version of insert_info, if taken
    | Published(info: Option<nat>, version: nat)        // after unlock: the version stored

  /** bumps counts version increments, writes counts all changes to the node's contents, and quiet
      those made outside a modifying section. */
  datatype State = State(hdr: Hdr, bumps: nat, writes: nat, quiet: nat, owner: Option<nat>, pcs: seq<PC>)

  /** Overwrite is a store under the lock that leaves the key count alone: a value, a layer root or
      a separator. SetPrev is the store to `prev_` by a thread that has a neighbour locked, not this
      node. */
  datatype Action =
    | BeginRead | BeginLock | Go | Modify | Delete | Root(on: bool) | Write(slots: nat) | Overwrite | SetPrev
    | TakeInfo | Unlock

  function Init(h: Hdr, threads: nat): State {
    State(h, h.version, 0, 0, None, seq(threads, _ => Idle))
  }

  predicate Enabled(s: State, t: nat, a: Action) {
    && t < |s.pcs|
    && match s.pcs[t]
       case Idle => a.BeginRead? || a.BeginLock? || a.SetPrev?
       case Spin => a.Go?
       case Reading(_, _, _, _) => a.Go?
       case Checked(_) => a.Go?
       case LockLoad => a.Go?
       case LockCas(_) => a.Go?
       case Published(_, _) => a.Go?
       case Holding(_) =>
         || (a.Modify? && !s.hdr.modifying) || (a.Delete? && !s.hdr.deleting) || a.Root? || a.Overwrite? || a.Unlock?
         || (a.Write? && s.hdr.modifying && a.slots < 16) || (a.TakeInfo? && s.hdr.modifying)
  }

  function Do(s: State, t: nat, a: Action): State
    requires Enabled(s, t, a)
  {
    match s.pcs[t]
    case Idle => if a.SetPrev? then Store(s, true) else At(s, t, if a.BeginRead? then Spin else LockLoad)
    case Spin => if s.hdr.modifying then s else At(s, t, Reading(s.hdr, s.bumps, s.writes, s.quiet))
    case Reading(v, _, _, _) => At(s, t, Checked(CheckVersion(s.hdr, v)))
    case Checked(_) => At(s, t, Idle)
    case LockLoad => At(s, t, LockCas(s.hdr))
    case LockCas(v) =>
      if v.locked || v != s.hdr then At(s, t, LockLoad)
      else At(s.(hdr := s.hdr.(locked := true), owner := Some(t)), t, Holding(None))
    case Published(_, _) => At(s, t, Idle)
    case Holding(info) =>
      match a
      case Modify => s.(hdr := s.hdr.(modifying := true))
      case Delete => s.(hdr := s.hdr.(deleting := true))
      case Root(on) => s.(hdr := s.hdr.(root := on))
      case Write(slots) => Store(s.(hdr := s.hdr.(slots := slots)), false)
      case Overwrite => Store(s, !s.hdr.modifying)
      case TakeInfo => At(s, t, Holding(Some(s.hdr.version)))
      case _ =>
        var h := UnlockWord(s.hdr);
        At(s.(hdr := h, bumps := if s.hdr.modifying || s.hdr.deleting then s.bumps + 1 else s.bumps, owner := None),
           t, Published(info, h.version))
  }

  /** The contents change, inside a modifying section or not. */
  function Store(s: State, outside: bool): State {
    s.(writes := s.writes + 1, quiet := if outside then s.quiet + 1 else s.quiet)
  }

  function At(s: State, t: nat, pc: PC): State
    requires t < |s.pcs|
  {
    s.(pcs := s.pcs[t := pc])
  }

  // ---- the invariant ----

  ghost predicate OwnerOk(s: State) {
    && (forall t :: 0 <= t < |s.pcs| && s.pcs[t].Holding? ==> s.owner == Some(t))
    && (s.owner.Some? ==> s.owner.value < |s.pcs| && s.pcs[s.owner.value].Holding?)
    && (s.hdr.locked <==> s.owner.Some?)
    && (s.hdr.modifying ==> s.hdr.locked)
  }

  /** Only quiet writes happened since a reader's load, unless the version moved on or is about to. */
  ghost predicate ThreadOk(s: State, t: nat)
    requires t < |s.pcs|
  {
    match s.pcs[t]
    case Reading(v, b, w, q) =>
      && InRange(v) && !v.modifying && v.version == b % VERSIONS && b <= s.bumps
      && 0 <= s.quiet - q <= s.writes - w
      && (s.bumps == b && !s.hdr.modifying ==> s.writes - w == s.quiet - q)
    case Holding(info) => info.Some? ==> info.value == s.hdr.version && s.hdr.modifying
    case Published(info, v) => info.Some? ==> info.value < VERSIONS && v == (info.value + 1) % VERSIONS
    case _ => true
  }

  ghost predicate Inv(s: State) {
    && InRange(s.hdr) && s.hdr.version == s.bumps % VERSIONS && OwnerOk(s)
    && forall t :: 0 <= t < |s.pcs| ==> ThreadOk(s, t)
  }

  lemma NextVersion(b: nat)
    ensures (b % VERSIONS + 1) % VERSIONS == (b + 1) % VERSIONS
  {
  }

  lemma StepOwner(s: State, t: nat, a: Action)
    requires Inv(s) && Enabled(s, t, a)
    ensures OwnerOk(Do(s, t, a))
  {
  }

  lemma StepThread(s: State, t: nat, a: Action, u: nat)
    requires Inv(s) && Enabled(s, t, a) && u < |s.pcs|
    ensures ThreadOk(Do(s, t, a), u)
  {
    if u == t {
      OwnThread(s, t, a);
    } else {
      OtherThread(s, t, a, u);
    }
  }

  lemma OwnThread(s: State, t: nat, a: Action)
    requires Inv(s) && Enabled(s, t, a)
    ensures ThreadOk(Do(s, t, a), t)
  {
    assert ThreadOk(s, t);
    NextVersion(s.bumps);
  }

  lemma OtherThread(s: State, t: nat, a: Action, u: nat)
    requires Inv(s) && Enabled(s, t, a) && u < |s.pcs| && u != t
    ensures ThreadOk(Do(s, t, a), u)
  {
    assert ThreadOk(s, t) && ThreadOk(s, u);
    NextVersion(s.bumps);
  }

  lemma StepInv(s: State, t: nat, a: Action)
    requires Inv(s) && Enabled(s, t, a)
    ensures Inv(Do(s, t, a))
  {
    NextVersion(s.bumps);
    StepOwner(s, t, a);
    var s' := Do(s, t, a);
    forall u | 0 <= u < |s'.pcs| ensures ThreadOk(s', u) {
      StepThread(s, t, a, u);
    }
  }

  // ---- runs ----

  datatype Step = Step(t: nat, a: Action)

  ghost predicate Leads(s: State, run: seq<Step>, s': State)
    decreases |run|
  {
    if run == [] then s' == s
    else exists m {:trigger Takes(m, run[|run| - 1], s')} ::
      Leads(s, run[..|run| - 1], m) && Takes(m, run[|run| - 1], s')
  }

  ghost predicate Takes(s: State, step: Step, s': State) {
    Enabled(s, step.t, step.a) && s' == Do(s, step.t, step.a)
  }

  /** Reached from some unlocked node by some interleaving. */
  ghost predicate Reachable(s: State) {
    exists h, threads: nat, run :: Fresh(h) && Leads(Init(h, threads), run, s)
  }

  predicate Fresh(h: Hdr) { InRange(h) && !h.locked && !h.modifying }

  lemma {:induction false} RunInv(s: State, run: seq<Step>, s': State)
    requires Inv(s) && Leads(s, run, s')
    ensures Inv(s')
    decreases |run|
  {
    if run != [] {
      var n := |run| - 1;
      var m :| Leads(s, run[..n], m) && Takes(m, run[n], s');
      RunInv(s, run[..n], m);
      StepInv(m, run[n].t, run[n].a);
    }
  }

  lemma ReachableInv(s: State)
    requires Reachable(s)
    ensures Inv(s)
  {
    var h, threads: nat, run :| Fresh(h) && Leads(Init(h, threads), run, s);
    RunInv(Init(h, threads), run, s);
  }

  /** A reader whose check succeeds has seen no modifying section, unless the version has gone all
      the way around since the load. Every change in between was a quiet one, so the contents are as
      loaded exactly when there was none. */
  lemma CheckedReadIsStable(s: State, t: nat)
    requires Reachable(s) && t < |s.pcs| && s.pcs[t].Reading? && Do(s, t, Go).pcs[t] == Checked(true)
    ensures
      var r := s.pcs[t];
      && r.bumps <= s.bumps && (s.bumps - r.bumps) % VERSIONS == 0 && !s.hdr.modifying
      && (s.bumps - r.bumps < VERSIONS ==>
            && s.bumps == r.bumps && s.writes - r.writes == s.quiet - r.quiet
            && (s.writes == r.writes <==> s.quiet == r.quiet))
  {
    ReachableInv(s);
    assert ThreadOk(s, t);
    CheckComparesFields(s.hdr, s.pcs[t].v);
    SameResidue(s.pcs[t].bumps, s.bumps);
  }

  /** The check succeeds exactly when no field but the lock bit differs from the one loaded. */
  lemma CheckSays(s: State, t: nat)
    requires Reachable(s) && t < |s.pcs| && s.pcs[t].Reading?
    ensures Do(s, t, Go).pcs[t] == Checked(Unlocked(s.hdr) == Unlocked(s.pcs[t].v))
  {
    ReachableInv(s);
    assert ThreadOk(s, t);
    CheckComparesFields(s.hdr, s.pcs[t].v);
  }

  lemma SameResidue(a: nat, b: nat)
    requires a <= b && a % VERSIONS == b % VERSIONS
    ensures (b - a) % VERSIONS == 0
    ensures b - a < VERSIONS ==> a == b
  {
  }

  /** insert_info's new_version is the version that Unlock publishes, exactly when the version field
      does not overflow. */
  lemma InfoIsPublished(s: State, t: nat)
    requires Reachable(s) && t < |s.pcs| && s.pcs[t].Published? && s.pcs[t].info.Some?
    ensures s.pcs[t].version == s.pcs[t].info.value + 1 <==> s.pcs[t].info.value + 1 < VERSIONS
  {
    ReachableInv(s);
    assert ThreadOk(s, t);
  }

  // ---- the header and the counts, read off the run ----

  function Deleted(h: Hdr, run: seq<Step>): bool {
    if run == [] then h.deleting else run[|run| - 1].a.Delete? || Deleted(h, run[..|run| - 1])
  }

  /** Since the last unlock. */
  function Modified(h: Hdr, run: seq<Step>): bool {
    if run == [] then h.modifying else
      var a := run[|run| - 1].a;
      a.Modify? || (!a.Unlock? && Modified(h, run[..|run| - 1]))
  }

  function IsRoot(h: Hdr, run: seq<Step>): bool {
    if run == [] then h.root else
      var a := run[|run| - 1].a;
      if a.Root? then a.on else IsRoot(h, run[..|run| - 1])
  }

  function Slots(h: Hdr, run: seq<Step>): nat {
    if run == [] then h.slots else
      var a := run[|run| - 1].a;
      if a.Write? then a.slots else Slots(h, run[..|run| - 1])
  }

  /** Unlocks of a node marked modifying or deleting. */
  function Bumps(h: Hdr, run: seq<Step>): nat {
    if run == [] then 0 else
      var before := run[..|run| - 1];
      Bumps(h, before) + Bit(run[|run| - 1].a.Unlock? && (Modified(h, before) || Deleted(h, before)))
  }

  function Writes(run: seq<Step>): nat {
    if run == [] then 0 else
      var a := run[|run| - 1].a;
      Writes(run[..|run| - 1]) + Bit(a.Write? || a.Overwrite? || a.SetPrev?)
  }

  /** Stores outside a modifying section. */
  function QuietWrites(h: Hdr, run: seq<Step>): nat {
    if run == [] then 0 else
      var a, before := run[|run| - 1].a, run[..|run| - 1];
      QuietWrites(h, before) + Bit(a.SetPrev? || (a.Overwrite? && !Modified(h, before)))
  }

  /** The marks, the key count and the version are what the steps of the run have made them: a node marked
      deleting stays so, and every unlock of a marked node counts once. */
  lemma {:induction false} HeaderFollowsRun(h: Hdr, threads: nat, run: seq<Step>, s: State)
    requires Fresh(h) && Leads(Init(h, threads), run, s)
    ensures s.hdr.kind == h.kind && s.hdr.deleting == Deleted(h, run) && s.hdr.modifying == Modified(h, run)
    ensures s.hdr.root == IsRoot(h, run) && s.hdr.slots == Slots(h, run)
    ensures s.bumps == h.version + Bumps(h, run) && s.writes == Writes(run) && s.quiet == QuietWrites(h, run)
    decreases |run|
  {
    if run != [] {
      var n := |run| - 1;
      var m :| Leads(Init(h, threads), run[..n], m) && Takes(m, run[n], s);
      HeaderFollowsRun(h, threads, run[..n], m);
      StepHeader(m, run[n].t, run[n].a);
    }
  }

  /** What a step does to the marks, the key count and the counts. */
  lemma StepHeader(s: State, t: nat, a: Action)
    requires Enabled(s, t, a)
    ensures
      var s' := Do(s, t, a);
      && s'.hdr.kind == s.hdr.kind && s'.hdr.deleting == (a.Delete? || s.hdr.deleting)
      && s'.hdr.modifying == (a.Modify? || (!a.Unlock? && s.hdr.modifying))
      && s'.hdr.root == (if a.Root? then a.on else s.hdr.root)
      && s'.hdr.slots == (if a.Write? then a.slots else s.hdr.slots)
      && s'.bumps == s.bumps + Bit(a.Unlock? && (s.hdr.modifying || s.hdr.deleting))
      && s'.writes == s.writes + Bit(a.Write? || a.Overwrite? || a.SetPrev?)
      && s'.quiet == s.quiet + Bit(a.SetPrev? || (a.Overwrite? && !s.hdr.modifying))
  {
  }

  /** The version is the one the node started with plus those unlocks, in 55 bits. */
  lemma VersionFollowsRun(h: Hdr, threads: nat, run: seq<Step>, s: State)
    requires Fresh(h) && Leads(Init(h, threads), run, s)
    ensures s.hdr.version == (h.version + Bumps(h, run)) % VERSIONS
  {
    ReachableInv(s);
    HeaderFollowsRun(h, threads, run, s);
  }

  /** At most one thread holds the lock. */
  lemma OneHolder(s: State, t: nat, u: nat)
    requires Reachable(s) && t < |s.pcs| && u < |s.pcs| && s.pcs[t].Holding? && s.pcs[u].Holding?
    ensures t == u
  {
    ReachableInv(s);
  }

  // ---- a full turn of the version ----

  ghost predicate Closed(reach: State -> bool) {
    forall s, t, a :: reach(s) && Enabled(s, t, a) ==> reach(Do(s, t, a))
  }

  const NODE := Hdr(0, 0, false, true, false, false, 0)

  /** Thread 0 has held its stable version during k writes by thread 1. */
  function After(k: nat): State {
    State(NODE.(version := k % VERSIONS), k, k, 0, None, [Reading(NODE, 0, 0, 0), Idle])
  }

  lemma OneCycle(reach: State -> bool, k: nat)
    requires Closed(reach) && reach(After(k))
    ensures reach(After(k + 1))
  {
    var s0 := After(k);
    var h := s0.hdr;
    var r := s0.pcs[0];
    var s1 := s0.(pcs := [r, LockLoad]);
    var s2 := s0.(pcs := [r, LockCas(h)]);
    var s3 := s0.(hdr := h.(locked := true), owner := Some(1), pcs := [r, Holding(None)]);
    var s4 := s3.(hdr := h.(locked := true, modifying := true));
    var s5 := s4.(writes := k + 1);
    NextVersion(k);
    var s6 := After(k + 1).(pcs := [r, Published(None, (k + 1) % VERSIONS)]);
    assert s1 == Do(s0, 1, BeginLock);
    assert s2 == Do(s1, 1, Go);
    assert s3 == Do(s2, 1, Go);
    assert s4 == Do(s3, 1, Modify);
    assert s5 == Do(s4, 1, Write(0));
    assert s6 == Do(s5, 1, Unlock);
    assert After(k + 1) == Do(s6, 1, Go);
  }

  lemma {:induction false} Cycles(reach: State -> bool, k: nat)
    requires Closed(reach) && reach(After(0))
    ensures reach(After(k))
  {
    if k > 0 {
      Cycles(reach, k - 1);
      OneCycle(reach, k - 1);
    }
  }

  lemma StartReached(reach: State -> bool)
    requires Closed(reach) && reach(Init(NODE, 2))
    ensures reach(After(0))
  {
    var s0 := Init(NODE, 2);
    assert s0.pcs == [Idle, Idle];
    var s1 := s0.(pcs := [Spin, Idle]);
    assert s1 == Do(s0, 0, BeginRead);
    assert After(0) == Do(s1, 0, Go);
  }

  lemma TurnReached(reach: State -> bool)
    requires Closed(reach) && reach(Init(NODE, 2))
    ensures reach(After(VERSIONS))
  {
    StartReached(reach);
    Cycles(reach, VERSIONS);
  }

  lemma ReachableClosed()
    ensures Closed(s => Reachable(s))
  {
    forall s, t, a | Reachable(s) && Enabled(s, t, a) ensures Reachable(Do(s, t, a)) {
      var h, threads: nat, run :| Fresh(h) && Leads(Init(h, threads), run, s);
      var run' := run + [Step(t, a)];
      assert run'[..|run|] == run && Takes(s, run'[|run|], Do(s, t, a));
      assert Leads(Init(h, threads), run', Do(s, t, a));
    }
  }

  /** After exactly 2^55 writes a reader's check succeeds again, so the bound of
      CheckedReadIsStable cannot be dropped. */
  lemma FullTurnGoesUnnoticed()
    ensures
      var s := After(VERSIONS);
      && Reachable(s) && s.pcs[0].Reading? && Do(s, 0, Go).pcs[0] == Checked(true)
      && s.writes == s.pcs[0].writes + VERSIONS
  {
    ReachableClosed();
    assert Leads(Init(NODE, 2), [], Init(NODE, 2)) && Fresh(NODE);
    TurnReached(s => Reachable(s));
    assert VERSIONS % VERSIONS == 0;
  }

  // ---- quiet writes ----

  /** Thread 0 has held its stable version during one store by thread 1. */
  const QUIETLY := State(NODE, 0, 1, 1, None, [Reading(NODE, 0, 0, 0), Idle])

  lemma OverwriteReached(reach: State -> bool)
    requires Closed(reach) && reach(After(0))
    ensures reach(QUIETLY)
  {
    var s0 := After(0);
    var r := s0.pcs[0];
    var s1 := s0.(pcs := [r, LockLoad]);
    var s2 := s0.(pcs := [r, LockCas(NODE)]);
    var s3 := s0.(hdr := NODE.(locked := true), owner := Some(1), pcs := [r, Holding(None)]);
    var s4 := s3.(writes := 1, quiet := 1);
    var s5 := QUIETLY.(pcs := [r, Published(None, 0)]);
    assert s1 == Do(s0, 1, BeginLock);
    assert s2 == Do(s1, 1, Go);
    assert s3 == Do(s2, 1, Go);
    assert s4 == Do(s3, 1, Overwrite);
    assert s5 == Do(s4, 1, Unlock);
    assert QUIETLY == Do(s5, 1, Go);
  }

  /** A value overwritten under the lock between load and check: the check succeeds, and the node is
      not what it was at the load. */
  lemma QuietWriteGoesUnnoticed()
    ensures
      var s := QUIETLY;
      && Reachable(s) && s.pcs[0].Reading? && Do(s, 0, Go).pcs[0] == Checked(true)
      && s.bumps == s.pcs[0].bumps && s.writes == s.pcs[0].writes + 1
  {
    ReachableClosed();
    assert Leads(Init(NODE, 2), [], Init(NODE, 2)) && Fresh(NODE);
    StartReached(s => Reachable(s));
    OverwriteReached(s => Reachable(s));
  }
}
