/**
  The lock and the output engine as one stepped system: what every interleaving of
  their operations keeps.
 */
module LockSafety {
  import opened Output
  import opened Lock
  import L = Lock
  import OS = OutputSafety

  /** Every operation anything in the firmware performs on the two, config import
      aside. The engine-running input of the lock's tick is the output engine's own flag. */
  datatype Op =
    | OnOutput(op: OS.Op)
    | LockTick(now: nat, level: bool)
    | AskLock
    | AskUnlock
    | Press(now: nat, button: nat)
    | StoreCode(buttons: seq<nat>, salt: seq<nat>, randomOk: bool)
    | EraseCode
    | Configure(settings: Settings)
    | TransferOwnership

  /** The inhibit belongs to the lock: nothing else raises or lifts it. */
  predicate Legal(op: Op) {
    op.OnOutput? ==> !op.op.DoImmobilize?
  }

  function Step(H: Hash, p: Pair, op: Op): (p': Pair)
    requires p.out.Valid()
    ensures p'.out.Valid() && p'.out.cfg == p.out.cfg
  {
    match op
    case OnOutput(o) => p.(out := OS.Apply(p.out, o))
    case LockTick(now, level) => L.Tick(p, now, level)
    case AskLock => RequestLock(p)
    case AskUnlock => RequestUnlock(p)
    case Press(now, button) => CodePress(H, p, now, button)
    case StoreCode(buttons, salt, randomOk) => p.(lock := SetCode(H, p.lock, buttons, salt, randomOk))
    case EraseCode => p.(lock := ClearCode(p.lock))
    case Configure(settings) => ApplySettings(p, settings)
    case TransferOwnership => Transfer(p)
  }

  function Run(H: Hash, p: Pair, ops: seq<Op>): (p': Pair)
    requires p.out.Valid()
    ensures p'.out.Valid() && p'.out.cfg == p.out.cfg
    decreases |ops|
  {
    if ops == [] then p else Run(H, Step(H, p, ops[0]), ops[1..])
  }

  ghost predicate AllLegal(ops: seq<Op>) {
    forall i :: 0 <= i < |ops| ==> Legal(ops[i])
  }

  // ---------- the two states agree ----------

  ghost predicate OnlyHazardsLit(e: Engine)
    requires e.Valid()
  {
    forall i :: 0 <= i < N && e.ch[i].on ==> e.cfg.roles[i].hazardMember
  }

  ghost predicate Coupled(p: Pair)
    requires p.out.Valid()
  {
    && (p.lock.state.Locked? <==> p.lock.lockedFlag)
    && (p.lock.state.Locked? <==> p.out.immobilized)
    && (p.lock.state.Disabled? <==> !p.lock.cfg.enabled)
    && (p.lock.state.Locked? ==> OnlyHazardsLit(p.out))
  }

  /** Switching a channel off lights nothing outside the hazard group. */
  lemma OffKeepsOnlyHazards(e: Engine, c: nat)
    requires e.Valid() && c < N
    ensures forall i :: 0 <= i < N && Command(e, c, false).ch[i].on ==> i != c && (e.ch[i].on || RestoredByHazards(e, i))
  {
  }

  /** The sweep leaves lit only hazard members, and only if the hazards were running. */
  lemma {:induction false} ForceOffSweeps(e: Engine, hazardsRunning: bool, k: nat)
    requires e.Valid() && k <= N
    requires e.hazards ==> hazardsRunning
    requires forall i :: 0 <= i < k && e.ch[i].on ==> hazardsRunning && e.cfg.roles[i].hazardMember
    ensures forall i :: 0 <= i < N && ForceOff(e, hazardsRunning, k).ch[i].on ==> hazardsRunning && e.cfg.roles[i].hazardMember
    decreases N - k
  {
    if k == N {
    } else if (hazardsRunning && e.cfg.roles[k].hazardMember) || !e.ch[k].on {
      ForceOffSweeps(e, hazardsRunning, k + 1);
    } else {
      OffKeepsOnlyHazards(e, k);
      ForceOffSweeps(Set(e, k, false, Local), hazardsRunning, k + 1);
    }
  }

  lemma EnterLockedCouples(p: Pair)
    requires p.out.Valid() && p.lock.cfg.enabled
    ensures Coupled(EnterLocked(p)) && EnterLocked(p).lock.state.Locked?
  {
    ForceOffSweeps(p.out, p.out.hazards, 0);
  }

  lemma CoupledAtBoot(cfg: LockConfig, flag: bool, outputs: Config, canDim: bool, image: seq<bool>)
    requires |outputs.roles| == N && |image| == N
    ensures Coupled(Init(cfg, flag, Boot(outputs, canDim, image)))
  {
    var e := Boot(outputs, canDim, image);
    ForceOffSweeps(e.(immobilized := true), false, 0);
  }

  /** While immobilized no output operation lights a channel outside the hazard group. */
  lemma OutputKeepsOnlyHazards(e: Engine, op: OS.Op)
    requires e.Valid() && e.immobilized && OnlyHazardsLit(e) && !op.DoImmobilize?
    ensures OnlyHazardsLit(OS.Apply(e, op)) && OS.Apply(e, op).immobilized
  {
    if op.DoSet? && op.c < N && !op.on { OffKeepsOnlyHazards(e, op.c); }
  }

  lemma CoupledOutput(p: Pair, op: OS.Op)
    requires p.out.Valid() && Coupled(p) && !op.DoImmobilize?
    ensures Coupled(p.(out := OS.Apply(p.out, op)))
  {
    if p.out.immobilized { OutputKeepsOnlyHazards(p.out, op); }
  }

  lemma CoupledTick(p: Pair, now: nat, level: bool)
    requires p.out.Valid() && Coupled(p)
    ensures Coupled(L.Tick(p, now, level))
  {
    var p1 := p.(lock := Timers(p.lock, now));
    assert Coupled(p1);
    if p1.lock.cfg.enabled {
      assert Coupled(SwitchEdge(p1, level));
      AdvanceCouples(SwitchEdge(p1, level), now, level);
    }
  }

  lemma CoupledCodePress(H: Hash, p: Pair, now: nat, button: nat)
    requires p.out.Valid() && Coupled(p)
    ensures Coupled(CodePress(H, p, now, button))
  {
    if CodeOutcome(H, p.lock, now, button) == Match { assert CodePress(H, p, now, button).lock.state.Unlocked?; }
  }

  lemma CoupledKept(H: Hash, p: Pair, op: Op)
    requires p.out.Valid() && Coupled(p) && Legal(op)
    ensures Coupled(Step(H, p, op))
  {
    hide Coupled;
    match op
    case OnOutput(o) => CoupledOutput(p, o);
    case LockTick(now, level) => CoupledTick(p, now, level);
    case Press(now, button) => CoupledCodePress(H, p, now, button);
    case _ => CoupledRequest(H, p, op);
  }

  lemma UnlockedCouples(p: Pair)
    requires p.out.Valid() && Coupled(p) && p.lock.state.Locked?
    ensures Coupled(EnterUnlocked(p))
  {
    hide Set, OnlyHazardsLit;
  }

  lemma SettingsCouple(p: Pair, s: Settings)
    requires p.out.Valid() && Coupled(p)
    ensures Coupled(ApplySettings(p, s))
  {
    hide OnlyHazardsLit, Faults;
  }

  lemma CoupledRequest(H: Hash, p: Pair, op: Op)
    requires p.out.Valid() && Coupled(p) && !op.OnOutput? && !op.LockTick? && !op.Press?
    ensures Coupled(Step(H, p, op))
  {
    hide L.Tick, CodePress, OS.Apply, EnterLocked, EnterUnlocked, ApplySettings;
    match op
    case AskLock => if p.lock.cfg.enabled { EnterLockedCouples(p); }
    case AskUnlock => if p.lock.state.Locked? { UnlockedCouples(p); }
    case StoreCode(buttons, salt, randomOk) =>
    case EraseCode =>
    case Configure(settings) => SettingsCouple(p, settings);
    case TransferOwnership =>
  }

  lemma AdvanceCouples(p: Pair, now: nat, level: bool)
    requires p.out.Valid() && Coupled(p) && p.lock.cfg.enabled
    ensures Coupled(Advance(p, now, level))
  {
    EnterLockedCouples(p);
  }

  lemma {:induction false} CoupledOverRuns(H: Hash, p: Pair, ops: seq<Op>)
    requires p.out.Valid() && Coupled(p) && AllLegal(ops)
    ensures Coupled(Run(H, p, ops))
    decreases |ops|
  {
    if ops != [] {
      CoupledKept(H, p, ops[0]);
      CoupledOverRuns(H, Step(H, p, ops[0]), ops[1..]);
    }
  }

  // ---------- how LOCKED is entered ----------

  /** The sweep keeps the ignition channel off and, when the hazards were running and
      at most one channel is an ignition, keeps them running with every member as it was. */
  lemma {:induction false} ForceOffKeeps(e: Engine, k: nat)
    requires e.Valid() && k <= N && !Live(e)
    ensures var e' := ForceOff(e, e.hazards, k);
            && !Live(e')
            && (e.hazards && AtMostOneIgnition(e.cfg) ==>
                  e'.hazards && forall i :: 0 <= i < N && e.cfg.roles[i].hazardMember ==> e'.ch[i] == e.ch[i])
    decreases N - k
  {
    if k == N {
    } else if (e.hazards && e.cfg.roles[k].hazardMember) || !e.ch[k].on {
      ForceOffKeeps(e, k + 1);
    } else {
      var e1 := Set(e, k, false, Local);
      OffStep(e, k);
      if e1.hazards == e.hazards {
        ForceOffKeeps(e1, k + 1);
      } else {
        ForceOffDark(e1, e.hazards, k + 1);
      }
    }
  }

  lemma OffStep(e: Engine, k: nat)
    requires e.Valid() && k < N && !Live(e) && !(e.hazards && e.cfg.roles[k].hazardMember)
    ensures var e1 := Command(e, k, false);
            && !Live(e1) && (e1.hazards ==> e.hazards)
            && (AtMostOneIgnition(e.cfg) && e.ch[k].on ==>
                  e1.hazards == e.hazards && forall i :: 0 <= i < N && i != k ==> e1.ch[i] == e.ch[i])
  {
  }

  lemma {:induction false} ForceOffDark(e: Engine, hazardsRunning: bool, k: nat)
    requires e.Valid() && k <= N && !Live(e) && !e.hazards
    ensures !Live(ForceOff(e, hazardsRunning, k))
    decreases N - k
  {
    if k < N {
      if !((hazardsRunning && e.cfg.roles[k].hazardMember) || !e.ch[k].on) {
        OffStep(e, k);
        ForceOffDark(Set(e, k, false, Local), hazardsRunning, k + 1);
      } else {
        ForceOffDark(e, hazardsRunning, k + 1);
      }
    }
  }

  ghost predicate Standing(e: Engine)
    requires e.Valid()
  {
    !e.engineRunning && !Live(e)
  }

  lemma LockedStanding(p: Pair)
    requires p.out.Valid() && Standing(p.out)
    ensures Standing(EnterLocked(p).out)
  {
    ForceOffKeeps(p.out, 0);
  }

  lemma AdvanceIntoLocked(p: Pair, now: nat, level: bool)
    requires p.out.Valid() && !p.lock.state.Locked? && Advance(p, now, level).lock.state.Locked?
    ensures Standing(p.out) && Standing(Advance(p, now, level).out)
  {
    LockedStanding(p);
  }

  /** Every entry to LOCKED, at boot or later, leaves the engine not running and
      the ignition off, and was decided in such a state. */
  lemma LockedOnlyWhenStanding(H: Hash, p: Pair, op: Op)
    requires p.out.Valid() && !p.lock.state.Locked? && Step(H, p, op).lock.state.Locked?
    ensures Standing(Step(H, p, op).out)
    ensures op.LockTick? || (op.AskLock? && Standing(p.out))
  {
    hide EnterLocked, EnterUnlocked, SwitchEdge, CodePress, OS.Apply;
    match op
    case LockTick(now, level) => AdvanceIntoLocked(SwitchEdge(p.(lock := Timers(p.lock, now)), level), now, level);
    case AskLock => LockedStanding(p);
    case _ => LocksOnlyByTickOrRequest(H, p, op);
  }

  lemma BootsLockedOnlyWhenStanding(cfg: LockConfig, flag: bool, e: Engine)
    requires e.Valid() && Init(cfg, flag, e).lock.state.Locked?
    ensures Standing(e) && Standing(Init(cfg, flag, e).out)
  {
    ForceOffKeeps(e.(immobilized := true), 0);
  }

  /** The outputs when the lock decides: in a tick, after the ignition switch was followed. */
  ghost function AtDecision(p: Pair, op: Op): (e: Engine)
    requires p.out.Valid()
    ensures e.Valid() && e.cfg == p.out.cfg
  {
    if op.LockTick? then SwitchEdge(p.(lock := Timers(p.lock, op.now)), op.level).out else p.out
  }

  /** Whatever locks the bike while the hazards run, a request or the grace timer of a bike
      left standing, leaves them running with every member as it was. */
  lemma LockingKeepsHazards(H: Hash, p: Pair, op: Op)
    requires p.out.Valid() && AtMostOneIgnition(p.out.cfg) && AtDecision(p, op).hazards
    requires (!p.lock.state.Locked? || op.AskLock?) && Step(H, p, op).lock.state.Locked?
    ensures HazardsAsBefore(AtDecision(p, op), Step(H, p, op).out)
  {
    hide EnterLocked, EnterUnlocked, SwitchEdge, CodePress, OS.Apply;
    match op
    case LockTick(now, level) =>
      var p1 := SwitchEdge(p.(lock := Timers(p.lock, now)), level);
      if p1.lock.cfg.enabled { AutoLockKeepsHazards(p1, now, level); }
    case AskLock => if !p.lock.state.Locked? { EntryKeepsHazards(p); }
    case _ => LocksOnlyByTickOrRequest(H, p, op);
  }

  lemma LocksOnlyByTickOrRequest(H: Hash, p: Pair, op: Op)
    requires p.out.Valid() && !p.lock.state.Locked? && !op.LockTick? && !op.AskLock?
    ensures !Step(H, p, op).lock.state.Locked?
  {
  }

  lemma EntryKeepsHazards(p: Pair)
    requires p.out.Valid() && p.out.hazards && AtMostOneIgnition(p.out.cfg) && !Live(p.out)
    ensures HazardsAsBefore(p.out, EnterLocked(p).out)
  {
    ForceOffKeeps(p.out, 0);
  }

  lemma AutoLockKeepsHazards(p: Pair, now: nat, level: bool)
    requires p.out.Valid() && p.out.hazards && AtMostOneIgnition(p.out.cfg)
    requires !p.lock.state.Locked? && Advance(p, now, level).lock.state.Locked?
    ensures HazardsAsBefore(p.out, Advance(p, now, level).out)
  {
    hide EnterLocked, EnterUnlocked;
    EntryKeepsHazards(p);
  }

  ghost predicate HazardsAsBefore(e: Engine, e': Engine)
    requires e.Valid() && e'.Valid()
  {
    e'.hazards && forall i :: 0 <= i < N && e.cfg.roles[i].hazardMember ==> e'.ch[i] == e.ch[i]
  }

  // ---------- the lock acts on the engine only through its public operations ----------

  /** A command or an inhibit: what the lock sends the engine, with no time of its own. */
  ghost predicate FromLock(ops: seq<OS.Op>) {
    forall i :: 0 <= i < |ops| ==> (ops[i].DoSet? && ops[i].src.Local?) || ops[i].DoImmobilize?
  }

  ghost predicate Reaches(e: Engine, e': Engine)
    requires e.Valid()
  {
    exists ops :: FromLock(ops) && OS.Run(e, ops) == e'
  }

  lemma ReachesBySet(e: Engine, c: nat, on: bool)
    requires e.Valid()
    ensures Reaches(e, Set(e, c, on, Local))
  {
    var ops := [OS.DoSet(c, on, Local)];
    assert ops[1..] == [];
    assert OS.Run(e, ops) == OS.Run(OS.Apply(e, ops[0]), ops[1..]);
    assert FromLock(ops);
  }

  lemma ReachesByInhibit(e: Engine, b: bool)
    requires e.Valid()
    ensures Reaches(e, e.(immobilized := b))
  {
    var ops := [OS.DoImmobilize(b)];
    assert ops[1..] == [];
    assert OS.Run(e, ops) == OS.Run(OS.Apply(e, ops[0]), ops[1..]);
    assert FromLock(ops);
  }

  lemma ReachesItself(e: Engine)
    requires e.Valid()
    ensures Reaches(e, e)
  {
    assert FromLock([]) && OS.Run(e, []) == e;
  }

  lemma ReachesOn(e: Engine, e1: Engine, e2: Engine)
    requires e.Valid() && e1.Valid() && Reaches(e, e1) && Reaches(e1, e2)
    ensures Reaches(e, e2)
  {
    var a :| FromLock(a) && OS.Run(e, a) == e1;
    var b :| FromLock(b) && OS.Run(e1, b) == e2;
    OS.RunAppend(e, a, b);
    assert FromLock(a + b);
  }

  lemma {:induction false} ForceOffReaches(e: Engine, hazardsRunning: bool, k: nat)
    requires e.Valid() && k <= N
    ensures Reaches(e, ForceOff(e, hazardsRunning, k))
    decreases N - k
  {
    if k == N {
      ReachesItself(e);
    } else if (hazardsRunning && e.cfg.roles[k].hazardMember) || !e.ch[k].on {
      ForceOffReaches(e, hazardsRunning, k + 1);
    } else {
      var e1 := Set(e, k, false, Local);
      ReachesBySet(e, k, false);
      ForceOffReaches(e1, hazardsRunning, k + 1);
      ReachesOn(e, e1, ForceOff(e1, hazardsRunning, k + 1));
    }
  }

  lemma EnterLockedReaches(p: Pair)
    requires p.out.Valid()
    ensures Reaches(p.out, EnterLocked(p).out)
  {
    var e1 := ForceOff(p.out, p.out.hazards, 0);
    ForceOffReaches(p.out, p.out.hazards, 0);
    ReachesByInhibit(e1, true);
    ReachesOn(p.out, e1, EnterLocked(p).out);
  }

  lemma ReleaseReaches(p: Pair, state: State)
    requires p.out.Valid()
    ensures Reaches(p.out, Release(p, state).out)
  {
    ReachesItself(p.out);
    ReachesByInhibit(p.out, false);
  }

  lemma EnterUnlockedReaches(p: Pair)
    requires p.out.Valid()
    ensures Reaches(p.out, EnterUnlocked(p).out)
  {
    var e1 := Release(p, Unlocked).out;
    ReleaseReaches(p, Unlocked);
    ReachesItself(e1);
    var ign := FindIgnition(e1.cfg.roles);
    if ign >= 0 { ReachesBySet(e1, ign, true); }
    ReachesOn(p.out, e1, EnterUnlocked(p).out);
  }

  lemma SwitchEdgeReaches(p: Pair, level: bool)
    requires p.out.Valid()
    ensures Reaches(p.out, SwitchEdge(p, level).out)
  {
    ReachesItself(p.out);
    var ign := FindIgnition(p.out.cfg.roles);
    if ign >= 0 { ReachesBySet(p.out, ign, level); }
  }

  lemma AdvanceReaches(p: Pair, now: nat, level: bool)
    requires p.out.Valid()
    ensures Reaches(p.out, Advance(p, now, level).out)
  {
    ReachesItself(p.out);
    EnterLockedReaches(p);
    EnterUnlockedReaches(p);
  }

  lemma TickReaches(p: Pair, now: nat, level: bool)
    requires p.out.Valid()
    ensures Reaches(p.out, L.Tick(p, now, level).out)
  {
    var p1 := p.(lock := Timers(p.lock, now));
    ReachesItself(p.out);
    if p1.lock.cfg.enabled {
      var p2 := SwitchEdge(p1, level);
      SwitchEdgeReaches(p1, level);
      AdvanceReaches(p2, now, level);
      ReachesOn(p.out, p2.out, Advance(p2, now, level).out);
    } else {
      ReleaseReaches(p1, Disabled);
    }
  }

  lemma LockOpReaches(H: Hash, p: Pair, op: Op)
    requires p.out.Valid() && !op.OnOutput?
    ensures Reaches(p.out, Step(H, p, op).out)
  {
    ReachesItself(p.out);
    match op
    case LockTick(now, level) => TickReaches(p, now, level);
    case AskLock => EnterLockedReaches(p);
    case AskUnlock => EnterUnlockedReaches(p);
    case Press(now, button) =>
      if CodeOutcome(H, p.lock, now, button) == Match { MatchReaches(H, p, now, button); }
    case Configure(settings) =>
      ReleaseReaches(p.(lock := p.lock.(cfg := Candidate(p.lock.cfg, settings), dirty := true)), Disabled);
    case TransferOwnership => ReleaseReaches(p, Disabled);
    case _ =>
  }

  lemma MatchReaches(H: Hash, p: Pair, now: nat, button: nat)
    requires p.out.Valid() && CodeOutcome(H, p.lock, now, button) == Match
    ensures Reaches(p.out, CodePress(H, p, now, button).out)
  {
    var l := Entered(p.lock, now, button).(entry := [], lastAttempt := now, wrong := 0, backoffUntil := 0, backoffActive := false);
    EnterUnlockedReaches(p.(lock := l));
  }

  ghost predicate Timed(ops: seq<Op>, clock: nat)
    decreases |ops|
  {
    ops != [] ==> clock <= OutClock(ops[0], clock) && Timed(ops[1..], OutClock(ops[0], clock))
  }

  function EndClock(ops: seq<Op>, clock: nat): nat
    decreases |ops|
  {
    if ops == [] then clock else EndClock(ops[1..], OutClock(ops[0], clock))
  }

  /** The output engine's clock after one step. */
  function OutClock(op: Op, clock: nat): nat {
    if op.OnOutput? then OS.ClockAfter(op.op, clock) else clock
  }

  lemma {:induction false} FromLockTimed(ops: seq<OS.Op>, clock: nat)
    requires FromLock(ops)
    ensures OS.Timed(ops, clock) && OS.EndClock(ops, clock) == clock
  {
    if ops != [] { FromLockTimed(ops[1..], clock); }
  }

  lemma {:induction false} TimedAppend(a: seq<OS.Op>, b: seq<OS.Op>, clock: nat)
    requires OS.Timed(a, clock) && OS.Timed(b, OS.EndClock(a, clock))
    ensures OS.Timed(a + b, clock) && OS.EndClock(a + b, clock) == OS.EndClock(b, OS.EndClock(a, clock))
  {
    if a == [] {
      assert a + b == b;
    } else {
      assert (a + b)[1..] == a[1..] + b;
      TimedAppend(a[1..], b, OS.ClockAfter(a[0], clock));
    }
  }

  /** Any run of the whole system is, to the output engine, a run of its own
      operations: what those keep, the system keeps. */
  lemma {:induction false} SystemRunsTheEngine(H: Hash, p: Pair, ops: seq<Op>, clock: nat) returns (trace: seq<OS.Op>)
    requires p.out.Valid() && Timed(ops, clock)
    ensures OS.Run(p.out, trace) == Run(H, p, ops).out
    ensures OS.Timed(trace, clock) && OS.EndClock(trace, clock) == EndClock(ops, clock)
    decreases |ops|
  {
    if ops == [] { return []; }
    var p1 := Step(H, p, ops[0]);
    var head;
    if ops[0].OnOutput? {
      head := [ops[0].op];
      assert head[1..] == [];
      assert OS.Run(p.out, head) == OS.Run(OS.Apply(p.out, head[0]), head[1..]);
    } else {
      LockOpReaches(H, p, ops[0]);
      head :| FromLock(head) && OS.Run(p.out, head) == p1.out;
      FromLockTimed(head, clock);
    }
    var tail := SystemRunsTheEngine(H, p1, ops[1..], OutClock(ops[0], clock));
    OS.RunAppend(p.out, head, tail);
    TimedAppend(head, tail, clock);
    return head + tail;
  }

  lemma InitReaches(cfg: LockConfig, flag: bool, e: Engine)
    requires e.Valid()
    ensures Reaches(e, Init(cfg, flag, e).out)
  {
    ReachesByInhibit(e, false);
    ReachesByInhibit(e, true);
    var e1 := e.(immobilized := true);
    ForceOffReaches(e1, e1.hazards, 0);
    ReachesOn(e, e1, ForceOff(e1, e1.hazards, 0));
  }

  /** What the board finds at power-on: persisted configurations, the persisted lock
      flag and the persisted commanded states. */
  datatype PowerOn = PowerOn(cfg: LockConfig, flag: bool, outputs: Config, canDim: bool, image: seq<bool>)
  {
    ghost predicate Valid() {
      |outputs.roles| == N && |image| == N
    }

    function Engine(): Engine
      requires Valid()
    {
      Boot(outputs, canDim, image)
    }

    function Pair(): Pair
      requires Valid()
    {
      Init(cfg, flag, Engine())
    }
  }

  lemma FirmwareTrace(H: Hash, on: PowerOn, ops: seq<Op>) returns (trace: seq<OS.Op>)
    requires on.Valid() && Timed(ops, 0)
    ensures OS.Run(on.Engine(), trace) == Run(H, on.Pair(), ops).out
    ensures OS.Timed(trace, 0) && OS.EndClock(trace, 0) == EndClock(ops, 0)
  {
    InitReaches(on.cfg, on.flag, on.Engine());
    var head :| FromLock(head) && OS.Run(on.Engine(), head) == on.Pair().out;
    FromLockTimed(head, 0);
    var tail := SystemRunsTheEngine(H, on.Pair(), ops, 0);
    OS.RunAppend(on.Engine(), head, tail);
    TimedAppend(head, tail, 0);
    return head + tail;
  }

  lemma CoupledAlways(H: Hash, on: PowerOn, ops: seq<Op>)
    requires on.Valid() && AllLegal(ops)
    ensures Coupled(Run(H, on.Pair(), ops))
  {
    CoupledAtBoot(on.cfg, on.flag, on.outputs, on.canDim, on.image);
    CoupledOverRuns(H, on.Pair(), ops);
  }

  lemma StarterSafeAlways(H: Hash, on: PowerOn, ops: seq<Op>)
    requires on.Valid() && Timed(ops, 0) && OS.StarterOnlyCommanded(on.outputs)
    ensures OS.StarterSafe(Run(H, on.Pair(), ops).out)
  {
    var trace := FirmwareTrace(H, on, ops);
    OS.RunStarterSafe(on.Engine(), trace);
  }

  lemma SidesExclusiveAlways(H: Hash, on: PowerOn, ops: seq<Op>, l: nat, r: nat)
    requires on.Valid() && Timed(ops, 0) && OS.OneEachSide(on.outputs, l, r)
    requires !(on.image[l] && on.image[r])
    ensures OS.SidesExclusive(Run(H, on.Pair(), ops).out, l, r)
  {
    var trace := FirmwareTrace(H, on, ops);
    OS.RunSidesExclusive(on.Engine(), trace, l, r);
  }

  lemma PairExclusiveAlways(H: Hash, on: PowerOn, ops: seq<Op>, a: nat, b: nat)
    requires on.Valid() && Timed(ops, 0) && OS.CommandedPair(on.outputs, a, b)
    requires !(on.image[a] && on.image[b])
    ensures OS.NotBoth(Run(H, on.Pair(), ops).out, a, b)
  {
    var trace := FirmwareTrace(H, on, ops);
    OS.RunNotBoth(on.Engine(), trace, a, b);
  }

  // ---------- signals, over the whole system ----------

  /** The operation switches channel `i` on: an accepted command, or the lock turning the key. */
  predicate Commands(H: Hash, p: Pair, op: Op, i: nat)
    requires p.out.Valid()
  {
    match op
    case OnOutput(o) => OS.Commands(p.out, o, i)
    case Configure(_) => false
    case _ => KeyTurned(p, Step(H, p, op), i)
  }

  /** Leaving LOCKED for UNLOCKED commands the ignition channel on, unless that is refused. */
  predicate KeyTurned(p: Pair, p': Pair, i: nat)
    requires p.out.Valid()
  {
    && p.lock.state.Locked? && p'.lock.state.Unlocked?
    && i == FindIgnition(p.out.cfg.roles) && Refusal(p.out.(immobilized := false), i, true, Local).Ok?
  }

  /** What the lock may do to a signal's deadline: nothing, or set it afresh from the latest tick. */
  ghost predicate LockRearms(p: Pair, p': Pair, i: nat)
    requires p.out.Valid() && p'.out.Valid()
  {
    OS.Signalling(p'.out, i) ==>
      p'.out.ch[i].deadline ==
      if !OS.Signalling(p.out, i) || KeyTurned(p, p', i) then p.out.lastTick + p.out.cfg.autoCancelMs else p.out.ch[i].deadline
  }

  ghost predicate Arms(H: Hash, p: Pair, op: Op, i: nat)
    requires p.out.Valid()
  {
    OS.Signalling(Step(H, p, op).out, i) && (!OS.Signalling(p.out, i) || Commands(H, p, op, i))
  }

  function ArmTime(p: Pair, op: Op): nat {
    if op.OnOutput? then OS.ArmTime(p.out, op.op) else p.out.lastTick
  }

  ghost function Rearm(H: Hash, p: Pair, op: Op, at: seq<nat>): (at': seq<nat>)
    requires p.out.Valid() && |at| == N
    ensures |at'| == N
  {
    seq(N, i requires 0 <= i < N => if Arms(H, p, op, i) then ArmTime(p, op) else at[i])
  }

  /** When each signal was last armed, over a run of the system. */
  ghost function LastArmed(H: Hash, p: Pair, ops: seq<Op>, at: seq<nat>): (at': seq<nat>)
    requires p.out.Valid() && |at| == N
    ensures |at'| == N
    decreases |ops|
  {
    if ops == [] then at else LastArmed(H, Step(H, p, ops[0]), ops[1..], Rearm(H, p, ops[0], at))
  }

  /** A bike that has just locked signals nothing outside the hazards. */
  lemma LockedSignalsNothing(p: Pair, i: nat)
    requires p.out.Valid() && !Live(p.out) && AtMostOneIgnition(p.out.cfg)
    ensures !OS.Signalling(EnterLocked(p).out, i)
  {
    ForceOffSweeps(p.out, p.out.hazards, 0);
    ForceOffKeeps(p.out, 0);
  }

  lemma KeyRearms(p: Pair, i: nat)
    requires p.out.Valid() && OS.Cancels(p.out.cfg) && p.lock.state.Locked?
    ensures LockRearms(p, EnterUnlocked(p), i)
  {
    hide Set;
    var e := p.out.(immobilized := false);
    var ign := FindIgnition(e.cfg.roles);
    if ign >= 0 && OS.Signalling(EnterUnlocked(p).out, i) { OS.DeadlineMovesOnlyWhenArmed(e, OS.DoSet(ign, true, Local), i); }
  }

  lemma SwitchRearms(p: Pair, level: bool, i: nat)
    requires p.out.Valid() && OS.Cancels(p.out.cfg) && OS.Signalling(SwitchEdge(p, level).out, i)
    ensures SwitchEdge(p, level).out.ch[i].deadline ==
            if OS.Signalling(p.out, i) then p.out.ch[i].deadline else p.out.lastTick + p.out.cfg.autoCancelMs
  {
    hide Set;
    var ign := FindIgnition(p.out.cfg.roles);
    if ign >= 0 { if SwitchEdge(p, level).out != p.out { OS.DeadlineMovesOnlyWhenArmed(p.out, OS.DoSet(ign, level, Local), i); } }
  }

  lemma AdvanceRearms(p: Pair, now: nat, level: bool, i: nat)
    requires p.out.Valid() && OS.Cancels(p.out.cfg)
    ensures LockRearms(p, Advance(p, now, level), i)
    ensures !p.lock.state.Locked? && OS.Signalling(Advance(p, now, level).out, i) ==> Advance(p, now, level).out == p.out
  {
    hide EnterUnlocked, LockRearms;
    var p' := Advance(p, now, level);
    if p.lock.state.Locked? && level && p.lock.cfg.switchMethod {
      KeyRearms(p, i);
    } else if !p.lock.state.Locked? && p'.lock.state.Locked? {
      LockingRearms(p, i);
      LockedSignalsNothing(p, i);
    } else {
      Untouched(p, p', i);
    }
  }

  lemma TickRearms(p: Pair, now: nat, level: bool, i: nat)
    requires p.out.Valid() && OS.Cancels(p.out.cfg)
    ensures LockRearms(p, L.Tick(p, now, level), i)
  {
    hide EnterLocked, EnterUnlocked, SwitchEdge, Advance, Timers;
    var p0 := p.(lock := Timers(p.lock, now));
    assert p0.lock.state == p.lock.state && p0.lock.cfg == p.lock.cfg by { TimersKeep(p.lock, now); }
    if p0.lock.cfg.enabled {
      var p1 := SwitchEdge(p0, level);
      AdvanceRearms(p1, now, level, i);
      if !p.lock.state.Locked? && OS.Signalling(p1.out, i) {
        SwitchRearms(p0, level, i);
      }
    }
  }

  lemma TimersKeep(l: Lock, now: nat)
    ensures Timers(l, now).state == l.state && Timers(l, now).cfg == l.cfg && Timers(l, now).lockedFlag == l.lockedFlag
  {
  }

  /** A signal's deadline moves only when the signal itself is armed, whoever acts. */
  lemma DeadlineMovesOnlyWhenArmed(H: Hash, p: Pair, op: Op, i: nat)
    requires p.out.Valid() && OS.Cancels(p.out.cfg) && OS.Signalling(Step(H, p, op).out, i)
    ensures Step(H, p, op).out.ch[i].deadline ==
            if Arms(H, p, op, i) then ArmTime(p, op) + p.out.cfg.autoCancelMs else p.out.ch[i].deadline
  {
    hide OS.Apply, L.Tick, OS.Commands;
    match op
    case OnOutput(o) => OS.DeadlineMovesOnlyWhenArmed(p.out, o, i);
    case LockTick(now, level) => TickRearms(p, now, level, i);
    case Configure(settings) => ConfigureKeepsSignals(p, settings);
    case _ => RequestRearms(H, p, op, i);
  }

  lemma ConfigureKeepsSignals(p: Pair, s: Settings)
    requires p.out.Valid()
    ensures ApplySettings(p, s).out == p.out.(immobilized := ApplySettings(p, s).out.immobilized)
  {
  }

  /** A step that leaves the outputs as they are, or only lifts the inhibit, moves no deadline. */
  lemma Untouched(p: Pair, p': Pair, i: nat)
    requires p.out.Valid() && p'.out == p.out.(immobilized := p'.out.immobilized)
    requires !p.lock.state.Locked? || p'.lock.state == p.lock.state || p'.lock.state.Disabled?
    ensures LockRearms(p, p', i)
  {
  }

  lemma RequestRearms(H: Hash, p: Pair, op: Op, i: nat)
    requires p.out.Valid() && OS.Cancels(p.out.cfg) && !op.OnOutput? && !op.LockTick? && !op.Configure?
    ensures LockRearms(p, Step(H, p, op), i)
  {
    hide EnterLocked, EnterUnlocked, L.Tick, OS.Apply, CodePress, LockRearms;
    match op
    case AskLock =>
      if LockReply(p).Done? && !p.lock.state.Locked? { LockingRearms(p, i); } else { Untouched(p, p, i); }
    case AskUnlock =>
      if p.lock.state.Locked? && p.lock.cfg.phone { KeyRearms(p, i); } else { Untouched(p, p, i); }
    case Press(now, button) => PressRearms(H, p, now, button, i);
    case StoreCode(_, _, _) => Untouched(p, Step(H, p, op), i);
    case EraseCode => Untouched(p, Step(H, p, op), i);
    case TransferOwnership => Untouched(p, Step(H, p, op), i);
  }

  lemma LockingRearms(p: Pair, i: nat)
    requires p.out.Valid() && !Live(p.out) && AtMostOneIgnition(p.out.cfg)
    ensures LockRearms(p, EnterLocked(p), i)
  {
    hide EnterLocked;
    LockedSignalsNothing(p, i);
  }

  lemma PressRearms(H: Hash, p: Pair, now: nat, button: nat, i: nat)
    requires p.out.Valid() && OS.Cancels(p.out.cfg)
    ensures LockRearms(p, CodePress(H, p, now, button), i)
  {
    hide EnterUnlocked, LockRearms, Wronged;
    if CodeOutcome(H, p.lock, now, button) == Match {
      var l := Entered(p.lock, now, button).(entry := [], lastAttempt := now, wrong := 0, backoffUntil := 0, backoffActive := false);
      KeyRearms(p.(lock := l), i);
      SameRearms(p, p.(lock := l), CodePress(H, p, now, button), i);
    } else {
      var p' := CodePress(H, p, now, button);
      WrongKeepsState(H, p, now, button);
      Untouched(p, p', i);
    }
  }

  lemma WrongKeepsState(H: Hash, p: Pair, now: nat, button: nat)
    requires p.out.Valid() && CodeOutcome(H, p.lock, now, button) != Match
    ensures CodePress(H, p, now, button).out == p.out && CodePress(H, p, now, button).lock.state == p.lock.state
  {
  }

  lemma SameRearms(p: Pair, q: Pair, p': Pair, i: nat)
    requires p.out.Valid() && p'.out.Valid() && q.out == p.out && q.lock.state == p.lock.state && LockRearms(q, p', i)
    ensures LockRearms(p, p', i)
  {
  }

  lemma SystemArmedKept(H: Hash, p: Pair, op: Op, clock: nat, at: seq<nat>)
    requires p.out.Valid() && OS.Cancels(p.out.cfg) && OS.Armed(p.out, clock, at) && clock <= OutClock(op, clock)
    ensures OS.Armed(Step(H, p, op).out, OutClock(op, clock), Rearm(H, p, op, at))
  {
    hide Step, OS.Apply;
    StepClock(H, p, op);
    var e' := Step(H, p, op).out;
    forall i | OS.Signalling(e', i)
      ensures Rearm(H, p, op, at)[i] <= OutClock(op, clock)
      ensures e'.lastTick < e'.ch[i].deadline == Rearm(H, p, op, at)[i] + e'.cfg.autoCancelMs
    {
      DeadlineMovesOnlyWhenArmed(H, p, op, i);
      if op.OnOutput? { OS.LitBeforeDeadline(p.out, op.op, i); }
    }
  }

  /** Only a tick of the outputs moves their clock. */
  lemma StepClock(H: Hash, p: Pair, op: Op)
    requires p.out.Valid()
    ensures Step(H, p, op).out.lastTick == if op.OnOutput? && op.op.DoTick? then op.op.now else p.out.lastTick
    ensures op.OnOutput? ==> Step(H, p, op).out == OS.Apply(p.out, op.op)
  {
    hide OS.Apply, L.Tick, CodePress, EnterLocked, EnterUnlocked, Faults, SetCode, ClearCode;
    match op
    case OnOutput(o) => OS.OnlyTicksTick(p.out, o);
    case LockTick(now, level) => TickClock(p, now, level);
    case Press(now, button) => PressClock(H, p, now, button);
    case _ => EntriesClock(p, false);
  }

  lemma TickClock(p: Pair, now: nat, level: bool)
    requires p.out.Valid()
    ensures L.Tick(p, now, level).out.lastTick == p.out.lastTick
  {
    hide EnterLocked, EnterUnlocked, SwitchEdge, Timers;
    var p0 := p.(lock := Timers(p.lock, now));
    EntriesClock(p0, level);
    EntriesClock(SwitchEdge(p0, level), level);
  }

  lemma PressClock(H: Hash, p: Pair, now: nat, button: nat)
    requires p.out.Valid()
    ensures CodePress(H, p, now, button).out.lastTick == p.out.lastTick
  {
    hide EnterUnlocked, Wronged, TestCode;
    EntriesClock(p.(lock := Entered(p.lock, now, button).(entry := [], lastAttempt := now, wrong := 0, backoffUntil := 0, backoffActive := false)), false);
  }

  lemma EntriesClock(p: Pair, level: bool)
    requires p.out.Valid()
    ensures EnterLocked(p).out.lastTick == EnterUnlocked(p).out.lastTick == SwitchEdge(p, level).out.lastTick == p.out.lastTick
  {
    hide Set, ForceOff;
  }

  lemma {:induction false} SystemRunArmed(H: Hash, p: Pair, ops: seq<Op>, clock: nat, at: seq<nat>)
    requires p.out.Valid() && OS.Cancels(p.out.cfg) && OS.Armed(p.out, clock, at) && Timed(ops, clock)
    ensures OS.Armed(Run(H, p, ops).out, EndClock(ops, clock), LastArmed(H, p, ops, at))
    decreases |ops|
  {
    hide Step, Rearm;
    if ops != [] {
      SystemArmedKept(H, p, ops[0], clock, at);
      SystemRunArmed(H, Step(H, p, ops[0]), ops[1..], OutClock(ops[0], clock), Rearm(H, p, ops[0], at));
    }
  }

  const NEVER: seq<nat> := [0, 0, 0, 0, 0, 0, 0, 0, 0, 0, 0, 0]

  lemma BootSignalsNothing(on: PowerOn)
    requires on.Valid() && forall i :: 0 <= i < N && on.outputs.roles[i].indicator != NoSide ==> !on.image[i]
    ensures OS.Armed(on.Pair().out, 0, NEVER)
  {
    var e := on.Engine().(immobilized := true);
    ForceOffSweeps(e, false, 0);
  }

  /** In every state any interleaving reaches, at whatever tick, an indicator lit outside the
      hazards was last armed less than `autoCancelMs` before. */
  lemma ArmedAlways(H: Hash, on: PowerOn, ops: seq<Op>)
    requires on.Valid() && Timed(ops, 0) && OS.Cancels(on.outputs)
    requires forall i :: 0 <= i < N && on.outputs.roles[i].indicator != NoSide ==> !on.image[i]
    ensures var e, at := Run(H, on.Pair(), ops).out, LastArmed(H, on.Pair(), ops, NEVER);
            && OS.Armed(e, EndClock(ops, 0), at)
            && forall i :: OS.Signalling(e, i) ==> e.lastTick < at[i] + e.cfg.autoCancelMs
  {
    BootSignalsNothing(on);
    SystemRunArmed(H, on.Pair(), ops, 0, NEVER);
  }

  /** Power lost while the hazards run: the persisted image holds both sides, so the
      next boot lights both with no hazards running. Exclusion holds at boot exactly
      when the image does not hold both. */
  lemma RebootMidHazards(e: Engine, now: nat, l: nat, r: nat)
    requires e.Valid() && !e.hazards && OS.OneEachSide(e.cfg, l, r) && e.cfg.roles[l].hazardMember
    ensures var image := seq(N, i requires 0 <= i < N => HazardPress(e, now).ch[i].on);
            !OS.SidesExclusive(Boot(e.cfg, e.canDim, image), l, r)
    ensures forall image: seq<bool> :: |image| == N ==>
              (OS.SidesExclusive(Boot(e.cfg, e.canDim, image), l, r) <==> !(image[l] && image[r]))
  {
    assert HazardPress(e, now).ch[l].on && HazardPress(e, now).ch[r].on;
  }
}
