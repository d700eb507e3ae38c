/**
  What the immobilizer promises the rider, told without the functions it is computed with:
  a power cut keeps the lock, a bike left standing locks after its grace time and not before,
  the ignition switch moves the key, and each command does what it says or nothing.
 */
module LockLaws {
  import opened Output
  import opened Lock
  import L = Lock
  import LS = LockSafety
  import OS = OutputSafety
  import OL = OutputLaws

  // ---------- power ----------

  /** The commanded states as they are persisted. */
  function Image(e: Engine): (image: seq<bool>)
    requires e.Valid()
    ensures |image| == N
  {
    seq(N, i requires 0 <= i < N => e.ch[i].on)
  }

  /** The same board after a power cut: it comes up from what it had persisted. */
  function PowerCut(p: Pair): (p': Pair)
    requires p.out.Valid()
    ensures p'.out.Valid()
  {
    Init(p.lock.cfg, p.lock.lockedFlag, Boot(p.out.cfg, p.out.canDim, Image(p.out)))
  }

  /** The first ignition channel. */
  ghost predicate IsKey(roles: seq<Role>, i: int) {
    0 <= i < |roles| && roles[i].isIgnition && forall k :: 0 <= k < i ==> !roles[k].isIgnition
  }

  ghost predicate KeyLeftOn(roles: seq<Role>, image: seq<bool>)
    requires |roles| == |image|
  {
    exists i :: IsKey(roles, i) && image[i]
  }

  /** A board boots LOCKED exactly when it is enabled, was LOCKED, and the ignition was not
      left on. Left on, the ride goes on: UNLOCKED, and the corrected flag is to be saved. */
  lemma BootsLockedExactly(on: LS.PowerOn)
    requires on.Valid()
    ensures var p, left := on.Pair(), KeyLeftOn(on.outputs.roles, on.image);
            && p.lock.state == (if !on.cfg.enabled then Disabled else if on.flag && !left then Locked else Unlocked)
            && p.lock.lockedFlag == p.out.immobilized == (p.lock.state == Locked)
            && (on.cfg.enabled && on.flag && left ==> p.lock.dirty)
  {
    hide ForceOff;
    KeyIsFirst(on.outputs.roles, on.image);
  }

  lemma KeyIsFirst(roles: seq<Role>, image: seq<bool>)
    requires |roles| == N && |image| == N
    ensures KeyLeftOn(roles, image) <==> FindIgnition(roles) >= 0 && image[FindIgnition(roles)]
  {
    var ign := FindIgnition(roles);
    if ign >= 0 && image[ign] { assert IsKey(roles, ign); }
  }

  /** A board that boots LOCKED boots dark; any other boot leaves the commanded states alone. */
  lemma BootsDarkWhenLocked(on: LS.PowerOn)
    requires on.Valid()
    ensures var p := on.Pair();
            forall i :: 0 <= i < N ==> p.out.ch[i].on == (on.image[i] && p.lock.state != Locked)
  {
    LS.ForceOffSweeps(on.Engine().(immobilized := true), false, 0);
  }

  /** Pulling the battery of a LOCKED bike never opens it, unless the ignition channel is itself
      a hazard member that the running hazards hold on. */
  lemma PowerCutKeepsLock(p: Pair)
    requires p.out.Valid() && LS.Coupled(p) && p.lock.state == Locked
    ensures PowerCut(p).lock.state == Locked <==> !Live(p.out)
    ensures (forall i :: 0 <= i < N && p.out.cfg.roles[i].isIgnition ==> !p.out.cfg.roles[i].hazardMember) ==>
              PowerCut(p).lock.state == Locked && PowerCut(p).out.immobilized
  {
  }

  /** The same in every state the system reaches, through any run, from any power-on. */
  lemma PowerCutAlwaysKeepsLock(H: Hash, on: LS.PowerOn, ops: seq<LS.Op>)
    requires on.Valid() && LS.AllLegal(ops) && LS.Run(H, on.Pair(), ops).lock.state == Locked
    requires forall i :: 0 <= i < N && on.outputs.roles[i].isIgnition ==> !on.outputs.roles[i].hazardMember
    ensures var p' := PowerCut(LS.Run(H, on.Pair(), ops));
            p'.lock.state == Locked && p'.out.immobilized && p'.lock.cfg == LS.Run(H, on.Pair(), ops).lock.cfg
  {
    hide LS.Run, LS.Coupled;
    LS.CoupledAlways(H, on, ops);
    PowerCutKeepsLock(LS.Run(H, on.Pair(), ops));
  }

  /** And a bike that was not LOCKED does not come up LOCKED. */
  lemma PowerCutNeverLocks(p: Pair)
    requires p.out.Valid() && LS.Coupled(p) && p.lock.state != Locked
    ensures PowerCut(p).lock.state != Locked && forall i :: 0 <= i < N ==> PowerCut(p).out.ch[i].on == p.out.ch[i].on
  {
  }

  // ---------- left standing ----------

  /** Neither running nor keyed on. */
  ghost predicate Standing(e: Engine)
    requires e.Valid()
  {
    !e.engineRunning && !Live(e)
  }

  /** Ticks with the switch off and operations of the outputs, the bike standing at every tick. */
  ghost predicate StandsThroughout(H: Hash, p: Pair, ops: seq<LS.Op>)
    requires p.out.Valid()
    decreases |ops|
  {
    ops != [] ==>
      && (ops[0].OnOutput? || (ops[0].LockTick? && !ops[0].level && Standing(p.out)))
      && StandsThroughout(H, LS.Step(H, p, ops[0]), ops[1..])
  }

  /** The times of the lock's ticks. */
  function TickTimes(ops: seq<LS.Op>): seq<nat> {
    if ops == [] then [] else (if ops[0].LockTick? then [ops[0].now] else []) + TickTimes(ops[1..])
  }

  ghost predicate Ascending(ts: seq<nat>) {
    forall i, j :: 0 <= i < j < |ts| ==> ts[i] <= ts[j]
  }

  /** One tick of a standing bike. */
  lemma StandingTick(p: Pair, now: nat)
    requires p.out.Valid() && p.lock.cfg.enabled && Standing(p.out) && !p.lock.state.Disabled?
    ensures var p', l := L.Tick(p, now, false), p.lock;
            && p'.lock.cfg == l.cfg
            && (l.state == Unlocked ==> p'.lock.state == Parked && p'.lock.parkedSince == now)
            && (l.state == Parked ==>
                  p'.lock.state == (if now - l.parkedSince >= l.cfg.graceMs then Locked else Parked) && p'.lock.parkedSince == l.parkedSince)
            && (l.state == Locked ==> p'.lock.state == Locked)
  {
    hide EnterUnlocked, EnterLocked, Set, Release, Timers;
    LS.TimersKeep(p.lock, now);
    TimersKeepParking(p.lock, now);
    var p1 := SwitchEdge(p.(lock := Timers(p.lock, now)), false);
    assert p1.out == p.out;
    EnteredLocked(p1);
  }

  lemma EnteredLocked(p: Pair)
    requires p.out.Valid()
    ensures EnterLocked(p).lock == p.lock.(state := Locked, lockedFlag := true, dirty := EnterLocked(p).lock.dirty)
  {
  }

  lemma TimersKeepParking(l: Lock, now: nat)
    ensures Timers(l, now).parkedSince == l.parkedSince && Timers(l, now).prevSwitch == l.prevSwitch
  {
  }

  lemma {:induction false} LockedStays(H: Hash, p: Pair, ops: seq<LS.Op>)
    requires p.out.Valid() && p.lock.cfg.enabled && p.lock.state == Locked && StandsThroughout(H, p, ops)
    ensures LS.Run(H, p, ops).lock.state == Locked
    decreases |ops|
  {
    hide L.Tick, OS.Apply, Standing;
    if ops != [] {
      if ops[0].LockTick? { StandingTick(p, ops[0].now); }
      LockedStays(H, LS.Step(H, p, ops[0]), ops[1..]);
    }
  }

  lemma {:induction false} ParkedLocksExactly(H: Hash, p: Pair, ops: seq<LS.Op>)
    requires p.out.Valid() && p.lock.cfg.enabled && p.lock.state == Parked && StandsThroughout(H, p, ops) && Ascending(TickTimes(ops))
    ensures var ts := TickTimes(ops);
            LS.Run(H, p, ops).lock.state ==
            if ts != [] && ts[|ts| - 1] - p.lock.parkedSince >= p.lock.cfg.graceMs then Locked else Parked
    decreases |ops|
  {
    hide L.Tick, OS.Apply, Standing;
    if ops != [] {
      var p1 := LS.Step(H, p, ops[0]);
      var ts, rest := TickTimes(ops), TickTimes(ops[1..]);
      if ops[0].LockTick? {
        StandingTick(p, ops[0].now);
        assert ts == [ops[0].now] + rest;
        assert rest != [] ==> ts[|ts| - 1] == rest[|rest| - 1] && ts[0] <= ts[|ts| - 1];
      }
      AscendingRest(ts, rest);
      if p1.lock.state == Locked {
        LockedStays(H, p1, ops[1..]);
      } else {
        ParkedLocksExactly(H, p1, ops[1..]);
      }
    }
  }

  lemma AscendingRest(ts: seq<nat>, rest: seq<nat>)
    requires Ascending(ts) && (ts == rest || (ts != [] && ts[1..] == rest))
    ensures Ascending(rest)
  {
    forall i, j | 0 <= i < j < |rest| ensures rest[i] <= rest[j] {
      if ts != rest { assert ts[i + 1] == rest[i] && ts[j + 1] == rest[j]; }
    }
  }

  /** A bike left standing is LOCKED exactly once its grace time has passed since the first tick
      that saw it standing, whatever is done to the other outputs meanwhile. */
  lemma {:induction false} LocksExactlyAfterGrace(H: Hash, p: Pair, ops: seq<LS.Op>)
    requires p.out.Valid() && p.lock.cfg.enabled && p.lock.state == Unlocked && StandsThroughout(H, p, ops) && Ascending(TickTimes(ops))
    ensures var ts := TickTimes(ops);
            LS.Run(H, p, ops).lock.state ==
            if ts == [] then Unlocked
            else if |ts| > 1 && ts[|ts| - 1] - ts[0] >= p.lock.cfg.graceMs then Locked else Parked
    decreases |ops|
  {
    hide L.Tick, OS.Apply, Standing;
    if ops != [] {
      var p1 := LS.Step(H, p, ops[0]);
      var ts, rest := TickTimes(ops), TickTimes(ops[1..]);
      if ops[0].LockTick? {
        StandingTick(p, ops[0].now);
        assert ts == [ops[0].now] + rest;
        AscendingRest(ts, rest);
        ParkedLocksExactly(H, p1, ops[1..]);
      } else {
        assert ts == rest;
        LocksExactlyAfterGrace(H, p1, ops[1..]);
      }
    }
  }

  /** Riding off before that starts the grace time over. */
  lemma RidingUnparks(p: Pair, now: nat)
    requires p.out.Valid() && p.lock.cfg.enabled && p.lock.state == Parked && !Standing(p.out) && !p.lock.prevSwitch
    ensures L.Tick(p, now, false).lock.state == Unlocked && L.Tick(p, now, false).out == p.out
  {
    hide Timers, EnterLocked, EnterUnlocked, Set, Release;
    LS.TimersKeep(p.lock, now);
    TimersKeepParking(p.lock, now);
    var p1 := SwitchEdge(p.(lock := Timers(p.lock, now)), false);
    assert p1.out == p.out && p1.lock.state == Parked;
  }

  // ---------- the ignition switch ----------

  ghost predicate SwitchFitted(p: Pair)
    requires p.out.Valid()
  {
    p.lock.cfg.enabled && p.lock.cfg.switchMethod && p.lock.cfg.switchInput >= 0 && FindIgnition(p.out.cfg.roles) >= 0
  }

  /** Switching a channel off that the hazards do not hold lights nothing. */
  lemma OffLightsNothing(e: Engine, c: nat, i: nat)
    requires e.Valid() && c < N && i < N && !(e.hazards && e.cfg.roles[c].hazardMember)
    ensures Set(e, c, false, Local).ch[i].on ==> e.ch[i].on
    ensures Set(e, c, false, Local).hazards ==> e.hazards
  {
  }

  lemma {:induction false} SweepLightsNothing(e: Engine, hazardsRunning: bool, k: nat, i: nat)
    requires e.Valid() && k <= N && i < N && (e.hazards ==> hazardsRunning)
    ensures ForceOff(e, hazardsRunning, k).ch[i].on ==> e.ch[i].on
    ensures ForceOff(e, hazardsRunning, k).hazards ==> e.hazards
    decreases N - k
  {
    hide Set;
    if k == N {
    } else if (hazardsRunning && e.cfg.roles[k].hazardMember) || !e.ch[k].on {
      SweepLightsNothing(e, hazardsRunning, k + 1, i);
    } else {
      OffLightsNothing(e, k, i);
      SweepLightsNothing(Set(e, k, false, Local), hazardsRunning, k + 1, i);
    }
  }

  /** Whether or not it locks on the way, a tick outside LOCKED leaves lit only what the switch
      left lit. */
  lemma AdvanceLightsNothing(p: Pair, now: nat, level: bool, i: nat)
    requires p.out.Valid() && p.lock.state != Locked && i < N
    ensures Advance(p, now, level).out.ch[i].on ==> p.out.ch[i].on
    ensures Advance(p, now, level).out.hazards ==> p.out.hazards
    ensures !Standing(p.out) && p.lock.state != Disabled ==>
              Advance(p, now, level).lock.state == Unlocked && Advance(p, now, level).out == p.out
  {
    hide EnterUnlocked, ForceOff;
    SweepLightsNothing(p.out, p.out.hazards, 0, i);
  }

  /** The tick after the switch moved, outside LOCKED. */
  lemma MovedTick(p: Pair, now: nat, level: bool)
    requires p.out.Valid() && SwitchFitted(p) && p.lock.state != Locked && level != p.lock.prevSwitch
    ensures var ign := FindIgnition(p.out.cfg.roles);
            var out := if level == p.out.ch[ign].on then p.out else Set(p.out, ign, level, Local);
            exists l: Lock :: l.state == p.lock.state && l.cfg == p.lock.cfg && L.Tick(p, now, level) == Advance(Pair(l, out), now, level)
  {
    hide Timers, Set, Advance;
    LS.TimersKeep(p.lock, now);
    TimersKeepParking(p.lock, now);
    var p1 := SwitchEdge(p.(lock := Timers(p.lock, now)), level);
    assert L.Tick(p, now, level) == Advance(p1, now, level);
    assert p1 == Pair(p1.lock, p1.out);
  }

  /** Moving the switch on turns the key, unless that is refused; the bike is then UNLOCKED. */
  lemma SwitchTurnsKeyOn(p: Pair, now: nat)
    requires p.out.Valid() && SwitchFitted(p) && p.lock.state != Locked && p.lock.state != Disabled && !p.lock.prevSwitch
    ensures var ign, p' := FindIgnition(p.out.cfg.roles), L.Tick(p, now, true);
            p.out.ch[ign].on || Refusal(p.out, ign, true, Local) == Ok ==> p'.out.ch[ign].on && p'.lock.state == Unlocked
  {
    hide L.Tick, Set, Advance;
    var ign := FindIgnition(p.out.cfg.roles);
    MovedTick(p, now, true);
    var out := if p.out.ch[ign].on then p.out else Set(p.out, ign, true, Local);
    OL.SetReaches(p.out, ign, true, Local);
    var l: Lock :| l.state == p.lock.state && l.cfg == p.lock.cfg && L.Tick(p, now, true) == Advance(Pair(l, out), now, true);
    SetKeepsConfig(p.out, ign, true);
    AdvanceLightsNothing(Pair(l, out), now, true, ign);
  }

  lemma SetKeepsConfig(e: Engine, c: nat, on: bool)
    requires e.Valid()
    ensures Set(e, c, on, Local).cfg == e.cfg
  {
  }

  /** Moving it off puts the ignition out and darkens the bike, hazards and all. */
  lemma SwitchOffDarkens(p: Pair, now: nat)
    requires p.out.Valid() && SwitchFitted(p) && p.lock.state != Locked && p.lock.prevSwitch && p.out.ch[FindIgnition(p.out.cfg.roles)].on
    ensures var p' := L.Tick(p, now, false);
            && !p'.out.hazards && !p'.out.ch[FindIgnition(p.out.cfg.roles)].on
            && forall i :: 0 <= i < N && !p.out.cfg.roles[i].isIgnition ==> !p'.out.ch[i].on
  {
    hide L.Tick, Set, Advance;
    var ign := FindIgnition(p.out.cfg.roles);
    MovedTick(p, now, false);
    var out := Set(p.out, ign, false, Local);
    OL.KeyOffDarkens(p.out, ign, Local);
    SetKeepsConfig(p.out, ign, false);
    var l: Lock :| l.state == p.lock.state && l.cfg == p.lock.cfg && L.Tick(p, now, false) == Advance(Pair(l, out), now, false);
    forall i: nat | i < N ensures Advance(Pair(l, out), now, false).out.ch[i].on ==> out.ch[i].on {
      AdvanceLightsNothing(Pair(l, out), now, false, i);
    }
    AdvanceLightsNothing(Pair(l, out), now, false, ign);
  }

  /** A switch that does not move does nothing to an unlocked bike that is not standing. */
  lemma RestingSwitchIsSilent(p: Pair, now: nat, level: bool)
    requires p.out.Valid() && p.lock.cfg.enabled && p.lock.state == Unlocked && level == p.lock.prevSwitch
    ensures L.Tick(p, now, level).out == p.out
  {
    hide Timers, Set, EnterLocked, EnterUnlocked;
    LS.TimersKeep(p.lock, now);
    TimersKeepParking(p.lock, now);
    assert SwitchEdge(p.(lock := Timers(p.lock, now)), level).out == p.out;
  }

  /** In LOCKED the switch is a level: on opens, if it is a method, and off does nothing. */
  lemma LockedSwitchOpens(p: Pair, now: nat, level: bool)
    requires p.out.Valid() && p.lock.cfg.enabled && p.lock.state == Locked
    ensures var p' := L.Tick(p, now, level);
            if level && p.lock.cfg.switchMethod then p'.lock.state == Unlocked else p'.lock.state == Locked && p'.out == p.out
  {
    hide Timers, Set, EnterLocked, EnterUnlocked;
    LS.TimersKeep(p.lock, now);
  }

  // ---------- requests and settings ----------

  /** A lock request locks a standing bike and is refused to a riding one. */
  lemma LockRequestExactly(p: Pair)
    requires p.out.Valid()
    ensures RequestLock(p).lock.state == Locked <==> p.lock.state == Locked || (p.lock.cfg.enabled && Standing(p.out))
    ensures LockReply(p) == (if !p.lock.cfg.enabled then Unauthorized else if p.lock.state == Locked || Standing(p.out) then Done else Rejected)
    ensures p.lock.state == Locked || RequestLock(p).lock.state != Locked ==> RequestLock(p) == p
  {
    hide ForceOff;
  }

  /** A phone opens exactly the bike whose owner enabled it. */
  lemma UnlockRequestExactly(p: Pair)
    requires p.out.Valid()
    ensures p.lock.state == Locked ==> (RequestUnlock(p).lock.state == Unlocked <==> p.lock.cfg.phone)
    ensures p.lock.state != Locked || !p.lock.cfg.phone ==> RequestUnlock(p) == p
    ensures UnlockReply(p) == Unauthorized <==> p.lock.state == Locked && !p.lock.cfg.phone
  {
    hide Set;
  }

  /** What a lock configuration needs, in the rider's terms. */
  ghost predicate Sound(cfg: LockConfig, outputs: Config) {
    var switchWorks := cfg.switchMethod && 0 <= cfg.switchInput < 8;
    && (cfg.enabled ==> (cfg.codeSet || switchWorks) && exists i :: 0 <= i < |outputs.roles| && outputs.roles[i].isIgnition)
    && (cfg.switchMethod ==> switchWorks)
  }

  lemma FaultlessIsSound(cfg: LockConfig, outputs: Config)
    requires |outputs.roles| == N
    ensures Faults(cfg, outputs) == {} <==> Sound(cfg, outputs)
  {
    var f := Faults(cfg, outputs);
    assert f == {} <==> RequiresFallback !in f && RequiresIgnitionChannel !in f && BadSwitchInput !in f;
    var ign := FindIgnition(outputs.roles);
  }

  /** Sound settings are taken over whole, with the stored code kept; others change nothing. */
  lemma SettingsApplyExactly(p: Pair, s: Settings)
    requires p.out.Valid()
    ensures var c := p.lock.cfg;
            var wanted := LockConfig(s.enabled, s.phone, s.switchMethod, s.switchInput, s.graceMs, s.windowMs, c.codeSet, c.codeLen, c.salt, c.hash);
            var p' := ApplySettings(p, s);
            if Sound(wanted, p.out.cfg)
            then p'.lock.cfg == wanted && p'.lock.dirty
                 && p'.lock.state == (if !s.enabled && c.enabled then Disabled else if s.enabled && !c.enabled then Unlocked else p.lock.state)
            else p' == p
  {
    hide Faults, Sound;
    FaultlessIsSound(Candidate(p.lock.cfg, s), p.out.cfg);
  }

  /** An erased code opens nothing, and neither does one of a board that changed hands. */
  lemma ErasedCodeOpensNothing(H: Hash, p: Pair, buttons: seq<nat>)
    requires p.out.Valid()
    ensures !p.lock.cfg.enabled ==> !TestCode(H, ClearCode(p.lock).cfg, buttons)
    ensures p.lock.cfg.enabled ==> ClearCode(p.lock) == p.lock
    ensures !TestCode(H, Transfer(p).lock.cfg, buttons)
  {
  }

  /** A board that changed hands is as new: DISABLED, default settings, no inhibit of its own. */
  lemma TransferIsAsNew(p: Pair)
    requires p.out.Valid() && LS.Coupled(p)
    ensures var p' := Transfer(p);
            && p'.lock.state == Disabled && !p'.lock.lockedFlag && !p'.out.immobilized && p'.lock.dirty
            && p'.lock.cfg == LockConfig(false, false, false, -1, 60000, 5000, false, 0, [], [])
  {
  }

  // ---------- what has to be saved ----------

  /** Whatever changes what is persisted, the LOCKED flag or the configuration, says so. */
  lemma PersistentChangesAreDirty(H: Hash, p: Pair, op: LS.Op)
    requires p.out.Valid()
    ensures var l, l' := p.lock, LS.Step(H, p, op).lock;
            (l'.lockedFlag != l.lockedFlag || l'.cfg != l.cfg ==> l'.dirty) && (l.dirty ==> l'.dirty)
  {
    hide L.Tick, CodePress, RequestLock, RequestUnlock, Faults, OS.Apply;
    match op
    case OnOutput(_) =>
    case LockTick(now, level) => TickSaves(p, now, level);
    case AskLock => RequestSaves(p);
    case AskUnlock => RequestSaves(p);
    case Press(now, button) => PressSaves(H, p, now, button);
    case StoreCode(_, _, _) =>
    case EraseCode =>
    case Configure(_) =>
    case TransferOwnership =>
  }

  /** The flag and the configuration are what they were, or the change is marked. */
  ghost predicate Saves(l: Lock, l': Lock) {
    (l'.lockedFlag != l.lockedFlag || l'.cfg != l.cfg ==> l'.dirty) && (l.dirty ==> l'.dirty)
  }

  lemma EntriesSave(p: Pair)
    requires p.out.Valid()
    ensures Saves(p.lock, EnterLocked(p).lock) && Saves(p.lock, EnterUnlocked(p).lock) && Saves(p.lock, Release(p, Disabled).lock)
    ensures EnterLocked(p).lock.cfg == p.lock.cfg && EnterUnlocked(p).lock.cfg == p.lock.cfg
  {
    hide ForceOff, Set;
  }

  lemma TickSaves(p: Pair, now: nat, level: bool)
    requires p.out.Valid()
    ensures Saves(p.lock, L.Tick(p, now, level).lock)
  {
    hide Timers, Advance, Release, SwitchEdge;
    TimersSave(p.lock, now);
    var p0 := p.(lock := Timers(p.lock, now));
    EntriesSave(p0);
    AdvanceSaves(SwitchEdge(p0, level), now, level);
  }

  lemma AdvanceSaves(p: Pair, now: nat, level: bool)
    requires p.out.Valid()
    ensures Saves(p.lock, Advance(p, now, level).lock)
  {
    hide EnterLocked, EnterUnlocked;
    EntriesSave(p);
  }

  lemma TimersSave(l: Lock, now: nat)
    ensures Timers(l, now).cfg == l.cfg && Timers(l, now).lockedFlag == l.lockedFlag && Timers(l, now).dirty == l.dirty
  {
  }

  lemma RequestSaves(p: Pair)
    requires p.out.Valid()
    ensures Saves(p.lock, RequestLock(p).lock) && Saves(p.lock, RequestUnlock(p).lock)
  {
    hide EnterLocked, EnterUnlocked;
    EntriesSave(p);
  }

  lemma PressSaves(H: Hash, p: Pair, now: nat, button: nat)
    requires p.out.Valid()
    ensures Saves(p.lock, CodePress(H, p, now, button).lock)
  {
    hide EnterUnlocked, TestCode;
    var l2 := Entered(p.lock, now, button).(entry := [], lastAttempt := now);
    EntriesSave(p.(lock := l2.(wrong := 0, backoffUntil := 0, backoffActive := false)));
  }

  // ---------- wrong codes ----------

  /** How long the n-th consecutive wrong code keeps the keypad shut. */
  function Penalty(n: nat): nat {
    if n <= 5 then 0 else if n == 6 then 15000 else if n == 7 then 30000 else 60000
  }

  /** A wrong code counts, is forgotten, and shuts the keypad for its penalty: until then every
      press is turned away and no tick opens it again, and the first tick after does. */
  lemma WrongCodeShutsKeypad(H: Hash, p: Pair, now: nat, button: nat, later: nat)
    requires p.out.Valid() && p.lock.wrong < 0xFFFF && CodeOutcome(H, p.lock, now, button) == Mismatch && now <= later
    ensures var l := CodePress(H, p, now, button).lock;
            && l.state == Locked && l.wrong == p.lock.wrong + 1 && l.entry == []
            && l.backoffActive == (Penalty(l.wrong) > 0)
            && (Penalty(l.wrong) > 0 ==> forall b :: CodeOutcome(H, l, later, b) == InBackoff)
            && Timers(l, later).backoffActive == (later < now + Penalty(l.wrong))
  {
    hide TestCode;
  }

  /** Five minutes without an attempt forgive everything, and not sooner. */
  lemma QuietForgives(l: Lock, now: nat)
    requires l.wrong > 0 && (l.backoffActive ==> l.backoffUntil <= now)
    ensures Timers(l, now).wrong == if now - l.lastAttempt >= 300000 then 0 else l.wrong
  {
  }
}
