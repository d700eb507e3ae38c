/**
  The immobilizer (firmware/components/core/mc_lock.c): four states, an automatic
  lock after a grace period, a cheat-code with backoff, and an ignition switch.
  Every operation works on the lock and on the output engine together, so the
  functions take and give back both.

  The salted hash is abstract: `H` is any function of the salted message.
 */
module Lock {
  import opened Output

  const FREE_ATTEMPTS: nat := 5
  const QUIET_RESET_MS: nat := 300000
  const CODE_MIN: nat := 4
  const CODE_MAX: nat := 10
  const INPUTS: nat := 8
  const COUNTER_WRAP: nat := 0x1_0000

  type Hash = seq<nat> -> seq<nat>

  datatype State = Disabled | Unlocked | Parked | Locked
  datatype Outcome = Pending | Match | Mismatch | InBackoff | NotSet
  datatype Reply = Done | Rejected | Unauthorized
  datatype Fault = RequiresFallback | RequiresIgnitionChannel | BadSwitchInput

  datatype LockConfig = LockConfig(
    enabled: bool,
    phone: bool,
    switchMethod: bool,
    switchInput: int,
    graceMs: nat,
    windowMs: nat,
    codeSet: bool,
    codeLen: nat,
    salt: seq<nat>,
    hash: seq<nat>)

  datatype Lock = Lock(
    cfg: LockConfig,
    state: State,
    lockedFlag: bool,
    parkedSince: nat,
    entry: seq<nat>,
    entryStart: nat,
    wrong: nat,
    backoffUntil: nat,
    lastAttempt: nat,
    backoffActive: bool,
    prevSwitch: bool,
    dirty: bool)

  /** The lock and the output engine it acts on. */
  datatype Pair = Pair(lock: Lock, out: Engine)

  function DefaultConfig(): LockConfig {
    LockConfig(false, false, false, -1, 60000, 5000, false, 0, [], [])
  }

  predicate SwitchUsable(cfg: LockConfig) {
    cfg.switchMethod && 0 <= cfg.switchInput < INPUTS
  }

  /** What is wrong with a lock configuration; empty means it may be applied. */
  function Faults(cfg: LockConfig, outputs: Config): set<Fault>
    requires |outputs.roles| == N
  {
    (if cfg.enabled && !cfg.codeSet && !SwitchUsable(cfg) then {RequiresFallback} else {})
    + (if cfg.enabled && FindIgnition(outputs.roles) < 0 then {RequiresIgnitionChannel} else {})
    + (if cfg.switchMethod && !(0 <= cfg.switchInput < INPUTS) then {BadSwitchInput} else {})
  }

  predicate Live(e: Engine)
    requires e.Valid()
  {
    var i := FindIgnition(e.cfg.roles);
    i >= 0 && e.ch[i].on
  }

  function BackoffMs(wrong: nat): nat {
    if wrong <= FREE_ATTEMPTS then 0
    else if wrong == FREE_ATTEMPTS + 1 then 15000
    else if wrong == FREE_ATTEMPTS + 2 then 30000
    else 60000
  }

  function ResetRuntime(l: Lock): Lock {
    l.(entry := [], wrong := 0, backoffUntil := 0, backoffActive := false)
  }

  /** Locking makes the bike dark, except for hazards that are running. */
  function ForceOff(e: Engine, hazardsRunning: bool, k: nat): (e': Engine)
    requires e.Valid() && k <= N
    ensures e'.Valid() && e' == e.(hazards := e'.hazards, ch := e'.ch)
    decreases N - k
  {
    if k == N then e
    else if (hazardsRunning && e.cfg.roles[k].hazardMember) || !e.ch[k].on then ForceOff(e, hazardsRunning, k + 1)
    else ForceOff(Set(e, k, false, Local), hazardsRunning, k + 1)
  }

  function EnterLocked(p: Pair): (p': Pair)
    requires p.out.Valid()
    ensures p'.out.Valid() && p'.out.cfg == p.out.cfg
  {
    var l := p.lock;
    Pair(l.(state := Locked, lockedFlag := true, dirty := l.dirty || !l.lockedFlag),
         ForceOff(p.out, p.out.hazards, 0).(immobilized := true))
  }

  /** Lifts the inhibit and clears the entry and the backoff if the lock was LOCKED. */
  function Release(p: Pair, state: State): (p': Pair)
    requires p.out.Valid()
    ensures p'.out.Valid() && p'.out.cfg == p.out.cfg
  {
    var l := p.lock.(state := state, lockedFlag := false, dirty := p.lock.dirty || p.lock.lockedFlag);
    if p.lock.state.Locked? then Pair(ResetRuntime(l), p.out.(immobilized := false)) else Pair(l, p.out)
  }

  /** Unlocking also turns the key. */
  function EnterUnlocked(p: Pair): (p': Pair)
    requires p.out.Valid()
    ensures p'.out.Valid() && p'.out.cfg == p.out.cfg
    ensures p'.lock.state.Unlocked? && !p'.lock.lockedFlag && p'.lock.cfg == p.lock.cfg
    ensures p'.out.immobilized == (p.out.immobilized && !p.lock.state.Locked?)
  {
    var p1 := Release(p, Unlocked);
    var ign := FindIgnition(p1.out.cfg.roles);
    if p.lock.state.Locked? && ign >= 0 then p1.(out := Set(p1.out, ign, true, Local)) else p1
  }

  // ---------- boot ----------

  function NewLock(cfg: LockConfig): Lock {
    Lock(cfg, Disabled, false, 0, [], 0, 0, 0, 0, false, false, false)
  }

  /** Restore at boot: never into LOCKED while the engine or the ignition is live. */
  function Init(cfg: LockConfig, persistedLocked: bool, e: Engine): (p: Pair)
    requires e.Valid()
    ensures p.out.Valid() && p.out.cfg == e.cfg
  {
    var l := NewLock(cfg);
    if !cfg.enabled then Pair(l, e.(immobilized := false))
    else if persistedLocked && !(e.engineRunning || Live(e))
    then
      var e1 := e.(immobilized := true);
      Pair(l.(state := Locked, lockedFlag := true), ForceOff(e1, e1.hazards, 0))
    else Pair(l.(state := Unlocked, dirty := persistedLocked), e.(immobilized := false))
  }

  // ---------- tick ----------

  /** Backoff end, quiet-period reset and entry timeout. */
  function Timers(l: Lock, now: nat): Lock {
    var l1 := if l.backoffActive && now >= l.backoffUntil then l.(backoffActive := false) else l;
    var l2 := if l1.wrong > 0 && !l1.backoffActive && now - l1.lastAttempt >= QUIET_RESET_MS then l1.(wrong := 0) else l1;
    if |l2.entry| > 0 && now - l2.entryStart >= l2.cfg.windowMs then l2.(entry := []) else l2
  }

  /** Outside LOCKED a movement of the ignition switch drives the ignition output. */
  function SwitchEdge(p: Pair, level: bool): (p': Pair)
    requires p.out.Valid()
    ensures p'.out.Valid() && p'.out.cfg == p.out.cfg
    ensures p'.lock == p.lock.(prevSwitch := level) && (p.lock.state.Locked? ==> p'.out == p.out)
  {
    var l := p.lock.(prevSwitch := level);
    var ign := FindIgnition(p.out.cfg.roles);
    if l.cfg.switchMethod && l.cfg.switchInput >= 0 && level != p.lock.prevSwitch && !l.state.Locked?
       && ign >= 0 && level != p.out.ch[ign].on
    then Pair(l, Set(p.out, ign, level, Local))
    else Pair(l, p.out)
  }

  function Advance(p: Pair, now: nat, level: bool): (p': Pair)
    requires p.out.Valid()
    ensures p'.out.Valid() && p'.out.cfg == p.out.cfg
  {
    var parkedGuard := !p.out.engineRunning && !Live(p.out);
    match p.lock.state
    case Disabled => p.(lock := p.lock.(state := Unlocked))
    case Unlocked => if parkedGuard then p.(lock := p.lock.(state := Parked, parkedSince := now)) else p
    case Parked =>
      if !parkedGuard then p.(lock := p.lock.(state := Unlocked))
      else if now - p.lock.parkedSince >= p.lock.cfg.graceMs then EnterLocked(p)
      else p
    case Locked => if level && p.lock.cfg.switchMethod then EnterUnlocked(p) else p
  }

  function Tick(p: Pair, now: nat, level: bool): (p': Pair)
    requires p.out.Valid()
    ensures p'.out.Valid() && p'.out.cfg == p.out.cfg
  {
    var p1 := p.(lock := Timers(p.lock, now));
    if !p1.lock.cfg.enabled
    then if p1.lock.state.Disabled? then p1 else Release(p1, Disabled)
    else Advance(SwitchEdge(p1, level), now, level)
  }

  // ---------- commands ----------

  function LockReply(p: Pair): Reply
    requires p.out.Valid()
  {
    if !p.lock.cfg.enabled then Unauthorized
    else if p.lock.state.Locked? then Done
    else if p.out.engineRunning || Live(p.out) then Rejected
    else Done
  }

  function RequestLock(p: Pair): (p': Pair)
    requires p.out.Valid()
    ensures p'.out.Valid() && p'.out.cfg == p.out.cfg
  {
    if LockReply(p).Done? && !p.lock.state.Locked? then EnterLocked(p) else p
  }

  function UnlockReply(p: Pair): Reply {
    if p.lock.state.Locked? && !p.lock.cfg.phone then Unauthorized else Done
  }

  function RequestUnlock(p: Pair): (p': Pair)
    requires p.out.Valid()
    ensures p'.out.Valid() && p'.out.cfg == p.out.cfg
  {
    if p.lock.state.Locked? && p.lock.cfg.phone then EnterUnlocked(p) else p
  }

  // ---------- the cheat-code ----------

  predicate TestCode(H: Hash, cfg: LockConfig, buttons: seq<nat>) {
    && cfg.codeSet && |buttons| != 0 && |buttons| == cfg.codeLen
    && H(cfg.salt + [|buttons|] + buttons) == cfg.hash
  }

  /** The entry buffer after one more button. */
  function Entered(l: Lock, now: nat, button: nat): Lock {
    var l1 := if l.entry == [] || now - l.entryStart >= l.cfg.windowMs then l.(entry := [], entryStart := now) else l;
    if |l1.entry| < CODE_MAX then l1.(entry := l1.entry + [button]) else l1
  }

  function CodeOutcome(H: Hash, l: Lock, now: nat, button: nat): Outcome {
    if !l.state.Locked? then Pending
    else if !l.cfg.codeSet then NotSet
    else if l.backoffActive then InBackoff
    else if button >= INPUTS then Pending
    else
      var l1 := Entered(l, now, button);
      if |l1.entry| < l.cfg.codeLen then Pending
      else if TestCode(H, l.cfg, l1.entry) then Match
      else Mismatch
  }

  /** One more wrong code: the 16-bit counter and the backoff it earns. */
  function Wronged(l: Lock, now: nat): Lock {
    var wrong := (l.wrong + 1) % COUNTER_WRAP;
    var l1 := l.(wrong := wrong);
    if BackoffMs(wrong) > 0 then l1.(backoffUntil := now + BackoffMs(wrong), backoffActive := true) else l1
  }

  function CodePress(H: Hash, p: Pair, now: nat, button: nat): (p': Pair)
    requires p.out.Valid()
    ensures p'.out.Valid() && p'.out.cfg == p.out.cfg
  {
    var l := p.lock;
    if !l.state.Locked? || !l.cfg.codeSet || l.backoffActive || button >= INPUTS then p
    else
      var l1 := Entered(l, now, button);
      if |l1.entry| < l.cfg.codeLen then p.(lock := l1)
      else
        var l2 := l1.(entry := [], lastAttempt := now);
        if TestCode(H, l.cfg, l1.entry)
        then EnterUnlocked(p.(lock := l2.(wrong := 0, backoffUntil := 0, backoffActive := false)))
        else p.(lock := Wronged(l2, now))
  }

  predicate CodeOk(buttons: seq<nat>) {
    CODE_MIN <= |buttons| <= CODE_MAX && forall i :: 0 <= i < |buttons| ==> buttons[i] < INPUTS
  }

  /** `salt` is what the random source gave, or nothing if it failed. */
  function SetCode(H: Hash, l: Lock, buttons: seq<nat>, salt: seq<nat>, randomOk: bool): Lock {
    if !CodeOk(buttons) || !randomOk then l
    else
      var cfg := l.cfg.(salt := salt, hash := H(salt + [|buttons|] + buttons), codeLen := |buttons|, codeSet := true);
      ResetRuntime(l.(cfg := cfg)).(dirty := true)
  }

  function ClearCode(l: Lock): Lock {
    if l.cfg.enabled then l
    else ResetRuntime(l.(cfg := l.cfg.(salt := [], hash := [], codeLen := 0, codeSet := false))).(dirty := true)
  }

  // ---------- configuration ----------

  /** The fields MC_OP_LOCK_SET_CONFIG carries. */
  datatype Settings = Settings(enabled: bool, phone: bool, switchMethod: bool, switchInput: int, graceMs: nat, windowMs: nat)

  function Candidate(cfg: LockConfig, s: Settings): LockConfig {
    cfg.(enabled := s.enabled, phone := s.phone, switchMethod := s.switchMethod, switchInput := s.switchInput,
         graceMs := s.graceMs, windowMs := s.windowMs)
  }

  function ApplySettings(p: Pair, s: Settings): (p': Pair)
    requires p.out.Valid()
    ensures p'.out.Valid() && p'.out.cfg == p.out.cfg
  {
    var candidate := Candidate(p.lock.cfg, s);
    if Faults(candidate, p.out.cfg) != {} then p
    else
      var p1 := p.(lock := p.lock.(cfg := candidate, dirty := true));
      if !s.enabled && p.lock.cfg.enabled then Release(p1, Disabled)
      else if s.enabled && !p.lock.cfg.enabled then p1.(lock := p1.lock.(state := Unlocked))
      else p1
  }

  function Transfer(p: Pair): (p': Pair)
    requires p.out.Valid()
    ensures p'.out.Valid() && p'.out.cfg == p.out.cfg
  {
    var p1 := Release(p, Disabled);
    p1.(lock := p1.lock.(cfg := DefaultConfig(), dirty := true))
  }
}
