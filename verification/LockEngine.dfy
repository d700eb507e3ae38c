/**
  The immobilizer as an object (mc_lock_t). Each operation updates its fields and the
  output engine it is handed, and is proved against the functions of module Lock.
 */
module LockObject {
  import Output
  import OutputObject
  import opened Lock
  import L = Lock

  class LockUnit {
    const H: Hash
    var cfg: LockConfig
    var state: State
    var lockedFlag: bool
    var parkedSince: nat
    const entryBuf: array<nat>
    var entryLen: nat
    var entryStart: nat
    var wrong: nat
    var backoffUntil: nat
    var lastAttempt: nat
    var backoffActive: bool
    var prevSwitch: bool
    var dirty: bool

    ghost predicate Valid()
      reads this
    {
      entryBuf.Length == CODE_MAX && entryLen <= CODE_MAX
    }

    ghost function State(): Lock
      requires Valid()
      reads this, entryBuf
    {
      Lock(cfg, state, lockedFlag, parkedSince, entryBuf[..entryLen], entryStart, wrong, backoffUntil, lastAttempt,
           backoffActive, prevSwitch, dirty)
    }

    /** The lock and the engine as the pair the specification works on. */
    ghost function With(out: OutputObject.OutputEngine): Pair
      requires Valid()
      reads this, entryBuf, out, out.channels
    {
      Pair(State(), out.State())
    }

    method ForceOffOnLock(out: OutputObject.OutputEngine)
      requires out.Valid()
      modifies out`hazards, out.channels, out.pins
      ensures out.Valid() && out.State() == ForceOff(old(out.State()), old(out.hazards), 0)
    {
      hide Output.Set;
      var hazardsRunning := out.hazards;
      ghost var target := ForceOff(out.State(), hazardsRunning, 0);
      for ch := 0 to Output.N
        invariant out.Valid() && ForceOff(out.State(), hazardsRunning, ch) == target
      {
        if !(hazardsRunning && out.cfg.roles[ch].hazardMember) && out.channels[ch].on {
          var _ := out.DoSet(ch, false, Output.Local);
        }
      }
    }

    method DoResetRuntime()
      requires Valid()
      modifies this`entryLen, this`wrong, this`backoffUntil, this`backoffActive
      ensures Valid() && State() == ResetRuntime(old(State()))
    {
      entryLen, wrong, backoffUntil, backoffActive := 0, 0, 0, false;
    }

    method DoEnterLocked(out: OutputObject.OutputEngine)
      requires Valid() && out.Valid()
      modifies this`state, this`lockedFlag, this`dirty, out`hazards, out`immobilized, out.channels, out.pins
      ensures Valid() && out.Valid() && With(out) == EnterLocked(old(With(out)))
    {
      hide ForceOff;
      state := Locked;
      if !lockedFlag { lockedFlag, dirty := true, true; }
      ForceOffOnLock(out);
      out.SetImmobilized(true);
    }

    method DoRelease(out: OutputObject.OutputEngine, to: State)
      requires Valid() && out.Valid()
      modifies this`state, this`lockedFlag, this`dirty, this`entryLen, this`wrong, this`backoffUntil, this`backoffActive,
               out`immobilized
      ensures Valid() && out.Valid() && With(out) == Release(old(With(out)), to)
    {
      var wasLocked := state == Locked;
      state := to;
      if lockedFlag { lockedFlag, dirty := false, true; }
      if wasLocked {
        out.SetImmobilized(false);
        DoResetRuntime();
      }
    }

    method DoEnterUnlocked(out: OutputObject.OutputEngine)
      requires Valid() && out.Valid()
      modifies this`state, this`lockedFlag, this`dirty, this`entryLen, this`wrong, this`backoffUntil, this`backoffActive,
               out`immobilized, out`hazards, out.channels, out.pins
      ensures Valid() && out.Valid() && With(out) == EnterUnlocked(old(With(out)))
    {
      var wasLocked := state == Locked;
      DoRelease(out, Unlocked);
      if wasLocked {
        var ign := Output.FindIgnition(out.cfg.roles);
        if ign >= 0 { var _ := out.DoSet(ign, true, Output.Local); }
      }
    }

    /** The zeroed lock mc_lock_init starts from; `DoInit` decides its state. */
    constructor (H: Hash, cfg: LockConfig)
      ensures Valid() && fresh(entryBuf) && this.H == H && State() == NewLock(cfg)
    {
      this.H, this.cfg := H, cfg;
      state, lockedFlag, parkedSince := Disabled, false, 0;
      entryBuf := new nat[CODE_MAX](_ => 0);
      entryLen, entryStart, wrong, backoffUntil, lastAttempt := 0, 0, 0, 0, 0;
      backoffActive, prevSwitch, dirty := false, false, false;
    }

    method DoInit(persistedLocked: bool, out: OutputObject.OutputEngine)
      requires Valid() && out.Valid() && State() == NewLock(cfg)
      modifies this`state, this`lockedFlag, this`dirty, out`immobilized, out`hazards, out.channels, out.pins
      ensures Valid() && out.Valid() && With(out) == Init(cfg, persistedLocked, old(out.State()))
    {
      hide ForceOff;
      if !cfg.enabled {
        out.SetImmobilized(false);
        return;
      }
      var ign := Output.FindIgnition(out.cfg.roles);
      var live := out.engineRunning || (ign >= 0 && out.channels[ign].on);
      if persistedLocked && !live {
        state, lockedFlag := Locked, true;
        out.SetImmobilized(true);
        ForceOffOnLock(out);
      } else {
        state := Unlocked;
        out.SetImmobilized(false);
        if persistedLocked { dirty := true; }
      }
    }

    // ---------- tick ----------

    method DoTimers(now: nat)
      requires Valid()
      modifies this`backoffActive, this`wrong, this`entryLen
      ensures Valid() && State() == Timers(old(State()), now)
    {
      if backoffActive && now >= backoffUntil { backoffActive := false; }
      if wrong > 0 && !backoffActive && now - lastAttempt >= QUIET_RESET_MS { wrong := 0; }
      if entryLen > 0 && now - entryStart >= cfg.windowMs { entryLen := 0; }
    }

    method DoSwitchEdge(out: OutputObject.OutputEngine, level: bool)
      requires Valid() && out.Valid()
      modifies this`prevSwitch, out`hazards, out.channels, out.pins
      ensures Valid() && out.Valid() && With(out) == SwitchEdge(old(With(out)), level)
    {
      var edge := level != prevSwitch;
      prevSwitch := level;
      if cfg.switchMethod && cfg.switchInput >= 0 && edge && state != Locked {
        var ign := Output.FindIgnition(out.cfg.roles);
        if ign >= 0 && level != out.channels[ign].on { var _ := out.DoSet(ign, level, Output.Local); }
      }
    }

    method DoAdvance(out: OutputObject.OutputEngine, now: nat, level: bool)
      requires Valid() && out.Valid()
      modifies this`state, this`parkedSince, this`lockedFlag, this`dirty, this`entryLen, this`wrong, this`backoffUntil,
               this`backoffActive, out`immobilized, out`hazards, out.channels, out.pins
      ensures Valid() && out.Valid() && With(out) == Advance(old(With(out)), now, level)
    {
      var ign := Output.FindIgnition(out.cfg.roles);
      var parkedGuard := !out.engineRunning && !(ign >= 0 && out.channels[ign].on);
      match state {
        case Disabled => state := Unlocked;
        case Unlocked => if parkedGuard { state, parkedSince := Parked, now; }
        case Parked =>
          if !parkedGuard { state := Unlocked; }
          else if now - parkedSince >= cfg.graceMs { DoEnterLocked(out); }
        case Locked =>
          if level && cfg.switchMethod { DoEnterUnlocked(out); }
      }
    }

    method DoTick(out: OutputObject.OutputEngine, now: nat, level: bool)
      requires Valid() && out.Valid()
      modifies this, out`immobilized, out`hazards, out.channels, out.pins
      ensures Valid() && out.Valid() && With(out) == L.Tick(old(With(out)), now, level)
    {
      DoTimers(now);
      if !cfg.enabled {
        if state != Disabled { DoRelease(out, Disabled); }
        return;
      }
      DoSwitchEdge(out, level);
      DoAdvance(out, now, level);
    }

    // ---------- commands ----------

    method DoRequestLock(out: OutputObject.OutputEngine) returns (r: Reply)
      requires Valid() && out.Valid()
      modifies this`state, this`lockedFlag, this`dirty, out`hazards, out`immobilized, out.channels, out.pins
      ensures Valid() && out.Valid() && r == LockReply(old(With(out))) && With(out) == RequestLock(old(With(out)))
    {
      if !cfg.enabled { return Unauthorized; }
      if state == Locked { return Done; }
      var ign := Output.FindIgnition(out.cfg.roles);
      if out.engineRunning || (ign >= 0 && out.channels[ign].on) { return Rejected; }
      DoEnterLocked(out);
      return Done;
    }

    method DoRequestUnlock(out: OutputObject.OutputEngine) returns (r: Reply)
      requires Valid() && out.Valid()
      modifies this`state, this`lockedFlag, this`dirty, this`entryLen, this`wrong, this`backoffUntil, this`backoffActive,
               out`immobilized, out`hazards, out.channels, out.pins
      ensures Valid() && out.Valid() && r == UnlockReply(old(With(out))) && With(out) == RequestUnlock(old(With(out)))
    {
      if state != Locked { return Done; }
      if !cfg.phone { return Unauthorized; }
      DoEnterUnlocked(out);
      return Done;
    }

    // ---------- the cheat-code ----------

    method DoEnter(now: nat, button: nat)
      requires Valid()
      modifies this`entryLen, this`entryStart, entryBuf
      ensures Valid() && State() == Entered(old(State()), now, button)
    {
      if entryLen == 0 || now - entryStart >= cfg.windowMs { entryLen, entryStart := 0, now; }
      if entryLen < CODE_MAX {
        entryBuf[entryLen] := button;
        entryLen := entryLen + 1;
      }
    }

    method DoTestCode(buttons: seq<nat>) returns (match_: bool)
      ensures match_ == TestCode(H, cfg, buttons)
    {
      if !cfg.codeSet || |buttons| == 0 || |buttons| != cfg.codeLen { return false; }
      var msg := cfg.salt + [|buttons|] + buttons;
      return H(msg) == cfg.hash;
    }

    method DoWronged(now: nat)
      requires Valid()
      modifies this`wrong, this`backoffUntil, this`backoffActive
      ensures Valid() && State() == Wronged(old(State()), now)
    {
      wrong := (wrong + 1) % COUNTER_WRAP;
      var duration := BackoffMs(wrong);
      if duration > 0 { backoffUntil, backoffActive := now + duration, true; }
    }

    method DoMatch(out: OutputObject.OutputEngine)
      requires Valid() && out.Valid()
      modifies this`state, this`lockedFlag, this`dirty, this`entryLen, this`wrong, this`backoffUntil, this`backoffActive,
               out`immobilized, out`hazards, out.channels, out.pins
      ensures Valid() && out.Valid()
      ensures With(out) == EnterUnlocked(Pair(old(State()).(wrong := 0, backoffUntil := 0, backoffActive := false), old(out.State())))
    {
      hide EnterUnlocked;
      wrong, backoffUntil, backoffActive := 0, 0, false;
      DoEnterUnlocked(out);
    }

    method DoCodePress(out: OutputObject.OutputEngine, now: nat, button: nat) returns (outcome: Outcome)
      requires Valid() && out.Valid()
      modifies this, entryBuf, out`immobilized, out`hazards, out.channels, out.pins
      ensures Valid() && out.Valid()
      ensures outcome == CodeOutcome(H, old(State()), now, button)
      ensures With(out) == CodePress(H, old(With(out)), now, button)
    {
      if state != Locked { return Pending; }
      if !cfg.codeSet { return NotSet; }
      if backoffActive { return InBackoff; }
      if button >= INPUTS { return Pending; }
      DoEnter(now, button);
      if entryLen < cfg.codeLen { return Pending; }
      var ok := DoTestCode(entryBuf[..entryLen]);
      ghost var entered := State();
      entryLen, lastAttempt := 0, now;
      assert State() == entered.(entry := [], lastAttempt := now);
      if ok {
        DoMatch(out);
        return Match;
      }
      DoWronged(now);
      return Mismatch;
    }

    method DoSetCode(buttons: seq<nat>, salt: seq<nat>, randomOk: bool) returns (ok: bool)
      requires Valid()
      modifies this`cfg, this`entryLen, this`wrong, this`backoffUntil, this`backoffActive, this`dirty
      ensures Valid() && ok == (CodeOk(buttons) && randomOk) && State() == SetCode(H, old(State()), buttons, salt, randomOk)
    {
      if |buttons| < CODE_MIN || |buttons| > CODE_MAX { return false; }
      for i := 0 to |buttons|
        invariant forall j :: 0 <= j < i ==> buttons[j] < INPUTS
      {
        if buttons[i] >= INPUTS { return false; }
      }
      if !randomOk { return false; }
      cfg := cfg.(salt := salt, hash := H(salt + [|buttons|] + buttons), codeLen := |buttons|, codeSet := true);
      DoResetRuntime();
      dirty := true;
      return true;
    }

    method DoClearCode() returns (ok: bool)
      requires Valid()
      modifies this`cfg, this`entryLen, this`wrong, this`backoffUntil, this`backoffActive, this`dirty
      ensures Valid() && ok == !old(cfg.enabled) && State() == ClearCode(old(State()))
    {
      if cfg.enabled { return false; }
      cfg := cfg.(salt := [], hash := [], codeLen := 0, codeSet := false);
      DoResetRuntime();
      dirty := true;
      return true;
    }

    // ---------- configuration ----------

    method DoApplySettings(out: OutputObject.OutputEngine, s: Settings) returns (faults: set<Fault>)
      requires Valid() && out.Valid()
      modifies this`cfg, this`state, this`lockedFlag, this`dirty, this`entryLen, this`wrong, this`backoffUntil,
               this`backoffActive, out`immobilized
      ensures Valid() && out.Valid() && faults == Faults(Candidate(old(cfg), s), old(out.cfg))
      ensures With(out) == ApplySettings(old(With(out)), s)
    {
      var candidate := Candidate(cfg, s);
      faults := Faults(candidate, out.cfg);
      if faults != {} { return; }
      var wasEnabled := cfg.enabled;
      cfg, dirty := candidate, true;
      if !s.enabled && wasEnabled {
        DoRelease(out, Disabled);
      } else if s.enabled && !wasEnabled {
        state := Unlocked;
      }
    }

    method DoTransfer(out: OutputObject.OutputEngine)
      requires Valid() && out.Valid()
      modifies this`cfg, this`state, this`lockedFlag, this`dirty, this`entryLen, this`wrong, this`backoffUntil,
               this`backoffActive, out`immobilized
      ensures Valid() && out.Valid() && With(out) == Transfer(old(With(out)))
    {
      DoRelease(out, Disabled);
      cfg := DefaultConfig();
      dirty := true;
    }
  }
}
