/**
  The output engine as an object (mc_output_engine_t): every operation updates its
  fields and drives the pins in place, and is proved against the functions of
  module Output. `Valid` carries the claim that a channel not commanded on has
  a low pin; it holds between any two operations, config imports included.
 */
module OutputObject {
  import opened Output

  // The C arithmetic of the two patterns against their step-by-step definitions,
  // by quotient and remainder.

  lemma {:induction false} BlinkAt(half: nat, q: nat, r: nat)
    requires r < half
    ensures q * half + r >= 0
    ensures BlinkLit(half, q * half + r) <==> q % 2 == 0
  {
    if q > 0 {
      assert q * half + r - half == (q - 1) * half + r;
      BlinkAt(half, q - 1, r);
    }
  }

  lemma BlinkLitIsPhase(half: nat, now: nat)
    requires half > 0
    ensures BlinkLit(half, now) <==> (now / half) % 2 == 0
  {
    BlinkAt(half, now / half, now % half);
    assert now / half * half + now % half == now;
  }

  lemma {:induction false} BurstAt(count: nat, onMs: nat, offMs: nat, q: nat, r: nat)
    requires r < onMs + offMs
    ensures q * (onMs + offMs) + r >= 0
    ensures BurstLit(count, onMs, offMs, q * (onMs + offMs) + r) <==> q >= count || r < onMs
    decreases count
  {
    var cycle := onMs + offMs;
    if count > 0 && q > 0 {
      assert q * cycle + r - cycle == (q - 1) * cycle + r;
      assert (q - 1) * cycle >= 0;
      BurstAt(count - 1, onMs, offMs, q - 1, r);
    }
  }

  lemma BurstLitIsPhase(count: nat, onMs: nat, offMs: nat, elapsed: nat)
    requires onMs + offMs > 0
    ensures BurstLit(count, onMs, offMs, elapsed) <==>
            elapsed >= (onMs + offMs) * count || elapsed % (onMs + offMs) < onMs
  {
    var cycle := onMs + offMs;
    var q, r := elapsed / cycle, elapsed % cycle;
    assert q * cycle + r == elapsed;
    BurstAt(count, onMs, offMs, q, r);
    QuotientBound(elapsed, cycle, q, r, count);
  }

  lemma QuotientBound(x: nat, d: nat, q: nat, r: nat, k: nat)
    requires x == q * d + r && r < d
    ensures x >= d * k <==> q >= k
  {
    if q >= k {
      assert q * d >= k * d;
    } else {
      assert (q + 1) * d <= k * d;
    }
  }

  class OutputEngine {
    var cfg: Config
    const canDim: bool
    var engineRunning: bool
    var interlock: bool
    var immobilized: bool
    var lvCutoff: bool
    var lastTick: nat
    var hazards: bool
    const channels: array<Channel>
    const pins: array<Pin>

    ghost predicate Sized()
      reads this
    {
      |cfg.roles| == N && channels.Length == N && pins.Length == N
    }

    ghost predicate Valid()
      reads this, channels, pins
    {
      Sized() && forall i :: 0 <= i < N && !channels[i].on ==> pins[i] == Low
    }

    ghost function State(): (e: Engine)
      reads this, channels
    {
      Engine(cfg, canDim, engineRunning, interlock, immobilized, lvCutoff, lastTick, hazards, channels[..])
    }

    /** Every pin is what the pure driven-state function says at `now`. */
    ghost predicate PinsAgree(now: nat)
      requires Sized()
      reads this, channels, pins
    {
      forall i :: 0 <= i < N ==> pins[i] == Level(Rig(cfg, canDim, lvCutoff, hazards), cfg.roles[i], channels[i].on, channels[i].burst, now)
    }

    /** Channels lit since `before` have been driven as `g` says at `now`. */
    ghost predicate LitDriven(before: seq<Channel>, g: Rig, now: nat)
      requires Sized() && |before| == N
      reads this, channels, pins
    {
      forall i :: 0 <= i < N && channels[i].on && !before[i].on ==> pins[i] == Level(g, cfg.roles[i], channels[i].on, channels[i].burst, now)
    }

    constructor (cfg: Config, canDim: bool, image: seq<bool>)
      requires |cfg.roles| == N && |image| == N
      ensures Valid() && fresh(channels) && fresh(pins)
      ensures State() == Boot(cfg, canDim, image)
    {
      this.cfg, this.canDim := cfg, canDim;
      engineRunning, interlock, immobilized, lvCutoff, lastTick, hazards := false, false, false, false, 0, false;
      channels := new Channel[N](i requires 0 <= i < N => Channel(image[i], 0, 0, false));
      pins := new Pin[N](_ => Low);
    }

    // ---------- driving the hardware ----------

    method BlinkPhase(now: nat) returns (lit: bool)
      ensures lit == BlinkLit(cfg.flashPeriodMs / 2, now)
    {
      var half := cfg.flashPeriodMs / 2;
      if half == 0 { return true; }
      BlinkLitIsPhase(half, now);
      return (now / half) % 2 == 0;
    }

    method BurstPhase(elapsed: nat) returns (lit: bool)
      ensures lit == BurstLit(cfg.pulseCount, cfg.pulseOnMs, cfg.pulseOffMs, elapsed)
    {
      var cycle := cfg.pulseOnMs + cfg.pulseOffMs;
      if cfg.pulseCount == 0 { return true; }
      if cycle == 0 {
        NoPulseIsSolid(cfg.pulseCount, elapsed);
        return true;
      }
      BurstLitIsPhase(cfg.pulseCount, cfg.pulseOnMs, cfg.pulseOffMs, elapsed);
      return elapsed >= cycle * cfg.pulseCount || elapsed % cycle < cfg.pulseOnMs;
    }

    static lemma {:induction false} NoPulseIsSolid(count: nat, elapsed: nat)
      ensures BurstLit(count, 0, 0, elapsed)
    {
      if count > 0 { NoPulseIsSolid(count - 1, elapsed); }
    }

    method ComputeDrivenOn(i: nat, now: nat) returns (on: bool)
      requires Sized() && i < N
      ensures on == DrivenOn(cfg, hazards, cfg.roles[i], channels[i].on, channels[i].burst, now)
    {
      var r := cfg.roles[i];
      if !channels[i].on { return false; }
      if hazards && r.hazardMember {
        on := BlinkPhase(now);
        return;
      }
      match r.behaviour {
        case Toggle => on := true;
        case Momentary => on := true;
        case Blink => on := BlinkPhase(now);
        case Flasher => on := BurstPhase(Elapsed(now, channels[i].burst));
      }
    }

    method ActualState(i: nat, now: nat) returns (on: bool)
      requires Sized()
      ensures on == (i < N && ActuallyOn(Rig(cfg, canDim, lvCutoff, hazards), cfg.roles[i], channels[i].on, channels[i].burst, now))
    {
      if i >= N { return false; }
      if lvCutoff && !IsEssential(cfg.roles[i]) { return false; }
      on := ComputeDrivenOn(i, now);
    }

    /** The single place that drives the hardware. */
    method ApplyHal(i: nat, now: nat)
      requires Sized() && i < N
      modifies pins
      ensures pins[i] == Level(Rig(cfg, canDim, lvCutoff, hazards), cfg.roles[i], channels[i].on, channels[i].burst, now)
      ensures forall j :: 0 <= j < N && j != i ==> pins[j] == old(pins[j])
    {
      var on := ActualState(i, now);
      var r := cfg.roles[i];
      var dimmed := r.dutyPct < 100 && (r.behaviour.Toggle? || r.behaviour.Momentary?);
      if on && dimmed && canDim {
        pins[i] := Dimmed(r.dutyPct);
      } else {
        pins[i] := if on then High else Low;
      }
    }

    method ApplyAll(now: nat)
      requires Sized()
      modifies pins
      ensures PinsAgree(now)
    {
      for k := 0 to N
        invariant forall i :: 0 <= i < k ==> pins[i] == Level(Rig(cfg, canDim, lvCutoff, hazards), cfg.roles[i], channels[i].on, channels[i].burst, now)
      {
        ApplyHal(k, now);
      }
    }

    method RestoreFromConfig()
      requires Valid()
      modifies pins
      ensures Valid() && PinsAgree(lastTick)
    {
      ApplyAll(lastTick);
    }

    // ---------- one channel ----------

    method SetRaw(i: nat, on: bool, now: nat)
      requires Valid() && i < N
      modifies channels, pins
      ensures Valid()
      ensures channels[i] == RawChannel(cfg.roles[i], old(channels[i]), on, now)
      ensures forall j :: 0 <= j < N && j != i ==> channels[j] == old(channels[j])
      ensures pins[i] == Level(Rig(cfg, canDim, lvCutoff, hazards), cfg.roles[i], channels[i].on, channels[i].burst, now)
      ensures forall j :: 0 <= j < N && j != i ==> pins[j] == old(pins[j])
    {
      var c := channels[i];
      channels[i] := c.(on := on, burst := if !c.on && on && cfg.roles[i].behaviour.Flasher? then now else c.burst);
      ApplyHal(i, now);
    }

    method SetDeadline(i: nat, deadline: nat)
      requires Valid() && i < N
      modifies channels
      ensures Valid()
      ensures channels[i] == old(channels[i]).(deadline := deadline)
      ensures forall j :: 0 <= j < N && j != i ==> channels[j] == old(channels[j])
    {
      channels[i] := channels[i].(deadline := deadline);
    }

    // ---------- groups of channels ----------

    method DoEndHazards(except: int, now: nat)
      requires Valid()
      modifies this`hazards, channels, pins
      ensures Valid() && State() == EndHazards(old(State()), except, now)
      ensures LitDriven(old(channels[..]), Rig(cfg, canDim, lvCutoff, false), now)
    {
      if !hazards { return; }
      hazards := false;
      ghost var was := channels[..];
      for k := 0 to N
        invariant Valid() && !hazards
        invariant forall i :: 0 <= i < k ==>
                    channels[i] == EndHazardsChannel(cfg.autoCancelMs, cfg.roles[i], was[i], i == except, now)
        invariant forall i :: k <= i < N ==> channels[i] == was[i]
        invariant LitDriven(was, Rig(cfg, canDim, lvCutoff, false), now)
      {
        var r := cfg.roles[k];
        if r.hazardMember && k != except {
          var prior := channels[k].saved;
          if channels[k].on != prior { SetRaw(k, prior, now); }
          SetDeadline(k, if prior && r.indicator != NoSide && cfg.autoCancelMs > 0 then now + cfg.autoCancelMs else 0);
        }
      }
      assert State().ch == EndHazards(old(State()), except, now).ch;
    }

    method DoHazardPress(now: nat)
      requires Valid()
      modifies this`hazards, channels, pins
      ensures Valid() && State() == HazardPress(old(State()), now)
      ensures LitDriven(old(channels[..]), Rig(cfg, canDim, lvCutoff, false), now)
    {
      var members := 0;
      for k := 0 to N
        invariant members >= 0
        invariant members > 0 <==> exists i :: 0 <= i < k && cfg.roles[i].hazardMember
      {
        if cfg.roles[k].hazardMember { members := members + 1; }
      }
      if members == 0 { return; }
      if hazards {
        DoEndHazards(-1, now);
        return;
      }
      ghost var was := channels[..];
      for k := 0 to N
        invariant Valid() && !hazards
        invariant forall i :: 0 <= i < k ==> channels[i] == StartHazardsChannel(cfg.roles[i], was[i], now)
        invariant forall i :: k <= i < N ==> channels[i] == was[i]
        invariant LitDriven(was, Rig(cfg, canDim, lvCutoff, false), now)
      {
        if !cfg.roles[k].hazardMember {
          channels[k] := channels[k].(saved := false);
        } else {
          var prior := channels[k].on;
          SetRaw(k, true, now);
          channels[k] := channels[k].(saved := prior, deadline := 0);
        }
      }
      hazards := true;
      assert State().ch == HazardPress(old(State()), now).ch;
    }

    method DoIgnitionOn(now: nat)
      requires Valid()
      modifies channels, pins
      ensures Valid() && State() == IgnitionOn(old(State()), now)
      ensures LitDriven(old(channels[..]), Rig(cfg, canDim, lvCutoff, hazards), now)
      ensures forall i :: 0 <= i < N && old(channels[i].on) ==> pins[i] == old(pins[i])
    {
      ghost var was := channels[..];
      for k := 0 to N
        invariant Valid()
        invariant forall i :: 0 <= i < k ==> channels[i] == IgnitionOnChannel(cfg.roles[i], was[i], now)
        invariant forall i :: k <= i < N ==> channels[i] == was[i]
        invariant LitDriven(was, Rig(cfg, canDim, lvCutoff, hazards), now)
        invariant forall i :: 0 <= i < N && was[i].on ==> pins[i] == old(pins[i])
      {
        var r := cfg.roles[k];
        if r.onWithIgnition && !r.isIgnition && !channels[k].on {
          SetRaw(k, true, now);
          SetDeadline(k, 0);
        }
      }
      assert State().ch == IgnitionOn(old(State()), now).ch;
    }

    method DoIgnitionOff(now: nat)
      requires Valid()
      modifies this`hazards, channels, pins
      ensures Valid() && State() == IgnitionOff(old(State()), now)
      ensures forall i :: 0 <= i < N && channels[i].on ==> pins[i] == old(pins[i])
    {
      hazards := false;
      ghost var was := channels[..];
      for k := 0 to N
        invariant Valid() && !hazards
        invariant forall i :: 0 <= i < k ==> channels[i] == IgnitionOffChannel(cfg.roles[i], was[i], now)
        invariant forall i :: k <= i < N ==> channels[i] == was[i]
        invariant forall i :: 0 <= i < N && channels[i].on ==> pins[i] == old(pins[i])
      {
        if !cfg.roles[k].isIgnition {
          if channels[k].on { SetRaw(k, false, now); }
          SetDeadline(k, 0);
        }
      }
      assert State().ch == IgnitionOff(old(State()), now).ch;
    }

    // ---------- commands ----------

    method DoDropOpposite(c: nat, on: bool)
      requires Valid() && c < N
      modifies channels, pins
      ensures Valid() && State() == DropOpposite(old(State()), c, on)
      ensures forall i :: 0 <= i < N && channels[i].on ==> channels[i] == old(channels[i]) && pins[i] == old(pins[i])
    {
      var r := cfg.roles[c];
      if !on || r.indicator == NoSide { return; }
      var o := FindIndicator(cfg.roles, Opposite(r.indicator));
      if o >= 0 && o != c && channels[o].on {
        SetRaw(o, false, lastTick);
        SetDeadline(o, 0);
      }
      assert State().ch == DropOpposite(old(State()), c, on).ch;
    }

    method DoDropPartner(c: nat, on: bool)
      requires Valid() && c < N
      modifies channels, pins
      ensures Valid() && State() == DropPartner(old(State()), c, on)
      ensures forall i :: 0 <= i < N && channels[i].on ==> channels[i] == old(channels[i]) && pins[i] == old(pins[i])
    {
      var p := cfg.roles[c].alternate;
      if on && 0 <= p < N && p != c && channels[p].on { SetRaw(p, false, lastTick); }
      assert State().ch == DropPartner(old(State()), c, on).ch;
    }

    method DoSettle(c: nat, on: bool)
      requires Valid() && c < N
      modifies channels, pins
      ensures Valid() && State() == Settle(old(State()), c, on)
      ensures pins[c] == Level(Rig(cfg, canDim, lvCutoff, hazards), cfg.roles[c], channels[c].on, channels[c].burst, lastTick)
      ensures forall i :: 0 <= i < N && i != c ==> pins[i] == old(pins[i])
    {
      SetRaw(c, on, lastTick);
      if cfg.roles[c].indicator != NoSide {
        SetDeadline(c, if on && cfg.autoCancelMs > 0 then lastTick + cfg.autoCancelMs else 0);
      }
      assert State().ch == Settle(old(State()), c, on).ch;
    }

    /** Ending the hazards, turn exclusion and pair exclusion. */
    method DoPrepare(c: nat, on: bool)
      requires Valid() && c < N
      modifies this`hazards, channels, pins
      ensures Valid() && State() == Prepare(old(State()), c, on)
      ensures LitDriven(old(channels[..]), Rig(cfg, canDim, lvCutoff, false), lastTick)
      ensures hazards ==> forall i :: 0 <= i < N && channels[i].on ==> old(channels[i].on)
    {
      if cfg.roles[c].hazardMember { DoEndHazards(c, lastTick); }
      DoDropOpposite(c, on);
      DoDropPartner(c, on);
    }

    method DoSet(c: nat, on: bool, src: Source) returns (res: Result)
      requires Valid()
      modifies this`hazards, channels, pins
      ensures Valid() && res == Refusal(old(State()), c, on, src) && State() == Set(old(State()), c, on, src)
      ensures LitDriven(old(channels[..]), Rig(cfg, canDim, lvCutoff, hazards), lastTick)
    {
      if c >= N { return BadChannel; }
      if on && immobilized { return Immobilized; }
      if on && cfg.roles[c].isStarter {
        var why := StarterCheck(src, engineRunning, cfg.interlockInput, interlock);
        if why != Ok { return why; }
      }
      DoCommand(c, on);
      return Ok;
    }

    method DoCommand(c: nat, on: bool)
      requires Valid() && c < N
      modifies this`hazards, channels, pins
      ensures Valid() && State() == Command(old(State()), c, on)
      ensures LitDriven(old(channels[..]), Rig(cfg, canDim, lvCutoff, hazards), lastTick)
    {
      hide Prepare;
      DoPrepare(c, on);
      var wasOn := channels[c].on;
      DoSettle(c, on);
      if cfg.roles[c].isIgnition && wasOn != on {
        if on { DoIgnitionOn(lastTick); } else { DoIgnitionOff(lastTick); }
      }
    }

    method DoAlternatePress(c: nat, src: Source) returns (res: Result)
      requires Valid()
      modifies this`hazards, channels, pins
      ensures Valid() && res == AlternateRefusal(old(State()), c, src) && State() == AlternatePress(old(State()), c, src)
    {
      if c >= N { return BadChannel; }
      var p := cfg.roles[c].alternate;
      if p < 0 || p >= N || p == c { return BadChannel; }
      res := DoSet(if channels[c].on then p else c, true, src);
    }

    // ---------- time and signals from the rest of the system ----------

    method DoTick(now: nat)
      requires Valid()
      modifies this`lastTick, channels, pins
      ensures Valid() && State() == Tick(old(State()), now) && PinsAgree(now)
    {
      lastTick := now;
      ghost var was := channels[..];
      for k := 0 to N
        invariant Valid() && lastTick == now
        invariant forall i :: 0 <= i < k ==> channels[i] == TickChannel(cfg.roles[i], was[i], now)
        invariant forall i :: k <= i < N ==> channels[i] == was[i]
      {
        var deadline := channels[k].deadline;
        if deadline != 0 && now >= deadline {
          SetDeadline(k, 0);
          SetRaw(k, false, now);
        }
      }
      ApplyAll(now);
      assert State().ch == Tick(old(State()), now).ch;
    }

    method DoSetEngineRunning(running: bool)
      requires Valid()
      modifies this`engineRunning, channels, pins
      ensures Valid() && State() == SetEngineRunning(old(State()), running)
    {
      var wasRunning := engineRunning;
      engineRunning := running;
      if running && !wasRunning {
        ghost var was := channels[..];
        for k := 0 to N
          invariant Valid() && engineRunning == running
          invariant forall i :: 0 <= i < k ==>
                      channels[i] == if cfg.roles[i].isStarter && was[i].on then RawChannel(cfg.roles[i], was[i], false, lastTick) else was[i]
          invariant forall i :: k <= i < N ==> channels[i] == was[i]
        {
          if cfg.roles[k].isStarter && channels[k].on { SetRaw(k, false, lastTick); }
        }
      }
      assert State().ch == SetEngineRunning(old(State()), running).ch;
    }

    method SetInterlock(engaged: bool)
      requires Valid()
      modifies this`interlock
      ensures Valid() && State() == old(State()).(interlock := engaged)
    {
      interlock := engaged;
    }

    method SetImmobilized(immobilized: bool)
      requires Valid()
      modifies this`immobilized
      ensures Valid() && State() == old(State()).(immobilized := immobilized)
    {
      this.immobilized := immobilized;
    }

    method SetCutoff(cutoff: bool)
      requires Valid()
      modifies this`lvCutoff, pins
      ensures Valid() && State() == old(State()).(lvCutoff := cutoff)
      ensures cutoff != old(lvCutoff) ==> PinsAgree(lastTick)
      ensures cutoff == old(lvCutoff) ==> pins[..] == old(pins[..])
    {
      if lvCutoff == cutoff { return; }
      lvCutoff := cutoff;
      ApplyAll(lastTick);
    }

    /** A committed config import: no channel is switched, no pin moves. */
    method DoImport(cfg: Config)
      requires Valid() && |cfg.roles| == N
      modifies this`cfg
      ensures Valid() && State() == ImportConfig(old(State()), cfg)
    {
      this.cfg := cfg;
    }
  }
}
