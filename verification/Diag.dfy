/**
  Diagnostics (firmware/components/core/mc_diag.c): round-robin current sampling and
  the two hysteresis signals derived from the battery. Readings arrive calibrated.
 */
module Diag {
  import opened Output
  import OutputObject

  datatype Fault = NoFault | OpenLoad | Overcurrent
  datatype Threshold = Threshold(openLoadMa: nat, overcurrentMa: nat)

  datatype DiagConfig = DiagConfig(
    thresholds: seq<Threshold>,
    cutoffMv: nat,
    cutoffHysteresisMv: nat,
    runMv: nat,
    runHysteresisMv: nat,
    detectByVoltage: bool)

  function Classify(t: Threshold, ma: nat): Fault {
    if ma < t.openLoadMa then OpenLoad else if ma > t.overcurrentMa then Overcurrent else NoFault
  }

  // ---------- round-robin sampling ----------

  type Energised = s: seq<bool> | |s| == N witness seq(N, _ => false)

  function Next(cursor: nat): (c: nat)
    ensures c < N
  {
    (cursor + 1) % N
  }

  /** How many channels a tick scans from `cursor`: up to the first energised one. */
  function Visits(cursor: nat, live: Energised, budget: nat := N): (v: nat)
    requires cursor < N
    ensures v <= budget && (budget > 0 ==> v >= 1)
    decreases budget
  {
    if budget == 0 then 0
    else if live[cursor] then 1
    else 1 + Visits(Next(cursor), live, budget - 1)
  }

  /** Steps the cursor has to take to reach a channel. */
  function Distance(cursor: nat, ch: nat): (d: nat)
    requires cursor < N && ch < N
    ensures d < N
  {
    if ch >= cursor then ch - cursor else ch + N - cursor
  }

  predicate Scanned(cursor: nat, live: Energised, ch: nat)
    requires cursor < N && ch < N
  {
    Distance(cursor, ch) < Visits(cursor, live)
  }

  function Advance(cursor: nat, steps: nat): (c: nat)
    requires cursor < N
    ensures c < N
    decreases steps
  {
    if steps == 0 then cursor else Advance(Next(cursor), steps - 1)
  }

  /** A scanned energised channel is the one sampled: the scan stops there. */
  lemma {:induction false} ScanStopsAtLive(cursor: nat, live: Energised, budget: nat, ch: nat)
    requires cursor < N && ch < N && live[ch] && Distance(cursor, ch) < Visits(cursor, live, budget)
    ensures Distance(cursor, ch) == Visits(cursor, live, budget) - 1
    decreases budget
  {
    if budget > 0 && !live[cursor] {
      assert Distance(Next(cursor), ch) == Distance(cursor, ch) - 1;
      ScanStopsAtLive(Next(cursor), live, budget - 1, ch);
    }
  }

  /** One step brings the cursor closer to every channel but the one it leaves. */
  lemma NextIsCloser(cursor: nat, ch: nat)
    requires cursor < N && ch < N
    ensures Distance(Next(cursor), ch) == if cursor == ch then N - 1 else Distance(cursor, ch) - 1
  {
  }

  lemma AtNoDistance(cursor: nat, ch: nat)
    requires cursor < N && ch < N
    ensures Distance(cursor, ch) == 0 <==> cursor == ch
  {
  }

  lemma {:induction false} AdvanceDistance(cursor: nat, steps: nat, ch: nat)
    requires cursor < N && ch < N && steps <= Distance(cursor, ch)
    ensures Distance(Advance(cursor, steps), ch) == Distance(cursor, ch) - steps
    decreases steps
  {
    hide Distance, Next;
    AtNoDistance(cursor, ch);
    if steps > 0 {
      NextIsCloser(cursor, ch);
      AdvanceDistance(Next(cursor), steps - 1, ch);
    }
  }

  lemma {:induction false} AdvanceOne(cursor: nat, steps: nat)
    requires cursor < N
    ensures Advance(cursor, steps + 1) == Next(Advance(cursor, steps))
    decreases steps
  {
    if steps > 0 { AdvanceOne(Next(cursor), steps - 1); }
  }

  /** The channel `steps` along is the one at that distance. */
  lemma {:induction false} AdvanceLands(cursor: nat, steps: nat, ch: nat)
    requires cursor < N && ch < N && steps < N
    ensures Distance(cursor, ch) == steps <==> ch == Advance(cursor, steps)
    decreases steps
  {
    hide Distance, Next;
    AtNoDistance(cursor, ch);
    if steps > 0 {
      NextIsCloser(cursor, ch);
      AdvanceLands(Next(cursor), steps - 1, ch);
    }
  }

  lemma {:induction false} VisitsCount(cursor: nat, live: Energised, budget: nat, i: nat)
    requires cursor < N && i <= budget
    requires forall k :: 0 <= k < i ==> !live[Advance(cursor, k)]
    requires i < budget ==> live[Advance(cursor, i)]
    ensures Visits(cursor, live, budget) == if i < budget then i + 1 else i
    decreases budget
  {
    if i > 0 {
      assert Advance(cursor, 0) == cursor;
      forall k | 0 <= k < i - 1 ensures !live[Advance(Next(cursor), k)] {
        assert Advance(cursor, k + 1) == Advance(Next(cursor), k);
      }
      VisitsCount(Next(cursor), live, budget - 1, i - 1);
    }
  }

  /** Is `ch` scanned in one of the ticks that see `lives` from `cursor` on? */
  ghost predicate ScannedDuring(cursor: nat, lives: seq<Energised>, ch: nat)
    requires cursor < N && ch < N
    decreases |lives|
  {
    lives != [] && (Scanned(cursor, lives[0], ch) || ScannedDuring(Advance(cursor, Visits(cursor, lives[0])), lives[1..], ch))
  }

  lemma {:induction false} ScannedInTime(cursor: nat, lives: seq<Energised>, ch: nat)
    requires cursor < N && ch < N && |lives| > Distance(cursor, ch)
    ensures ScannedDuring(cursor, lives, ch)
    decreases |lives|
  {
    if !Scanned(cursor, lives[0], ch) {
      AdvanceDistance(cursor, Visits(cursor, lives[0]), ch);
      ScannedInTime(Advance(cursor, Visits(cursor, lives[0])), lives[1..], ch);
    }
  }

  /** Is `ch` the channel whose current one of these ticks samples? */
  ghost predicate SampledDuring(cursor: nat, lives: seq<Energised>, ch: nat)
    requires cursor < N && ch < N
    decreases |lives|
  {
    lives != [] && ((lives[0][ch] && Distance(cursor, ch) == Visits(cursor, lives[0]) - 1)
                    || SampledDuring(Advance(cursor, Visits(cursor, lives[0])), lives[1..], ch))
  }

  lemma {:induction false} SampledInTime(cursor: nat, lives: seq<Energised>, ch: nat)
    requires cursor < N && ch < N && ScannedDuring(cursor, lives, ch)
    requires forall k :: 0 <= k < |lives| ==> lives[k][ch]
    ensures SampledDuring(cursor, lives, ch)
    decreases |lives|
  {
    if Scanned(cursor, lives[0], ch) {
      ScanStopsAtLive(cursor, lives[0], N, ch);
    } else {
      SampledInTime(Advance(cursor, Visits(cursor, lives[0])), lives[1..], ch);
    }
  }

  /** Every channel is scanned within any 12 consecutive ticks, whatever the other
      channels do, so one that is energised at all of them is sampled. */
  lemma Fairness(cursor: nat, lives: seq<Energised>, ch: nat)
    requires cursor < N && ch < N && |lives| == N
    ensures ScannedDuring(cursor, lives, ch)
    ensures (forall k :: 0 <= k < N ==> lives[k][ch]) ==> SampledDuring(cursor, lives, ch)
  {
    ScannedInTime(cursor, lives, ch);
    if forall k :: 0 <= k < N ==> lives[k][ch] { SampledInTime(cursor, lives, ch); }
  }

  // ---------- battery signals ----------

  function EngineAfter(cfg: DiagConfig, running: bool, battery: nat, ignitionOff: bool): bool {
    && cfg.detectByVoltage && !ignitionOff
    && (if running then battery as int >= cfg.runMv - cfg.runHysteresisMv else battery >= cfg.runMv)
  }

  function CutoffAfter(cfg: DiagConfig, cutoff: bool, running: bool, battery: nat): bool {
    && !running
    && (if cutoff then battery < cfg.cutoffMv + cfg.cutoffHysteresisMv else 0 < battery < cfg.cutoffMv)
  }

  function Abs(x: int): nat {
    if x < 0 then -x else x
  }

  /** How far the readings move in all, starting from `from`. */
  function Variation(from: nat, readings: seq<nat>): nat
    decreases |readings|
  {
    if readings == [] then 0 else Abs(readings[0] - from) + Variation(readings[0], readings[1..])
  }

  /** How often the cutoff changes over these readings with the engine off. */
  function Toggles(cfg: DiagConfig, cutoff: bool, readings: seq<nat>): nat
    decreases |readings|
  {
    if readings == [] then 0
    else
      var next := CutoffAfter(cfg, cutoff, false, readings[0]);
      (if next != cutoff then 1 else 0) + Toggles(cfg, next, readings[1..])
  }

  function Credit(cfg: DiagConfig, cutoff: bool, battery: nat): int {
    if cutoff then battery - cfg.cutoffMv else cfg.cutoffMv + cfg.cutoffHysteresisMv - battery
  }

  lemma {:induction false} TogglesCost(cfg: DiagConfig, cutoff: bool, from: nat, readings: seq<nat>)
    requires Toggles(cfg, cutoff, readings) >= 1
    ensures Toggles(cfg, cutoff, readings) * cfg.cutoffHysteresisMv <= Variation(from, readings) + Credit(cfg, cutoff, from)
    decreases |readings|
  {
    var r := readings[0];
    var next := CutoffAfter(cfg, cutoff, false, r);
    CreditMoves(cfg, cutoff, from, r);
    hide CutoffAfter, Credit;
    var rest := Toggles(cfg, next, readings[1..]);
    if rest >= 1 { TogglesCost(cfg, next, r, readings[1..]); }
    OneMore(rest, cfg.cutoffHysteresisMv);
  }

  lemma OneMore(k: nat, h: nat)
    ensures (1 + k) * h == h + k * h && 0 * h == 0
  {
  }

  /** A reading costs at least what it takes from the credit, and a change one width more. */
  lemma CreditMoves(cfg: DiagConfig, cutoff: bool, from: nat, r: nat)
    ensures var next := CutoffAfter(cfg, cutoff, false, r);
            && (next == cutoff ==> Credit(cfg, next, r) <= Abs(r - from) + Credit(cfg, cutoff, from))
            && (next != cutoff ==>
                  && cfg.cutoffHysteresisMv + Credit(cfg, next, r) <= Abs(r - from) + Credit(cfg, cutoff, from)
                  && cfg.cutoffHysteresisMv <= Abs(r - from) + Credit(cfg, cutoff, from))
  {
  }

  /** No chatter: n changes of the cutoff need the battery to move (n - 1) hysteresis widths. */
  lemma {:induction false} NoChatter(cfg: DiagConfig, cutoff: bool, readings: seq<nat>)
    requires readings != [] && Toggles(cfg, cutoff, readings) >= 1
    ensures (Toggles(cfg, cutoff, readings) - 1) * cfg.cutoffHysteresisMv <= Variation(readings[0], readings[1..])
    decreases |readings|
  {
    var r := readings[0];
    var next := CutoffAfter(cfg, cutoff, false, r);
    var rest := Toggles(cfg, next, readings[1..]);
    if next != cutoff {
      if rest >= 1 { TogglesCost(cfg, next, r, readings[1..]); }
    } else {
      NoChatter(cfg, next, readings[1..]);
      assert Variation(r, readings[1..]) >= Variation(readings[1], readings[1..][1..]);
    }
  }

  // ---------- the object ----------

  /** The channels the output engine actually drives at `now`. */
  ghost function EnergisedIn(e: Engine, now: nat): Energised
    requires e.Valid()
  {
    seq(N, i requires 0 <= i < N =>
          ActuallyOn(Rig(e.cfg, e.canDim, e.lvCutoff, e.hazards), e.cfg.roles[i], e.ch[i].on, e.ch[i].burst, now))
  }

  /** The current and fault columns. */
  datatype Readings = Readings(ma: seq<nat>, fault: seq<Fault>)
  {
    ghost predicate Valid() {
      |ma| == N && |fault| == N
    }

    ghost predicate Keeps(i: int, before: Readings)
      requires Valid() && before.Valid() && 0 <= i < N
    {
      ma[i] == before.ma[i] && fault[i] == before.fault[i]
    }
  }

  /** What a round of sampling does to each channel. */
  ghost predicate Sampled(start: nat, live: Energised, thresholds: seq<Threshold>, ma: seq<nat>, before: Readings, after: Readings)
    requires start < N && |thresholds| == N && |ma| == N && before.Valid() && after.Valid()
  {
    forall i :: 0 <= i < N ==>
      if !Scanned(start, live, i) then after.Keeps(i, before)
      else if !live[i] then after.ma[i] == 0 && after.fault[i] == NoFault
      else after.ma[i] == ma[i] && after.fault[i] == Classify(thresholds[i], ma[i])
  }

  /** The first `k` channels from `start` are dark and cleared, the rest untouched. */
  ghost predicate Swept(start: nat, live: Energised, k: nat, before: Readings, after: Readings)
    requires start < N && before.Valid() && after.Valid()
  {
    && (forall j :: 0 <= j < k ==> !live[Advance(start, j)])
    && (forall i :: 0 <= i < N ==>
          if Distance(start, i) < k then !live[i] && after.ma[i] == 0 && after.fault[i] == NoFault else after.Keeps(i, before))
  }

  lemma SweptNone(start: nat, live: Energised, before: Readings)
    requires start < N && before.Valid()
    ensures Swept(start, live, 0, before, before) && Advance(start, 0) == start
  {
  }

  lemma SweptOn(start: nat, live: Energised, k: nat, before: Readings, after: Readings)
    requires start < N && k < N && before.Valid() && after.Valid() && Swept(start, live, k, before, after)
    requires !live[Advance(start, k)]
    ensures var ch := Advance(start, k);
            Swept(start, live, k + 1, before, Readings(after.ma[ch := 0], after.fault[ch := NoFault]))
  {
    forall i | 0 <= i < N ensures Distance(start, i) == k <==> i == Advance(start, k) { AdvanceLands(start, k, i); }
  }

  lemma SweptThenSampled(start: nat, live: Energised, k: nat, thresholds: seq<Threshold>, ma: seq<nat>, before: Readings, after: Readings)
    requires start < N && k < N && before.Valid() && after.Valid() && Swept(start, live, k, before, after)
    requires |thresholds| == N && |ma| == N && live[Advance(start, k)]
    ensures var ch := Advance(start, k);
            && Visits(start, live) == k + 1
            && Sampled(start, live, thresholds, ma, before,
                       Readings(after.ma[ch := ma[ch]], after.fault[ch := Classify(thresholds[ch], ma[ch])]))
  {
    VisitsCount(start, live, N, k);
    forall i | 0 <= i < N ensures Distance(start, i) == k <==> i == Advance(start, k) { AdvanceLands(start, k, i); }
  }

  lemma SweptAll(start: nat, live: Energised, thresholds: seq<Threshold>, ma: seq<nat>, before: Readings, after: Readings)
    requires start < N && before.Valid() && after.Valid() && Swept(start, live, N, before, after)
    requires |thresholds| == N && |ma| == N
    ensures Visits(start, live) == N && Sampled(start, live, thresholds, ma, before, after)
  {
    VisitsCount(start, live, N, N);
  }

  /** An ignition channel is assigned and not live. */
  ghost predicate KeyIsOff(e: Engine)
    requires e.Valid()
  {
    var ign := FindIgnition(e.cfg.roles);
    ign >= 0 && !e.ch[ign].on
  }

  class DiagUnit {
    var cfg: DiagConfig
    var cursor: nat
    const currentMa: array<nat>
    const fault: array<Fault>
    var faultMask: seq<bool>
    var batteryMv: nat
    var engineRunning: bool
    var cutoff: bool

    ghost predicate Valid()
      reads this
    {
      |cfg.thresholds| == N && cursor < N && currentMa.Length == N && fault.Length == N
    }

    constructor (cfg: DiagConfig)
      requires |cfg.thresholds| == N
      ensures Valid() && fresh(currentMa) && fresh(fault) && !engineRunning && !cutoff
    {
      this.cfg := cfg;
      cursor, faultMask, batteryMv, engineRunning, cutoff := 0, seq(N, _ => false), 0, false, false;
      currentMa := new nat[N](_ => 0);
      fault := new Fault[N](_ => NoFault);
    }

    method Record(ch: nat, on: bool, ma: nat)
      requires Valid() && ch < N
      modifies currentMa, fault
      ensures currentMa[..] == old(currentMa[..])[ch := if on then ma else 0]
      ensures fault[..] == old(fault[..])[ch := if on then Classify(cfg.thresholds[ch], ma) else NoFault]
    {
      currentMa[ch], fault[ch] := 0, NoFault;
      if on {
        currentMa[ch] := ma;
        if ma < cfg.thresholds[ch].openLoadMa {
          fault[ch] := OpenLoad;
        } else if ma > cfg.thresholds[ch].overcurrentMa {
          fault[ch] := Overcurrent;
        }
      }
    }

    method IsLive(out: OutputObject.OutputEngine, ch: nat, now: nat) returns (on: bool)
      requires out.Valid() && ch < N
      ensures on == EnergisedIn(out.State(), now)[ch]
    {
      on := out.ActualState(ch, now);
    }

    /** One round of sampling: channels scanned on the way read zero, the first
        energised one is sampled, the rest wait for their turn. */
    method Sample(out: OutputObject.OutputEngine, now: nat, ma: seq<nat>)
      requires Valid() && out.Valid() && |ma| == N
      modifies this`cursor, currentMa, fault
      ensures Valid() && cursor == Advance(old(cursor), Visits(old(cursor), EnergisedIn(out.State(), now)))
      ensures Sampled(old(cursor), EnergisedIn(out.State(), now), cfg.thresholds, ma,
                      Readings(old(currentMa[..]), old(fault[..])), Readings(currentMa[..], fault[..]))
    {
      hide Swept, Sampled, EnergisedIn, Visits, Advance, Classify;
      ghost var live := EnergisedIn(out.State(), now);
      ghost var start := cursor;
      ghost var before := Readings(currentMa[..], fault[..]);
      SweptNone(start, live, before);
      var i := 0;
      while i < N
        invariant i <= N && Valid() && cursor == Advance(start, i)
        invariant Swept(start, live, i, before, Readings(currentMa[..], fault[..]))
      {
        var ch := cursor;
        cursor := (cursor + 1) % N;
        AdvanceOne(start, i);
        var on := IsLive(out, ch, now);
        ghost var swept := Readings(currentMa[..], fault[..]);
        Record(ch, on, ma[ch]);
        if on {
          SweptThenSampled(start, live, i, cfg.thresholds, ma, before, swept);
          return;
        }
        SweptOn(start, live, i, before, swept);
        i := i + 1;
      }
      SweptAll(start, live, cfg.thresholds, ma, before, Readings(currentMa[..], fault[..]));
    }

    method BuildMask()
      requires Valid()
      modifies this`faultMask
      ensures Valid() && |faultMask| == N && forall i :: 0 <= i < N ==> faultMask[i] == (fault[i] != NoFault)
    {
      faultMask := [];
      for i := 0 to N
        invariant Valid() && |faultMask| == i && forall j :: 0 <= j < i ==> faultMask[j] == (fault[j] != NoFault)
      {
        faultMask := faultMask + [fault[i] != NoFault];
      }
    }

    method UpdateEngine(out: OutputObject.OutputEngine)
      requires Valid() && out.Valid()
      modifies this`engineRunning, out`engineRunning, out.channels, out.pins
      ensures out.Valid() && engineRunning == EngineAfter(cfg, old(engineRunning), batteryMv, KeyIsOff(old(out.State())))
      ensures out.State() == SetEngineRunning(old(out.State()), engineRunning)
    {
      var running := engineRunning;
      if cfg.detectByVoltage {
        if !running && batteryMv >= cfg.runMv {
          running := true;
        } else if running && batteryMv as int < cfg.runMv - cfg.runHysteresisMv {
          running := false;
        }
      } else {
        running := false;
      }
      var ign := FindIgnition(out.cfg.roles);
      if ign >= 0 && !out.channels[ign].on { running := false; }
      engineRunning := running;
      out.DoSetEngineRunning(running);
    }

    method UpdateCutoff(out: OutputObject.OutputEngine)
      requires Valid() && out.Valid()
      modifies this`cutoff, out`lvCutoff, out.pins
      ensures out.Valid() && cutoff == CutoffAfter(cfg, old(cutoff), engineRunning, batteryMv)
      ensures out.State() == old(out.State()).(lvCutoff := cutoff) && (cutoff != old(out.lvCutoff) ==> out.PinsAgree(out.lastTick))
    {
      if engineRunning {
        cutoff := false;
      } else if !cutoff {
        if 0 < batteryMv < cfg.cutoffMv { cutoff := true; }
      } else if batteryMv >= cfg.cutoffMv + cfg.cutoffHysteresisMv {
        cutoff := false;
      }
      out.SetCutoff(cutoff);
    }

    /** One tick: sample, rebuild the fault mask, then the two battery signals, which are
        pushed into the output engine. */
    method DoTick(out: OutputObject.OutputEngine, now: nat, ma: seq<nat>, battery: nat)
      requires Valid() && out.Valid() && |ma| == N
      modifies this`cursor, this`faultMask, this`batteryMv, this`engineRunning, this`cutoff, currentMa, fault,
               out`engineRunning, out`lvCutoff, out.channels, out.pins
      ensures Valid() && out.Valid()
      ensures var live := EnergisedIn(old(out.State()), now);
              && cursor == Advance(old(cursor), Visits(old(cursor), live))
              && Sampled(old(cursor), live, cfg.thresholds, ma, Readings(old(currentMa[..]), old(fault[..])), Readings(currentMa[..], fault[..]))
      ensures |faultMask| == N && forall i :: 0 <= i < N ==> faultMask[i] == (fault[i] != NoFault)
      ensures engineRunning == EngineAfter(cfg, old(engineRunning), battery, KeyIsOff(old(out.State())))
      ensures cutoff == CutoffAfter(cfg, old(cutoff), engineRunning, battery)
      ensures (engineRunning ==> !cutoff) && (KeyIsOff(old(out.State())) ==> !engineRunning)
      ensures out.State() == SetEngineRunning(old(out.State()), engineRunning).(lvCutoff := cutoff)
    {
      Sample(out, now, ma);
      BuildMask();
      batteryMv := battery;
      UpdateEngine(out);
      UpdateCutoff(out);
    }
  }
}
