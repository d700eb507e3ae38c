/**
  What the diagnostics decide over whole runs of readings (firmware/components/core/mc_diag.c):
  the two battery signals are hysteresis switches, and a channel that draws the wrong current
  long enough is reported.
 */
module DiagLaws {
  import opened Output
  import opened Diag

  // ---------- the cutoff ----------

  /** The cutoff after these readings with the engine off. */
  function CutoffRun(cfg: DiagConfig, cutoff: bool, readings: seq<nat>): bool
    decreases |readings|
  {
    if readings == [] then cutoff else CutoffRun(cfg, CutoffAfter(cfg, cutoff, false, readings[0]), readings[1..])
  }

  /** A reading that calls for the cutoff; zero means no reading at all. */
  predicate Flat(cfg: DiagConfig, mv: nat) {
    0 < mv && mv < cfg.cutoffMv
  }

  /** A reading that ends it: one hysteresis width above. */
  predicate Recovered(cfg: DiagConfig, mv: nat) {
    mv >= cfg.cutoffMv + cfg.cutoffHysteresisMv
  }

  ghost predicate NoneRecovered(cfg: DiagConfig, readings: seq<nat>, from: int) {
    forall j :: from <= j < |readings| && 0 <= j ==> !Recovered(cfg, readings[j])
  }

  /** The last reading that says anything decides: the cutoff is on exactly when some reading was
      flat, or it was on before, and none since has recovered. */
  lemma {:induction false} CutoffIsHysteresis(cfg: DiagConfig, cutoff: bool, readings: seq<nat>)
    ensures CutoffRun(cfg, cutoff, readings) <==>
            (cutoff && NoneRecovered(cfg, readings, 0))
            || exists i :: 0 <= i < |readings| && Flat(cfg, readings[i]) && NoneRecovered(cfg, readings, i)
    decreases |readings|
  {
    if readings != [] {
      var r, rest := readings[0], readings[1..];
      var next := CutoffAfter(cfg, cutoff, false, r);
      assert next == (Flat(cfg, r) || (cutoff && !Recovered(cfg, r)));
      CutoffIsHysteresis(cfg, next, rest);
      hide CutoffAfter;
      NoneShift(cfg, readings, 0);
      if i :| 0 <= i < |rest| && Flat(cfg, rest[i]) && NoneRecovered(cfg, rest, i) {
        NoneShift(cfg, readings, i);
        assert Flat(cfg, readings[i + 1]) && NoneRecovered(cfg, readings, i + 1);
      }
      if i :| 0 <= i < |readings| && Flat(cfg, readings[i]) && NoneRecovered(cfg, readings, i) {
        if i > 0 {
          NoneShift(cfg, readings, i - 1);
          assert Flat(cfg, rest[i - 1]) && NoneRecovered(cfg, rest, i - 1);
        }
      }
      if Flat(cfg, r) && NoneRecovered(cfg, rest, 0) { assert Flat(cfg, readings[0]) && NoneRecovered(cfg, readings, 0); }
    }
  }

  lemma NoneShift(cfg: DiagConfig, readings: seq<nat>, i: nat)
    requires readings != []
    ensures NoneRecovered(cfg, readings[1..], i) <==> NoneRecovered(cfg, readings, i + 1)
    ensures NoneRecovered(cfg, readings, 0) <==> !Recovered(cfg, readings[0]) && NoneRecovered(cfg, readings[1..], 0)
  {
    var rest := readings[1..];
    if NoneRecovered(cfg, rest, i) {
      forall j | i + 1 <= j < |readings| ensures !Recovered(cfg, readings[j]) { assert readings[j] == rest[j - 1]; }
    }
    if NoneRecovered(cfg, rest, 0) && !Recovered(cfg, readings[0]) {
      forall j | 0 <= j < |readings| ensures !Recovered(cfg, readings[j]) { assert j > 0 ==> readings[j] == rest[j - 1]; }
    }
  }

  /** With the engine running there is no cutoff, whatever the battery. */
  lemma RunningEndsCutoff(cfg: DiagConfig, cutoff: bool, battery: nat)
    ensures !CutoffAfter(cfg, cutoff, true, battery)
  {
  }

  // ---------- engine running ----------

  /** The engine signal after these readings with the ignition on. */
  function EngineRun(cfg: DiagConfig, running: bool, readings: seq<nat>): bool
    decreases |readings|
  {
    if readings == [] then running else EngineRun(cfg, EngineAfter(cfg, running, readings[0], false), readings[1..])
  }

  /** Charging, and no longer so. */
  predicate Charging(cfg: DiagConfig, mv: nat) {
    mv >= cfg.runMv
  }

  predicate Dropped(cfg: DiagConfig, mv: nat) {
    mv + cfg.runHysteresisMv < cfg.runMv
  }

  ghost predicate NoneDropped(cfg: DiagConfig, readings: seq<nat>, from: int) {
    forall j :: from <= j < |readings| && 0 <= j ==> !Dropped(cfg, readings[j])
  }

  /** Detected by voltage, the engine counts as running exactly when the battery was charging once,
      or it ran before, and has not dropped since. */
  lemma {:induction false} EngineIsHysteresis(cfg: DiagConfig, running: bool, readings: seq<nat>)
    requires cfg.detectByVoltage
    ensures EngineRun(cfg, running, readings) <==>
            (running && NoneDropped(cfg, readings, 0))
            || exists i :: 0 <= i < |readings| && Charging(cfg, readings[i]) && NoneDropped(cfg, readings, i)
    decreases |readings|
  {
    if readings != [] {
      var r, rest := readings[0], readings[1..];
      var next := EngineAfter(cfg, running, r, false);
      assert next == (Charging(cfg, r) || (running && !Dropped(cfg, r)));
      EngineIsHysteresis(cfg, next, rest);
      hide EngineAfter;
      NoDropShift(cfg, readings, 0);
      if i :| 0 <= i < |rest| && Charging(cfg, rest[i]) && NoneDropped(cfg, rest, i) {
        NoDropShift(cfg, readings, i);
        assert Charging(cfg, readings[i + 1]) && NoneDropped(cfg, readings, i + 1);
      }
      if i :| 0 <= i < |readings| && Charging(cfg, readings[i]) && NoneDropped(cfg, readings, i) {
        if i > 0 {
          NoDropShift(cfg, readings, i - 1);
          assert Charging(cfg, rest[i - 1]) && NoneDropped(cfg, rest, i - 1);
        }
      }
      if Charging(cfg, r) && NoneDropped(cfg, rest, 0) { assert Charging(cfg, readings[0]) && NoneDropped(cfg, readings, 0); }
    }
  }

  lemma NoDropShift(cfg: DiagConfig, readings: seq<nat>, i: nat)
    requires readings != []
    ensures NoneDropped(cfg, readings[1..], i) <==> NoneDropped(cfg, readings, i + 1)
    ensures NoneDropped(cfg, readings, 0) <==> !Dropped(cfg, readings[0]) && NoneDropped(cfg, readings[1..], 0)
  {
    var rest := readings[1..];
    if NoneDropped(cfg, rest, i) {
      forall j | i + 1 <= j < |readings| ensures !Dropped(cfg, readings[j]) { assert readings[j] == rest[j - 1]; }
    }
    if NoneDropped(cfg, rest, 0) && !Dropped(cfg, readings[0]) {
      forall j | 0 <= j < |readings| ensures !Dropped(cfg, readings[j]) { assert j > 0 ==> readings[j] == rest[j - 1]; }
    }
  }

  /** With the ignition off, or without detection, the engine never counts as running. */
  lemma KeyOffMeansNotRunning(cfg: DiagConfig, running: bool, battery: nat, ignitionOff: bool)
    requires ignitionOff || !cfg.detectByVoltage
    ensures !EngineAfter(cfg, running, battery, ignitionOff)
  {
  }

  // ---------- fault reports ----------

  /** The report a current deserves. */
  function Report(th: Threshold, ma: nat): Fault {
    if ma < th.openLoadMa then OpenLoad else if th.overcurrentMa < ma then Overcurrent else NoFault
  }

  /** A lit channel shows its current and the report that deserves, a dark one nothing. */
  ghost predicate Shows(th: Threshold, r: Readings, ch: nat, lit: bool, ma: nat)
    requires r.Valid() && ch < N
  {
    if lit then r.ma[ch] == ma && r.fault[ch] == Report(th, ma) else r.ma[ch] == 0 && r.fault[ch] == NoFault
  }

  /** `rs` are the readings before and after each of these ticks. */
  ghost predicate Ticked(thresholds: seq<Threshold>, cursor: nat, lives: seq<Energised>, mas: seq<seq<nat>>, rs: seq<Readings>)
    requires cursor < N && |thresholds| == N
    decreases |lives|
  {
    && |mas| == |lives| && |rs| == |lives| + 1 && rs[0].Valid()
    && (lives != [] ==>
          && |mas[0]| == N && rs[1].Valid() && Sampled(cursor, lives[0], thresholds, mas[0], rs[0], rs[1])
          && Ticked(thresholds, Advance(cursor, Visits(cursor, lives[0])), lives[1..], mas[1..], rs[1..]))
  }

  ghost predicate Steady(lives: seq<Energised>, mas: seq<seq<nat>>, ch: nat, lit: bool, ma: nat)
    requires |mas| == |lives| && ch < N
  {
    forall k :: 0 <= k < |lives| ==> lives[k][ch] == lit && ch < |mas[k]| && mas[k][ch] == ma
  }

  lemma SteadyRest(lives: seq<Energised>, mas: seq<seq<nat>>, ch: nat, lit: bool, ma: nat)
    requires |mas| == |lives| && lives != [] && ch < N && Steady(lives, mas, ch, lit, ma)
    ensures Steady(lives[1..], mas[1..], ch, lit, ma)
  {
  }

  lemma {:induction false} ShownStaysShown(thresholds: seq<Threshold>, cursor: nat, lives: seq<Energised>,
                                           mas: seq<seq<nat>>, rs: seq<Readings>, ch: nat, lit: bool, ma: nat)
    requires cursor < N && ch < N && |thresholds| == N && Ticked(thresholds, cursor, lives, mas, rs) && Steady(lives, mas, ch, lit, ma)
    requires Shows(thresholds[ch], rs[0], ch, lit, ma)
    ensures rs[|lives|].Valid() && Shows(thresholds[ch], rs[|lives|], ch, lit, ma)
    decreases |lives|
  {
    if lives != [] {
      SteadyRest(lives, mas, ch, lit, ma);
      ShownStaysShown(thresholds, Advance(cursor, Visits(cursor, lives[0])), lives[1..], mas[1..], rs[1..], ch, lit, ma);
      assert rs[1..][|lives[1..]|] == rs[|lives|];
    }
  }

  lemma {:induction false} SampledIsShown(thresholds: seq<Threshold>, cursor: nat, lives: seq<Energised>,
                                          mas: seq<seq<nat>>, rs: seq<Readings>, ch: nat, lit: bool, ma: nat)
    requires cursor < N && ch < N && |thresholds| == N && Ticked(thresholds, cursor, lives, mas, rs) && Steady(lives, mas, ch, lit, ma)
    requires ScannedDuring(cursor, lives, ch)
    ensures rs[|lives|].Valid() && Shows(thresholds[ch], rs[|lives|], ch, lit, ma)
    decreases |lives|
  {
    var next := Advance(cursor, Visits(cursor, lives[0]));
    SteadyRest(lives, mas, ch, lit, ma);
    assert rs[1..][|lives[1..]|] == rs[|lives|];
    if Scanned(cursor, lives[0], ch) {
      ShownStaysShown(thresholds, next, lives[1..], mas[1..], rs[1..], ch, lit, ma);
    } else {
      SampledIsShown(thresholds, next, lives[1..], mas[1..], rs[1..], ch, lit, ma);
    }
  }

  /** A channel that is on and draws a steady current for twelve ticks shows that current at the
      end and the report it deserves, and one that is off for twelve ticks shows nothing, whatever
      the other channels do. */
  lemma SteadyChannelIsReported(thresholds: seq<Threshold>, cursor: nat, lives: seq<Energised>, mas: seq<seq<nat>>,
                                rs: seq<Readings>, ch: nat, lit: bool, ma: nat)
    requires cursor < N && ch < N && |thresholds| == N && |lives| == N
    requires Ticked(thresholds, cursor, lives, mas, rs) && Steady(lives, mas, ch, lit, ma)
    ensures rs[N].Valid() && Shows(thresholds[ch], rs[N], ch, lit, ma)
  {
    hide Ticked, Steady;
    Fairness(cursor, lives, ch);
    SampledIsShown(thresholds, cursor, lives, mas, rs, ch, lit, ma);
  }
}
