/**
  From the engine to the load: what a tick sends down the HAL (apply_hal_state in
  firmware/components/core/mc_output.c) and what the LEDC layer makes of it.
 */
module Pins {
  import opened Output
  import opened OutputObject
  import OutputConfig
  import Ledc

  /** Whether the peripheral accepts a timer or channel set-up, channel by channel. */
  datatype Peripheral = Peripheral(timerOk: nat -> bool, channelOk: nat -> bool)

  lemma LevelsAreLegal(g: Rig, r: Role, on: bool, burst: nat, now: nat)
    requires OutputConfig.DutyOk(r)
    ensures var pin := Level(g, r, on, burst, now); pin.Dimmed? ==> pin.pct >= 1
  {
  }

  /** One tick and its HAL calls: with a configuration the check accepted, a load is dark
      exactly when the pure level function says low, whatever the peripheral refused. */
  method TickDown(out: OutputEngine, hal: Ledc.OutputHal, now: nat, p: Peripheral)
    requires out.Valid() && hal.Valid() && forall i :: 0 <= i < N ==> OutputConfig.DutyOk(out.cfg.roles[i])
    modifies out`lastTick, out.channels, out.pins, hal`timerReady, hal.slot, hal.channelFor, hal.gpio, hal.duty
    ensures out.Valid() && hal.Valid() && out.State() == Tick(old(out.State()), now)
    ensures forall c :: 0 <= c < N ==>
              var e := out.State();
              (hal.Driven(c) == 0 <==> Level(Rig(e.cfg, e.canDim, e.lvCutoff, e.hazards), e.cfg.roles[c], e.ch[c].on, e.ch[c].burst, now) == Low)
  {
    out.DoTick(now);
    ghost var e := out.State();
    ghost var g := Rig(e.cfg, e.canDim, e.lvCutoff, e.hazards);
    for c := 0 to N
      invariant hal.Valid() && out.Valid() && out.State() == e && out.PinsAgree(now)
      invariant forall i :: 0 <= i < c ==> (hal.Driven(i) == 0 <==> out.pins[i] == Low)
    {
      hide Level, Tick;
      LevelsAreLegal(g, e.cfg.roles[c], e.ch[c].on, e.ch[c].burst, now);
      hal.DrivePin(c, out.pins[c], p.timerOk(c), p.channelOk(c));
    }
  }
}
