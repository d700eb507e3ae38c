/**
  The dimming layer under the output engine (firmware/main/output_hal_gpio.c): a pin is
  claimed onto one of eight LEDC channels the first time it is dimmed, and from then on
  the peripheral owns it.
 */
module Ledc {
  import Output

  const OUTPUTS: nat := 12
  const SLOTS: nat := 8
  const DUTY_MAX: nat := 1023

  class OutputHal {
    /** Which output holds LEDC channel i, or -1. */
    const slot: array<int>
    /** Which LEDC channel output c is attached to, or -1. */
    const channelFor: array<int>
    const gpio: array<bool>
    const duty: array<nat>
    var timerReady: bool

    ghost predicate Sized()
      reads this
    {
      && slot.Length == SLOTS && duty.Length == SLOTS && channelFor.Length == OUTPUTS && gpio.Length == OUTPUTS
      && slot != channelFor
    }

    /** The two maps are inverse to each other. */
    ghost predicate Inverse()
      requires Sized()
      reads this, slot, channelFor
    {
      && (forall s :: 0 <= s < SLOTS ==> -1 <= slot[s] < OUTPUTS && (slot[s] >= 0 ==> channelFor[slot[s]] == s))
      && (forall c :: 0 <= c < OUTPUTS ==> -1 <= channelFor[c] < SLOTS && (channelFor[c] >= 0 ==> slot[channelFor[c]] == c))
    }

    ghost predicate Valid()
      reads this, slot, channelFor, duty
    {
      Sized() && Inverse()
    }

    /** What the load sees, in 1/1023ths: the peripheral's duty once attached, the pin before. */
    ghost function Driven(c: nat): nat
      requires Valid() && c < OUTPUTS
      reads this, slot, channelFor, duty, gpio
    {
      if channelFor[c] >= 0 then duty[channelFor[c]] else if gpio[c] then DUTY_MAX else 0
    }

    constructor ()
      ensures Valid() && fresh(slot) && fresh(channelFor) && fresh(gpio) && fresh(duty)
      ensures forall c :: 0 <= c < OUTPUTS ==> Driven(c) == 0
    {
      slot := new int[SLOTS](_ => -1);
      channelFor := new int[OUTPUTS](_ => -1);
      gpio := new bool[OUTPUTS](_ => false);
      duty := new nat[SLOTS](_ => 0);
      timerReady := false;
    }

    /** The LEDC channel an output is, or becomes, attached to; -1 if none can be had.
        `timerOk` and `channelOk` are the outcomes of the two driver calls. */
    method Attach(c: nat, timerOk: bool, channelOk: bool) returns (s: int)
      requires Valid() && c < OUTPUTS
      modifies this`timerReady, slot, channelFor, duty
      ensures Valid() && s == channelFor[c]
      ensures old(channelFor[c]) >= 0 ==> s == old(channelFor[c])
      ensures forall d :: 0 <= d < OUTPUTS && d != c ==> channelFor[d] == old(channelFor[d]) && Driven(d) == old(Driven(d))
      ensures s < 0 ==> Driven(c) == old(Driven(c))
      ensures s < 0 ==> !timerOk || !channelOk || forall i :: 0 <= i < SLOTS ==> slot[i] >= 0
    {
      if channelFor[c] >= 0 { return channelFor[c]; }
      if !timerReady {
        if !timerOk { return -1; }
        timerReady := true;
      }
      s := -1;
      for i := 0 to SLOTS
        invariant s < 0 ==> s == -1 && forall j :: 0 <= j < i ==> slot[j] >= 0
        invariant s >= 0 ==> s < SLOTS && slot[s] < 0
      {
        if s < 0 && slot[i] < 0 { s := i; }
      }
      if s < 0 || !channelOk { return -1; }
      duty[s] := 0;
      slot[s] := c;
      channelFor[c] := s;
    }

    method Set(c: nat, on: bool)
      requires Valid()
      modifies gpio, duty
      ensures Valid()
      ensures c < OUTPUTS ==> Driven(c) == if on then DUTY_MAX else 0
      ensures forall d :: 0 <= d < OUTPUTS && d != c ==> Driven(d) == old(Driven(d))
    {
      if c >= OUTPUTS { return; }
      if channelFor[c] >= 0 {
        duty[channelFor[c]] := if on then DUTY_MAX else 0;
      } else {
        gpio[c] := on;
      }
    }

    /** Dimmed if a channel can be had, otherwise plainly on. */
    method SetDuty(c: nat, pct: nat, timerOk: bool, channelOk: bool)
      requires Valid()
      modifies this`timerReady, slot, channelFor, gpio, duty
      ensures Valid()
      ensures c < OUTPUTS ==> Driven(c) == if channelFor[c] >= 0 then DUTY_MAX * (if pct > 100 then 100 else pct) / 100 else DUTY_MAX
      // a duty the configuration allows is never dark
      ensures c < OUTPUTS && pct >= 1 ==> 0 < Driven(c) <= DUTY_MAX
      ensures forall d :: 0 <= d < OUTPUTS && d != c ==> Driven(d) == old(Driven(d))
    {
      if c >= OUTPUTS { return; }
      var p := if pct > 100 then 100 else pct;
      var s := Attach(c, timerOk, channelOk);
      if s < 0 {
        gpio[c] := true;
        return;
      }
      duty[s] := DUTY_MAX * p / 100;
    }

    /** What the output engine's pin levels become: dark exactly when the engine says Low. */
    method DrivePin(c: nat, pin: Output.Pin, timerOk: bool, channelOk: bool)
      requires Valid() && c < OUTPUTS
      modifies this`timerReady, slot, channelFor, gpio, duty
      ensures Valid()
      ensures (pin.Dimmed? ==> pin.pct >= 1) ==> (Driven(c) == 0 <==> pin == Output.Low)
      ensures pin == Output.High ==> Driven(c) == DUTY_MAX
      ensures forall d :: 0 <= d < OUTPUTS && d != c ==> Driven(d) == old(Driven(d))
    {
      match pin {
        case Low => Set(c, false);
        case High => Set(c, true);
        case Dimmed(pct) => SetDuty(c, pct, timerOk, channelOk);
      }
    }
  }

  function Below(n: nat): (s: set<int>)
    ensures |s| == n && forall x :: x in s <==> 0 <= x < n
  {
    if n == 0 then {} else Below(n - 1) + {n - 1}
  }

  /** The attached outputs among the first `n`. */
  function Attached(channelFor: seq<int>, n: nat): (s: set<nat>)
    requires n <= |channelFor|
    ensures forall c :: c in s <==> 0 <= c < n && channelFor[c] >= 0
  {
    if n == 0 then {}
    else if channelFor[n - 1] >= 0 then Attached(channelFor, n - 1) + {n - 1}
    else Attached(channelFor, n - 1)
  }

  /** At most eight outputs are attached at once. */
  lemma AtMostEightAttached(hal: OutputHal)
    requires hal.Valid()
    ensures |Attached(hal.channelFor[..], OUTPUTS)| <= SLOTS
  {
    AttachedFit(Attached(hal.channelFor[..], OUTPUTS), hal.channelFor[..], Below(SLOTS));
  }

  /** Outputs that map one-to-one into a set of LEDC channels fit in it. */
  lemma {:induction false} AttachedFit(attached: set<nat>, channelFor: seq<int>, slots: set<int>)
    requires forall c :: c in attached ==> c < |channelFor| && channelFor[c] in slots
    requires forall c, d :: c in attached && d in attached && channelFor[c] == channelFor[d] ==> c == d
    ensures |attached| <= |slots|
    decreases |attached|
  {
    if attached != {} {
      var c :| c in attached;
      AttachedFit(attached - {c}, channelFor, slots - {channelFor[c]});
    }
  }
}
