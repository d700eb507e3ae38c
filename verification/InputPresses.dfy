/**
  What one press of a button is told as (mc_input_poll in firmware/components/core/mc_input.c),
  sample by sample: held past the threshold it is a long press, let go before it a short one,
  and two in a row within the gap are a double.
 */
module InputPresses {
  import opened Input
  import opened InputGestures

  /** The gestures a button tells over these samples, and the button afterwards. */
  function Gestures(t: Timing, b: Button, samples: seq<Raw>): seq<Gesture>
    decreases |samples|
  {
    if samples == [] then []
    else
      var (b', g) := PollButton(t, b, samples[0].now, samples[0].raw);
      g + Gestures(t, b', samples[1..])
  }

  function Then(t: Timing, b: Button, samples: seq<Raw>): Button
    decreases |samples|
  {
    if samples == [] then b else Then(t, PollButton(t, b, samples[0].now, samples[0].raw).0, samples[1..])
  }

  lemma {:induction false} Chained(t: Timing, b: Button, a: seq<Raw>, c: seq<Raw>)
    ensures Then(t, b, a + c) == Then(t, Then(t, b, a), c)
    ensures Gestures(t, b, a + c) == Gestures(t, b, a) + Gestures(t, Then(t, b, a), c)
    decreases |a|
  {
    hide PollButton;
    if a == [] {
      assert a + c == c;
    } else {
      assert (a + c)[0] == a[0] && (a + c)[1..] == a[1..] + c;
      Chained(t, PollButton(t, b, a[0].now, a[0].raw).0, a[1..], c);
    }
  }

  /** A poll tells what its debouncer tells, else what the long check does, else the short one. */
  lemma PollTells(t: Timing, b: Button, now: nat, raw: bool)
    ensures var (b1, g1) := Debounce(t, b, now, raw);
            var (b2, g2) := CheckLong(t, b1, now);
            var (b3, g3) := CheckShort(t, b2, now);
            PollButton(t, b, now, raw) == (b3, if g1 != [] then g1 else if g2 != [] then g2 else g3)
  {
    var (b1, g1) := Debounce(t, b, now, raw);
    var (b2, g2) := CheckLong(t, b1, now);
    var (b3, g3) := CheckShort(t, b2, now);
    if g1 != [] {
      assert g2 == [] && g3 == [] && g1 + g2 + g3 == g1;
    } else if g2 != [] {
      assert g3 == [] && g1 + g2 + g3 == g2;
    } else {
      assert g1 + g2 + g3 == g3;
    }
  }

  /** Samples that all read as the contact last did, none of them late enough to be an edge. */
  ghost predicate Still(t: Timing, b: Button, samples: seq<Raw>) {
    forall i :: 0 <= i < |samples| ==>
      samples[i].raw == b.raw && (b.raw == b.stable || samples[i].now - b.rawChange < t.debounceMs)
  }

  /** Some of these samples come `ms` or more after `since`. */
  ghost predicate Reaches(samples: seq<Raw>, since: nat, ms: nat) {
    exists i :: 0 <= i < |samples| && samples[i].now - since >= ms
  }

  lemma ReachesNext(samples: seq<Raw>, since: nat, ms: nat)
    requires samples != []
    ensures Reaches(samples, since, ms) <==> samples[0].now - since >= ms || Reaches(samples[1..], since, ms)
  {
    if i :| 0 <= i < |samples| && samples[i].now - since >= ms {
      if i > 0 { assert samples[1..][i - 1] == samples[i]; }
    }
    if i :| 0 <= i < |samples[1..]| && samples[1..][i].now - since >= ms { assert samples[i + 1] == samples[1..][i]; }
  }

  /** Held down with nothing pending, it is told as long once, when the threshold is reached. */
  lemma {:induction false} HoldTellsLongOnce(t: Timing, b: Button, samples: seq<Raw>)
    requires b.stable && !b.pending && Still(t, b, samples)
    ensures var long := !b.longFired && Reaches(samples, b.pressStart, t.longMs);
            && Gestures(t, b, samples) == (if long then [Long] else [])
            && Then(t, b, samples) == b.(longFired := b.longFired || long)
    decreases |samples|
  {
    if samples != [] {
      ReachesNext(samples, b.pressStart, t.longMs);
      PollTells(t, b, samples[0].now, samples[0].raw);
      var due := !b.longFired && samples[0].now - b.pressStart >= t.longMs;
      assert PollButton(t, b, samples[0].now, samples[0].raw) == (b.(longFired := b.longFired || due), if due then [Long] else []);
      HoldTellsLongOnce(t, b.(longFired := b.longFired || due), samples[1..]);
    }
  }

  /** Let go, a waiting press is told as short once, when the gap has passed. */
  lemma {:induction false} WaitTellsShortOnce(t: Timing, b: Button, samples: seq<Raw>)
    requires !b.stable && Still(t, b, samples)
    ensures var short := b.pending && Reaches(samples, b.lastRelease, t.gapMs);
            && Gestures(t, b, samples) == (if short then [Short] else [])
            && Then(t, b, samples) == b.(pending := b.pending && !short)
    decreases |samples|
  {
    if samples != [] {
      ReachesNext(samples, b.lastRelease, t.gapMs);
      PollTells(t, b, samples[0].now, samples[0].raw);
      var due := b.pending && samples[0].now - b.lastRelease >= t.gapMs;
      assert PollButton(t, b, samples[0].now, samples[0].raw) == (b.(pending := b.pending && !due), if due then [Short] else []);
      WaitTellsShortOnce(t, b.(pending := b.pending && !due), samples[1..]);
    }
  }

  /** Before either threshold nothing is told and nothing changes. */
  lemma {:induction false} TooSoonTellsNothing(t: Timing, b: Button, samples: seq<Raw>)
    requires Still(t, b, samples)
    requires b.stable && !b.longFired ==> !Reaches(samples, b.pressStart, t.longMs)
    requires b.pending ==> !Reaches(samples, b.lastRelease, t.gapMs)
    ensures Gestures(t, b, samples) == [] && Then(t, b, samples) == b
    decreases |samples|
  {
    if samples != [] {
      ReachesNext(samples, b.pressStart, t.longMs);
      ReachesNext(samples, b.lastRelease, t.gapMs);
      assert PollButton(t, b, samples[0].now, samples[0].raw) == (b, []);
      TooSoonTellsNothing(t, b, samples[1..]);
    }
  }

  // ---------- one press, from rest to rest ----------

  /** Samples that read one level throughout, the last of them late enough after the first to
      make it a debounced edge, the ones between not. */
  ghost predicate Settles(t: Timing, samples: seq<Raw>, level: bool) {
    && |samples| >= 2 && (forall i :: 0 <= i < |samples| ==> samples[i].raw == level)
    && (forall i :: 0 < i < |samples| - 1 ==> samples[i].now - samples[0].now < t.debounceMs)
    && LastOf(samples).now - samples[0].now >= t.debounceMs
  }

  ghost predicate AllRead(samples: seq<Raw>, level: bool) {
    forall i :: 0 <= i < |samples| ==> samples[i].raw == level
  }

  /** A press as sampled: the contact closes and settles, is held, opens and settles, and rests. */
  datatype Press = Press(closing: seq<Raw>, held: seq<Raw>, opening: seq<Raw>, rest: seq<Raw>)
  {
    ghost predicate Valid(t: Timing) {
      Settles(t, closing, true) && AllRead(held, true) && Settles(t, opening, false) && AllRead(rest, false)
    }

    function Samples(): seq<Raw> { closing + (held + (opening + rest)) }

    /** When it was debounced down, and up. */
    function Down(): nat requires closing != [] { LastOf(closing).now }
    function Up(): nat requires opening != [] { LastOf(opening).now }

    /** It was still down at a sample `longMs` or more after its press-down. */
    ghost predicate IsLong(t: Timing)
      requires closing != [] && opening != []
    {
      Reaches(held + Init(opening), Down(), t.longMs)
    }
  }

  /** At rest: up, settled, and nothing waiting. */
  predicate AtRest(b: Button) {
    !b.raw && !b.stable && !b.pending
  }

  /** A button waiting for the second press of a double, or at rest. */
  predicate Up(b: Button) {
    !b.raw && !b.stable
  }

  lemma SplitsAtEnds(samples: seq<Raw>)
    requires |samples| >= 2
    ensures samples == [samples[0]] + (samples[1..|samples| - 1] + [LastOf(samples)])
  {
  }

  /** The contact closes: nothing is told, if no waiting press runs out meanwhile. */
  lemma Closes(t: Timing, b: Button, closing: seq<Raw>)
    requires Up(b) && Settles(t, closing, true) && t.longMs > 0
    requires b.pending ==> !Reaches(closing, b.lastRelease, t.gapMs)
    ensures var d := LastOf(closing).now;
            && Gestures(t, b, closing) == []
            && Then(t, b, closing) ==
               b.(raw := true, stable := true, rawChange := closing[0].now, pressStart := d, longFired := false, consumed := false)
  {
    var n := |closing|;
    var first, middle, last := closing[0], closing[1..n - 1], LastOf(closing);
    SplitsAtEnds(closing);
    PartsReachLess(closing, b.lastRelease, t.gapMs);
    var b1 := b.(raw := true, rawChange := first.now);
    assert PollButton(t, b, first.now, true) == (b1, []);
    assert Still(t, b1, middle);
    TooSoonTellsNothing(t, b1, middle);
    var b2 := b1.(stable := true, pressStart := last.now, longFired := false, consumed := false);
    assert PollButton(t, b1, last.now, true) == (b2, []);
    ThreeParts(t, b, first, middle, last);
  }

  lemma PartsReachLess(samples: seq<Raw>, since: nat, ms: nat)
    requires |samples| >= 2
    ensures !Reaches(samples, since, ms) ==>
              samples[0].now - since < ms && LastOf(samples).now - since < ms && !Reaches(samples[1..|samples| - 1], since, ms)
  {
    var middle := samples[1..|samples| - 1];
    if i :| 0 <= i < |middle| && middle[i].now - since >= ms { assert samples[i + 1] == middle[i]; }
  }

  lemma ThreeParts(t: Timing, b: Button, first: Raw, middle: seq<Raw>, last: Raw)
    ensures var b1 := PollButton(t, b, first.now, first.raw).0;
            var b2 := Then(t, b1, middle);
            var all := [first] + (middle + [last]);
            && Then(t, b, all) == PollButton(t, b2, last.now, last.raw).0
            && Gestures(t, b, all) ==
               PollButton(t, b, first.now, first.raw).1 + (Gestures(t, b1, middle) + PollButton(t, b2, last.now, last.raw).1)
  {
    hide PollButton;
    Chained(t, b, [first], middle + [last]);
    OneSample(t, b, first);
    var b1 := PollButton(t, b, first.now, first.raw).0;
    Chained(t, b1, middle, [last]);
    OneSample(t, Then(t, b1, middle), last);
  }

  lemma OneSample(t: Timing, b: Button, x: Raw)
    ensures Then(t, b, [x]) == PollButton(t, b, x.now, x.raw).0 && Gestures(t, b, [x]) == PollButton(t, b, x.now, x.raw).1
  {
    hide PollButton;
    assert [x][1..] == [];
    assert Gestures(t, b, [x]) == PollButton(t, b, x.now, x.raw).1 + [];
  }

  /** The contact opens: a long press may still be told while it does; then a press that was none
      starts waiting, or completes the one that waited. */
  lemma Opens(t: Timing, b: Button, opening: seq<Raw>)
    requires b.raw && b.stable && !b.pending && Settles(t, opening, false)
    ensures var u, long := LastOf(opening).now, b.longFired || Reaches(Init(opening), b.pressStart, t.longMs);
            var b' := b.(raw := false, stable := false, rawChange := opening[0].now, longFired := long,
                         pending := !long && t.gapMs > 0, lastRelease := if long then b.lastRelease else u);
            && Then(t, b, opening) == b'
            && Gestures(t, b, opening) == (if long && !b.longFired then [Long] else if !long && t.gapMs == 0 then [Short] else [])
  {
    var n := |opening|;
    var first, middle, last := opening[0], opening[1..n - 1], LastOf(opening);
    SplitsAtEnds(opening);
    assert Init(opening)[0] == first && Init(opening)[1..] == middle;
    ReachesNext(Init(opening), b.pressStart, t.longMs);
    var atFirst := !b.longFired && first.now - b.pressStart >= t.longMs;
    var b1 := b.(raw := false, rawChange := first.now, longFired := b.longFired || atFirst);
    PollTells(t, b, first.now, false);
    assert PollButton(t, b, first.now, false) == (b1, if atFirst then [Long] else []);
    assert Still(t, b1, middle);
    HoldTellsLongOnce(t, b1, middle);
    var b2 := Then(t, b1, middle);
    LastOpens(t, b2, last);
    ThreeParts(t, b, first, middle, last);
  }

  lemma LastOpens(t: Timing, b: Button, last: Raw)
    requires b.stable && !b.raw && !b.pending && !last.raw && last.now - b.rawChange >= t.debounceMs
    ensures PollButton(t, b, last.now, false) ==
            (b.(stable := false, pending := !b.longFired && t.gapMs > 0, lastRelease := if b.longFired then b.lastRelease else last.now),
             if !b.longFired && t.gapMs == 0 then [Short] else [])
  {
    PollTells(t, b, last.now, false);
  }

  /** One press of a button at rest is told once: as long if it was held past the threshold, else
      as short once the gap has passed without another. */
  lemma OnePressIsToldOnce(t: Timing, b: Button, press: Press)
    requires AtRest(b) && press.Valid(t) && t.longMs > 0
    ensures var told := Gestures(t, b, press.Samples());
            told == if press.IsLong(t) then [Long]
                    else if t.gapMs == 0 || Reaches(press.rest, press.Up(), t.gapMs) then [Short] else []
  {
    hide PollButton;
    var (c, h, o, r) := (press.closing, press.held, press.opening, press.rest);
    Closes(t, b, c);
    var b1 := Then(t, b, c);
    HoldTellsLongOnce(t, b1, h);
    var b2 := Then(t, b1, h);
    Opens(t, b2, o);
    var b3 := Then(t, b2, o);
    WaitTellsShortOnce(t, b3, r);
    ReachesEither(h, Init(o), press.Down(), t.longMs);
    Chained(t, b, c, h + (o + r));
    Chained(t, b1, h, o + r);
    Chained(t, b2, o, r);
  }

  lemma ReachesEither(a: seq<Raw>, b: seq<Raw>, since: nat, ms: nat)
    ensures Reaches(a + b, since, ms) <==> Reaches(a, since, ms) || Reaches(b, since, ms)
  {
    if i :| 0 <= i < |a| && a[i].now - since >= ms { assert (a + b)[i] == a[i]; }
    if i :| 0 <= i < |b| && b[i].now - since >= ms { assert (a + b)[|a| + i] == b[i]; }
  }

  // ---------- a second press ----------

  /** The second press of a pair closes, is held and opens before the first has run out. */
  ghost predicate Follows(t: Timing, since: nat, press: Press) {
    && press.Valid(t) && !press.IsLong(t)
    && !Reaches(press.closing, since, t.gapMs) && !Reaches(press.held, since, t.gapMs) && !Reaches(press.opening, since, t.gapMs)
  }

  lemma SecondOpens(t: Timing, b: Button, opening: seq<Raw>)
    requires b.raw && b.stable && b.pending && !b.longFired && Settles(t, opening, false)
    requires !Reaches(opening, b.lastRelease, t.gapMs) && !Reaches(Init(opening), b.pressStart, t.longMs)
    ensures Gestures(t, b, opening) == [Double]
    ensures AtRest(Then(t, b, opening))
  {
    var n := |opening|;
    var first, middle, last := opening[0], opening[1..n - 1], LastOf(opening);
    SplitsAtEnds(opening);
    PartsReachLess(opening, b.lastRelease, t.gapMs);
    assert Init(opening)[0] == first && Init(opening)[1..] == middle;
    ReachesNext(Init(opening), b.pressStart, t.longMs);
    var b1 := b.(raw := false, rawChange := first.now);
    assert PollButton(t, b, first.now, false) == (b1, []);
    assert Still(t, b1, middle);
    TooSoonTellsNothing(t, b1, middle);
    PollTells(t, b1, last.now, false);
    assert PollButton(t, b1, last.now, false) == (b1.(stable := false, pending := false), [Double]);
    ThreeParts(t, b, first, middle, last);
  }

  /** A second press of a waiting button, over before the gap has passed, makes the two a double,
      and neither is told as short. */
  lemma SecondPressMakesDouble(t: Timing, b: Button, press: Press)
    requires Up(b) && b.pending && Follows(t, b.lastRelease, press) && t.longMs > 0
    ensures Gestures(t, b, press.Samples()) == [Double] && AtRest(Then(t, b, press.Samples()))
  {
    hide PollButton;
    var (c, h, o, r) := (press.closing, press.held, press.opening, press.rest);
    Closes(t, b, c);
    var b1 := Then(t, b, c);
    ReachesEither(h, Init(o), press.Down(), t.longMs);
    TooSoonTellsNothing(t, b1, h);
    SecondOpens(t, b1, o);
    var b3 := Then(t, b1, o);
    WaitTellsShortOnce(t, b3, r);
    Chained(t, b, c, h + (o + r));
    Chained(t, b1, h, o + r);
    Chained(t, b1, o, r);
  }

  /** From rest: two quick presses are told as one double and nothing else. */
  lemma TwoQuickPressesAreADouble(t: Timing, b: Button, first: Press, second: Press)
    requires AtRest(b) && first.Valid(t) && !first.IsLong(t) && t.longMs > 0 && t.gapMs > 0
    requires !Reaches(first.rest, first.Up(), t.gapMs) && Follows(t, first.Up(), second)
    ensures Gestures(t, b, first.Samples() + second.Samples()) == [Double]
  {
    hide PollButton;
    OnePressIsToldOnce(t, b, first);
    WaitsAfterPress(t, b, first);
    var b1 := Then(t, b, first.Samples());
    SecondPressMakesDouble(t, b1, second);
    Chained(t, b, first.Samples(), second.Samples());
  }

  lemma WaitsAfterPress(t: Timing, b: Button, press: Press)
    requires AtRest(b) && press.Valid(t) && !press.IsLong(t) && t.longMs > 0 && t.gapMs > 0 && !Reaches(press.rest, press.Up(), t.gapMs)
    ensures var b' := Then(t, b, press.Samples()); Up(b') && b'.pending && b'.lastRelease == press.Up()
  {
    hide PollButton;
    var (c, h, o, r) := (press.closing, press.held, press.opening, press.rest);
    Closes(t, b, c);
    var b1 := Then(t, b, c);
    ReachesEither(h, Init(o), press.Down(), t.longMs);
    HoldTellsLongOnce(t, b1, h);
    var b2 := Then(t, b1, h);
    Opens(t, b2, o);
    var b3 := Then(t, b2, o);
    WaitTellsShortOnce(t, b3, r);
    Chained(t, b, c, h + (o + r));
    Chained(t, b1, h, o + r);
    Chained(t, b2, o, r);
  }
}
