/**
  What the gestures mean over whole runs: no press is counted twice, edges are backed
  by steady samples, and a sequence fires exactly on its pattern.
 */
module InputGestures {
  import opened Input

  /** One raw sample of one button. */
  datatype Raw = Raw(now: nat, raw: bool)

  function Init<T>(s: seq<T>): seq<T>
    requires s != []
  {
    s[..|s| - 1]
  }

  function LastOf<T>(s: seq<T>): T
    requires s != []
  {
    s[|s| - 1]
  }

  /** The button after these samples, from power-on. */
  function After(t: Timing, samples: seq<Raw>): Button {
    if samples == [] then FRESH_BUTTON
    else PollButton(t, After(t, Init(samples)), LastOf(samples).now, LastOf(samples).raw).0
  }

  // ---------- debounce ----------

  /** The samples from `j` on all read `level`. */
  ghost predicate SteadyFrom(samples: seq<Raw>, j: int, level: bool) {
    0 <= j < |samples| && forall i :: j <= i < |samples| ==> samples[i].raw == level
  }

  lemma PollButtonRaw(t: Timing, b: Button, now: nat, raw: bool)
    ensures var b' := PollButton(t, b, now, raw).0;
            && b'.raw == raw && b'.rawChange == (if raw != b.raw then now else b.rawChange)
            && b'.stable == (if EdgeDue(t, b, now, raw) then raw else b.stable)
  {
  }

  /** The remembered raw level is that of every sample since `rawChange`; a button never
      seen pressed is up. */
  lemma {:induction false} RawIsSteady(t: Timing, samples: seq<Raw>)
    ensures var b := After(t, samples);
            || (!b.raw && !b.stable && forall i :: 0 <= i < |samples| ==> !samples[i].raw)
            || exists j :: SteadyFrom(samples, j, b.raw) && samples[j].now == b.rawChange
  {
    hide PollButton, EdgeDue;
    if samples != [] {
      var prior := Init(samples);
      RawIsSteady(t, prior);
      var b := After(t, prior);
      PollButtonRaw(t, b, LastOf(samples).now, LastOf(samples).raw);
      if LastOf(samples).raw != b.raw {
        assert SteadyFrom(samples, |samples| - 1, LastOf(samples).raw);
      } else if j :| SteadyFrom(prior, j, b.raw) && prior[j].now == b.rawChange {
        assert SteadyFrom(samples, j, b.raw) && samples[j].now == b.rawChange;
      }
    }
  }

  lemma BackedByPrior(samples: seq<Raw>, level: bool, since: nat, debounceMs: nat, j: int)
    requires samples != [] && SteadyFrom(Init(samples), j, level) && samples[j].now == since
    requires LastOf(samples).raw == level && LastOf(samples).now - since >= debounceMs
    ensures Backed(samples, debounceMs)
  {
    assert SteadyFrom(samples, j, level);
  }

  /** The samples end in equal ones spanning at least the debounce time. */
  ghost predicate Backed(samples: seq<Raw>, debounceMs: nat)
    requires samples != []
  {
    exists j :: SteadyFrom(samples, j, LastOf(samples).raw) && LastOf(samples).now - samples[j].now >= debounceMs
  }

  /** A debounced edge is backed by equal raw samples spanning at least the debounce time. */
  lemma EdgeIsBacked(t: Timing, samples: seq<Raw>)
    requires samples != [] && After(t, samples).stable != After(t, Init(samples)).stable
    ensures After(t, samples).stable == LastOf(samples).raw && Backed(samples, t.debounceMs)
  {
    var prior, last := Init(samples), LastOf(samples);
    var b := After(t, prior);
    PollButtonRaw(t, b, last.now, last.raw);
    assert EdgeDue(t, b, last.now, last.raw);
    RawIsSteady(t, prior);
    if j :| SteadyFrom(prior, j, b.raw) && prior[j].now == b.rawChange {
      BackedByPrior(samples, b.raw, b.rawChange, t.debounceMs, j);
    }
  }

  // ---------- every press is accounted for ----------

  function Count(gestures: seq<Gesture>, g: Gesture): nat {
    if gestures == [] then 0 else (if gestures[0] == g then 1 else 0) + Count(gestures[1..], g)
  }

  /** Press-downs a list of gestures stands for. */
  function Worth(gestures: seq<Gesture>): nat {
    Count(gestures, Long) + Count(gestures, Short) + 2 * Count(gestures, Double)
  }

  /** Press-downs that may still become a gesture: a release waiting for its partner and
      a press not yet long. */
  function Open(b: Button): nat {
    (if b.pending then 1 else 0) + (if b.stable && !b.longFired then 1 else 0)
  }

  /** Debounced press-downs of a run. */
  function Downs(t: Timing, samples: seq<Raw>): nat {
    if samples == [] then 0
    else Downs(t, Init(samples)) + if After(t, samples).stable && !After(t, Init(samples)).stable then 1 else 0
  }

  /** Press-downs the gestures of a run stand for. */
  function Told(t: Timing, samples: seq<Raw>): nat {
    if samples == [] then 0
    else Told(t, Init(samples)) + Worth(PollButton(t, After(t, Init(samples)), LastOf(samples).now, LastOf(samples).raw).1)
  }

  lemma DebounceAccounts(t: Timing, b: Button, now: nat, raw: bool)
    ensures var (b', g) := Debounce(t, b, now, raw);
            var down := if b'.stable && !b.stable then 1 else 0;
            && Worth(g) + Open(b') <= Open(b) + down
            && (!(EdgeDue(t, b, now, raw) && !raw && !b.longFired && b.pending && now - b.lastRelease >= t.gapMs + 1) ==>
                  Worth(g) + Open(b') == Open(b) + down)
  {
    assert [Double][1..] == [];
  }

  lemma ChecksAccount(t: Timing, b: Button, now: nat)
    ensures var (b', g) := CheckLong(t, b, now);
            && b'.stable == b.stable && Worth(g) + Open(b') <= Open(b)
            && (!(LongDue(t, b, now) && b.pending) ==> Worth(g) + Open(b') == Open(b))
    ensures var (b', g) := CheckShort(t, b, now);
            b'.stable == b.stable && Worth(g) + Open(b') == Open(b)
  {
    assert [Long][1..] == [] && [Short][1..] == [];
  }

  lemma {:induction false} CountAppend(a: seq<Gesture>, b: seq<Gesture>, g: Gesture)
    ensures Count(a + b, g) == Count(a, g) + Count(b, g)
  {
    if a == [] {
      assert a + b == b;
    } else {
      assert (a + b)[1..] == a[1..] + b;
      CountAppend(a[1..], b, g);
    }
  }

  lemma WorthAppend(a: seq<Gesture>, b: seq<Gesture>)
    ensures Worth(a + b) == Worth(a) + Worth(b)
  {
    CountAppend(a, b, Long);
    CountAppend(a, b, Short);
    CountAppend(a, b, Double);
  }

  /** A pending release is forgotten by this poll. */
  ghost predicate Loses(t: Timing, b: Button, now: nat, raw: bool) {
    var b1 := Debounce(t, b, now, raw).0;
    || (EdgeDue(t, b, now, raw) && !raw && !b.longFired && b.pending && now - b.lastRelease >= t.gapMs + 1)
    || (LongDue(t, b1, now) && b1.pending)
  }

  lemma PollAccounts(t: Timing, b: Button, now: nat, raw: bool)
    ensures var (b', g) := PollButton(t, b, now, raw);
            var down := if b'.stable && !b.stable then 1 else 0;
            && Worth(g) + Open(b') <= Open(b) + down
            && (!Loses(t, b, now, raw) ==> Worth(g) + Open(b') == Open(b) + down)
  {
    var (b1, g1) := Debounce(t, b, now, raw);
    DebounceAccounts(t, b, now, raw);
    var (b2, g2) := CheckLong(t, b1, now);
    ChecksAccount(t, b1, now);
    var (b3, g3) := CheckShort(t, b2, now);
    ChecksAccount(t, b2, now);
    WorthAppend(g1, g2);
    WorthAppend(g1 + g2, g3);
  }

  /** No press-down is ever told twice: what the gestures stand for and what is still
      open never exceed the debounced press-downs. */
  lemma {:induction false} NeverOvertold(t: Timing, samples: seq<Raw>)
    ensures Told(t, samples) + Open(After(t, samples)) <= Downs(t, samples)
  {
    if samples != [] {
      NeverOvertold(t, Init(samples));
      PollAccounts(t, After(t, Init(samples)), LastOf(samples).now, LastOf(samples).raw);
    }
  }

  /** Polls at most a millisecond apart. */
  ghost predicate EveryMs(samples: seq<Raw>) {
    forall i :: 0 <= i < |samples| - 1 ==> samples[i].now <= samples[i + 1].now <= samples[i].now + 1
  }

  /** What fast polling keeps: a pending release is still within its gap, and a press
      under way began after it. */
  ghost predicate Punctual(t: Timing, b: Button, clock: nat) {
    b.pending ==> b.lastRelease <= clock < b.lastRelease + t.gapMs && (b.stable ==> b.lastRelease <= b.pressStart)
  }

  lemma PunctualPoll(t: Timing, b: Button, clock: nat, now: nat, raw: bool)
    requires Punctual(t, b, clock) && clock <= now <= clock + 1 && t.longMs > t.gapMs
    ensures Punctual(t, PollButton(t, b, now, raw).0, now) && !Loses(t, b, now, raw)
  {
    var b1 := Debounce(t, b, now, raw).0;
    var b2 := CheckLong(t, b1, now).0;
    assert b2.pending ==> b2.lastRelease <= now && (b2.stable ==> b2.lastRelease <= b2.pressStart);
  }

  /** With polls at most 1 ms apart and a long press longer than the double-press gap,
      every press-down becomes exactly one gesture or is still open. */
  lemma {:induction false} NothingLostAtFullRate(t: Timing, samples: seq<Raw>)
    requires EveryMs(samples) && t.longMs > t.gapMs
    ensures Told(t, samples) + Open(After(t, samples)) == Downs(t, samples)
    ensures samples != [] ==> Punctual(t, After(t, samples), LastOf(samples).now)
  {
    if samples != [] {
      var prior, last := Init(samples), LastOf(samples);
      assert forall i :: 0 <= i < |prior| ==> prior[i] == samples[i];
      NothingLostAtFullRate(t, prior);
      PollAccounts(t, After(t, prior), last.now, last.raw);
      if prior == [] {
        assert Punctual(t, FRESH_BUTTON, last.now);
        PunctualPoll(t, After(t, prior), last.now, last.now, last.raw);
      } else {
        assert LastOf(prior) == samples[|samples| - 2];
        PunctualPoll(t, After(t, prior), LastOf(prior).now, last.now, last.raw);
      }
    }
  }

  // ---------- the sequence matcher ----------

  /** One short press as the matcher sees it. */
  datatype Tap = Tap(button: nat, now: nat)

  function ProgressAfter(def: Def, taps: seq<Tap>): (p: Progress)
    requires def.buttons != []
    ensures p.count < |def.buttons|
  {
    if taps == [] then Progress(0, 0, false)
    else Match(def, ProgressAfter(def, Init(taps)), LastOf(taps).button, LastOf(taps).now)
  }

  predicate FiredBy(def: Def, taps: seq<Tap>)
    requires def.buttons != []
  {
    taps != [] && Fires(def, ProgressAfter(def, Init(taps)), LastOf(taps).button, LastOf(taps).now)
  }

  /** The last `n` taps are the first `n` buttons of the pattern. */
  ghost predicate EndsWith(def: Def, taps: seq<Tap>, n: nat) {
    n <= |def.buttons| && n <= |taps| && forall i :: 0 <= i < n ==> taps[|taps| - n + i].button == def.buttons[i]
  }

  /** The pattern has just been tapped, all within the window of its first tap. */
  ghost predicate Occurs(def: Def, taps: seq<Tap>) {
    var n := |def.buttons|;
    && 0 < n && EndsWith(def, taps, n)
    && (n == 1 || LastOf(taps).now - taps[|taps| - n].now < def.windowMs)
  }

  lemma {:induction false} ProgressMeans(def: Def, taps: seq<Tap>)
    requires def.buttons != []
    ensures var p := ProgressAfter(def, taps);
            EndsWith(def, taps, p.count) && (p.count > 0 ==> p.start == taps[|taps| - p.count].now)
  {
    if taps != [] {
      var prior, last := Init(taps), LastOf(taps);
      ProgressMeans(def, prior);
      var p1 := Timeout(def, ProgressAfter(def, prior), last.now);
      var p := ProgressAfter(def, taps);
      if p.count == p1.count + 1 {
        forall i | 0 <= i < p.count ensures taps[|taps| - p.count + i].button == def.buttons[i] {
          if i < p1.count { assert taps[|taps| - p.count + i] == prior[|prior| - p1.count + i]; }
        }
      }
    }
  }

  /** A sequence fires only on its whole pattern, within its window. */
  lemma FiresOnlyOnPattern(def: Def, taps: seq<Tap>)
    requires def.buttons != [] && FiredBy(def, taps)
    ensures Occurs(def, taps)
  {
    var prior, last := Init(taps), LastOf(taps);
    ProgressMeans(def, prior);
    var p1 := Timeout(def, ProgressAfter(def, prior), last.now);
    var n := |def.buttons|;
    forall i | 0 <= i < n ensures taps[|taps| - n + i].button == def.buttons[i] {
      if i < p1.count { assert taps[|taps| - n + i] == prior[|prior| - p1.count + i]; }
    }
  }

  ghost predicate InOrder(taps: seq<Tap>) {
    forall i, j :: 0 <= i < j < |taps| ==> taps[i].now <= taps[j].now
  }

  ghost predicate FirstRecurs(def: Def) {
    exists k :: 1 <= k < |def.buttons| && def.buttons[k] == def.buttons[0]
  }

  /** The first button recurs before the last position. */
  ghost predicate RecursInside(def: Def) {
    exists k :: 1 <= k < |def.buttons| - 1 && def.buttons[k] == def.buttons[0]
  }

  /** The sequence fires on none of the occurrence's taps but, perhaps, the last. */
  ghost predicate QuietInside(def: Def, taps: seq<Tap>)
    requires def.buttons != [] && |def.buttons| <= |taps|
  {
    forall j :: |taps| - |def.buttons| < j < |taps| ==> !FiredBy(def, taps[..j])
  }

  /** Where the last `n` taps began, whatever was tapped since. */
  function Onset(taps: seq<Tap>, n: nat): seq<Tap>
    requires 1 <= n <= |taps|
  {
    taps[..|taps| - n + 1]
  }

  lemma OneTapEarlier(def: Def, taps: seq<Tap>, n: nat)
    requires 2 <= n && EndsWith(def, taps, n) && InOrder(taps)
    ensures var prior := Init(taps);
            && EndsWith(def, prior, n - 1) && InOrder(prior) && Onset(prior, n - 1) == Onset(taps, n)
            && taps[|taps| - n] == prior[|prior| - (n - 1)] && LastOf(prior).now <= LastOf(taps).now
            && LastOf(taps).button == def.buttons[n - 1]
  {
    var prior := Init(taps);
    forall i | 0 <= i < n - 1 ensures prior[|prior| - (n - 1) + i].button == def.buttons[i] {
      assert prior[|prior| - (n - 1) + i] == taps[|taps| - n + i];
    }
    assert taps[|taps| - n + (n - 1)].button == def.buttons[n - 1];
  }

  lemma FirstTap(def: Def, p: Progress, now: nat)
    requires |def.buttons| > 1 && p.count < |def.buttons| && !RecursInside(def) && !Fires(def, p, def.buttons[0], now)
    ensures Match(def, p, def.buttons[0], now).count == 1 && Match(def, p, def.buttons[0], now).start == now
  {
  }

  lemma NextTap(def: Def, p: Progress, now: nat)
    requires 1 <= p.count < |def.buttons| && p.start <= now < p.start + def.windowMs
    ensures var n, b := |def.buttons|, def.buttons[p.count];
            && (Fires(def, p, b, now) <==> p.count == n - 1)
            && (p.count < n - 1 ==> Match(def, p, b, now).count == p.count + 1 && Match(def, p, b, now).start == p.start)
  {
  }

  /** Inside an occurrence whose first tap fires nothing, progress is exactly the number of its
      taps so far, unless the pattern's first button recurs inside. */
  lemma {:induction false} TracksPattern(def: Def, taps: seq<Tap>, n: nat)
    requires def.buttons != [] && !RecursInside(def) && 1 <= n < |def.buttons| && EndsWith(def, taps, n) && InOrder(taps)
    requires LastOf(taps).now - taps[|taps| - n].now < def.windowMs && !FiredBy(def, Onset(taps, n))
    ensures var p := ProgressAfter(def, taps); p.count == n && p.start == taps[|taps| - n].now
    decreases n
  {
    hide Match, Fires, RecursInside;
    var prior, last := Init(taps), LastOf(taps);
    if n > 1 {
      hide FiredBy, EndsWith, Onset;
      OneTapEarlier(def, taps, n);
      StartsEarlier(taps, n);
      TracksPattern(def, prior, n - 1);
      NextTap(def, ProgressAfter(def, prior), last.now);
    } else {
      assert Onset(taps, 1) == taps;
      assert last.button == taps[|taps| - n + 0].button == def.buttons[0];
      FirstTap(def, ProgressAfter(def, prior), last.now);
    }
  }

  lemma StartsEarlier(taps: seq<Tap>, n: nat)
    requires 1 <= n <= |taps| && InOrder(taps)
    ensures taps[|taps| - n].now <= LastOf(taps).now
  {
  }

  /** So such an occurrence fires, if no firing fell inside it. */
  lemma FiresUnlessFired(def: Def, taps: seq<Tap>)
    requires def.buttons != [] && !RecursInside(def) && Occurs(def, taps) && InOrder(taps)
    requires |def.buttons| > 1 ==> !FiredBy(def, Onset(taps, |def.buttons|))
    ensures FiredBy(def, taps)
  {
    hide Match, Fires, RecursInside, ProgressAfter;
    var prior, n := Init(taps), |def.buttons|;
    if n > 1 {
      hide EndsWith, Onset;
      OneTapEarlier(def, taps, n);
      StartsEarlier(taps, n);
      TracksPattern(def, prior, n - 1);
      NextTap(def, ProgressAfter(def, prior), LastOf(taps).now);
    } else {
      assert LastOf(taps).button == taps[|taps| - n + 0].button == def.buttons[0];
      OneButtonFires(def, ProgressAfter(def, prior), LastOf(taps).now);
    }
  }

  lemma OneButtonFires(def: Def, p: Progress, now: nat)
    requires |def.buttons| == 1 && p.count < |def.buttons|
    ensures Fires(def, p, def.buttons[0], now)
  {
  }

  lemma FiresOnPattern(def: Def, taps: seq<Tap>)
    requires def.buttons != [] && !FirstRecurs(def) && Occurs(def, taps) && InOrder(taps)
    ensures FiredBy(def, taps)
  {
    var n := |def.buttons|;
    if n > 1 {
      var start := Onset(taps, n);
      assert LastOf(start).button == taps[|taps| - n + 0].button == def.buttons[0];
    }
    FiresUnlessFired(def, taps);
  }

  // A pattern whose first button recurs can be missed: tap it after its own beginning.

  /** `buttons` tapped all at once. */
  function TapAll(buttons: seq<nat>): seq<Tap> {
    seq(|buttons|, i requires 0 <= i < |buttons| => Tap(buttons[i], 0))
  }

  lemma {:induction false} FirstPart(def: Def, k: nat)
    requires def.windowMs > 0 && k < |def.buttons|
    ensures ProgressAfter(def, TapAll(def.buttons[..k])) == Progress(k, 0, false)
  {
    if k > 0 {
      assert Init(TapAll(def.buttons[..k])) == TapAll(def.buttons[..k - 1]);
      FirstPart(def, k - 1);
    }
  }

  lemma {:induction false} FallsBehind(def: Def, k: nat, j: nat)
    requires def.windowMs > 0 && 1 <= k < |def.buttons| && def.buttons[k] == def.buttons[0] && 1 <= j < |def.buttons|
    ensures var p := ProgressAfter(def, TapAll(def.buttons[..k] + def.buttons[..j]));
            p.start == 0 && (p.count == k + j || p.count <= j - 1)
    decreases j
  {
    var taps := TapAll(def.buttons[..k] + def.buttons[..j]);
    assert Init(taps) == TapAll(def.buttons[..k] + def.buttons[..j - 1]);
    if j == 1 {
      assert def.buttons[..k] + def.buttons[..0] == def.buttons[..k];
      FirstPart(def, k);
    } else {
      FallsBehind(def, k, j - 1);
    }
  }

  lemma TappedOccurs(def: Def, before: seq<nat>)
    requires def.windowMs > 0 && def.buttons != []
    ensures Occurs(def, TapAll(before + def.buttons)) && InOrder(TapAll(before + def.buttons))
  {
    var taps, n := TapAll(before + def.buttons), |def.buttons|;
    forall i | 0 <= i < n ensures taps[|taps| - n + i].button == def.buttons[i] {
      assert (before + def.buttons)[|before| + i] == def.buttons[i];
    }
  }

  lemma MissesPattern(def: Def, k: nat)
    requires def.windowMs > 0 && 1 <= k < |def.buttons| && def.buttons[k] == def.buttons[0]
    ensures !FiredBy(def, TapAll(def.buttons[..k] + def.buttons))
  {
    var n := |def.buttons|;
    var taps := TapAll(def.buttons[..k] + def.buttons);
    assert Init(taps) == TapAll(def.buttons[..k] + def.buttons[..n - 1]);
    FallsBehind(def, k, n - 1);
    assert LastOf(taps).now == 0;
    assert ProgressAfter(def, Init(taps)).count < n - 1;
  }

  /** Every occurrence fires the sequence exactly when its first button does not recur. */
  lemma CompleteExactly(def: Def)
    requires def.buttons != [] && def.windowMs > 0
    ensures (forall taps :: InOrder(taps) && Occurs(def, taps) ==> FiredBy(def, taps)) <==> !FirstRecurs(def)
  {
    if FirstRecurs(def) {
      var k :| 1 <= k < |def.buttons| && def.buttons[k] == def.buttons[0];
      MissesPattern(def, k);
      TappedOccurs(def, def.buttons[..k]);
    } else {
      forall taps | InOrder(taps) && Occurs(def, taps) ensures FiredBy(def, taps) { FiresOnPattern(def, taps); }
    }
  }

  // A pattern whose first button recurs inside can be missed even where nothing else fires: tap
  // its beginning long before, so that the window it opened closes inside the occurrence.

  /** The pattern, its first tap just before the window of time 0 closes, the others just after. */
  function LateTaps(def: Def): seq<Tap>
    requires def.buttons != [] && def.windowMs > 0
  {
    seq(|def.buttons|, i requires 0 <= i < |def.buttons| => Tap(def.buttons[i], if i == 0 then def.windowMs - 1 else def.windowMs))
  }

  lemma LateTapsOccur(def: Def, k: nat)
    requires def.windowMs > 1 && 1 <= k < |def.buttons|
    ensures var taps := TapAll(def.buttons[..k]) + LateTaps(def); Occurs(def, taps) && InOrder(taps)
  {
    hide TapAll, LateTaps, EndsWith, InOrder;
    var head, late := TapAll(def.buttons[..k]), LateTaps(def);
    TimesOf(def, k);
    EndsWithAppend(def, head, late);
    InOrderAppend(head, late, 0);
  }

  lemma TimesOf(def: Def, k: nat)
    requires def.windowMs > 1 && 1 <= k < |def.buttons|
    ensures var head, late := TapAll(def.buttons[..k]), LateTaps(def);
            && |head| == k && |late| == |def.buttons| && InOrder(late)
            && (forall i :: 0 <= i < k ==> head[i].now == 0)
            && late[0].now == def.windowMs - 1 && late[|late| - 1].now == def.windowMs
            && (forall i :: 0 <= i < |late| ==> late[i].button == def.buttons[i])
  {
  }

  lemma EndsWithAppend(def: Def, head: seq<Tap>, late: seq<Tap>)
    requires |late| == |def.buttons| > 0 && forall i :: 0 <= i < |late| ==> late[i].button == def.buttons[i]
    ensures var taps := head + late;
            && EndsWith(def, taps, |late|) && LastOf(taps) == late[|late| - 1] && taps[|taps| - |late|] == late[0]
  {
    var taps := head + late;
    forall i | 0 <= i < |late| ensures taps[|taps| - |late| + i].button == def.buttons[i] {
      assert taps[|head| + i] == late[i];
    }
  }

  lemma InOrderAppend(a: seq<Tap>, b: seq<Tap>, mid: nat)
    requires InOrder(a) && InOrder(b)
    requires (forall i :: 0 <= i < |a| ==> a[i].now == mid) && (forall i :: 0 <= i < |b| ==> mid <= b[i].now)
    ensures InOrder(a + b)
  {
  }

  /** After `j` of the late taps the matcher is behind by one at least, and it has not fired. */
  lemma {:induction false} LateTapsFallBehind(def: Def, k: nat, j: nat)
    requires def.windowMs > 1 && 1 <= k < |def.buttons| - 1 && def.buttons[k] == def.buttons[0] && 1 <= j < |def.buttons|
    ensures var taps := TapAll(def.buttons[..k]) + LateTaps(def)[..j]; var p := ProgressAfter(def, taps);
            && !FiredBy(def, taps)
            && (if j == 1 then p == Progress(k + 1, 0, p.fired) else p.count <= j - 1 && (p.count > 0 ==> p.start == def.windowMs))
    decreases j
  {
    var head := TapAll(def.buttons[..k]);
    var taps := head + LateTaps(def)[..j];
    assert Init(taps) == head + LateTaps(def)[..j - 1];
    assert LastOf(taps) == LateTaps(def)[j - 1];
    if j == 1 {
      assert head + LateTaps(def)[..0] == head;
      FirstPart(def, k);
    } else {
      LateTapsFallBehind(def, k, j - 1);
    }
  }

  lemma LateTapsAreMissed(def: Def, k: nat)
    requires def.windowMs > 1 && 1 <= k < |def.buttons| - 1 && def.buttons[k] == def.buttons[0]
    ensures var taps := TapAll(def.buttons[..k]) + LateTaps(def); QuietInside(def, taps) && !FiredBy(def, taps)
  {
    var n, head := |def.buttons|, TapAll(def.buttons[..k]);
    var taps := head + LateTaps(def);
    forall j | |taps| - n < j < |taps| ensures !FiredBy(def, taps[..j]) {
      assert taps[..j] == head + LateTaps(def)[..j - k];
      LateTapsFallBehind(def, k, j - k);
    }
    assert Init(taps) == head + LateTaps(def)[..n - 1];
    LateTapsFallBehind(def, k, n - 1);
  }

  /** An occurrence with no firing inside it always fires the sequence exactly when the first
      button does not recur before the last position: [A, A] and [A, B, A] are safe, [A, A, B] is
      not. (A window of one millisecond leaves no time for anything to close inside.) */
  lemma QuietOccurrencesFireExactly(def: Def)
    requires def.buttons != [] && def.windowMs > 1
    ensures (forall taps :: InOrder(taps) && Occurs(def, taps) && QuietInside(def, taps) ==> FiredBy(def, taps)) <==> !RecursInside(def)
  {
    if RecursInside(def) {
      var k :| 1 <= k < |def.buttons| - 1 && def.buttons[k] == def.buttons[0];
      LateTapsAreMissed(def, k);
      LateTapsOccur(def, k);
    } else {
      forall taps | InOrder(taps) && Occurs(def, taps) && QuietInside(def, taps) ensures FiredBy(def, taps) {
        assert Onset(taps, |def.buttons|) == taps[..|taps| - |def.buttons| + 1];
        FiresUnlessFired(def, taps);
      }
    }
  }
}
