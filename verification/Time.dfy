/**
  The millisecond clock is a 32-bit counter that wraps after 49.7 days. The other modules
  reckon in unbounded time; these lemmas say exactly when the firmware's comparisons
  (firmware/components/core/include/mc_types.h, mc_output.c, mc_lock.c) agree with that.
 */
module Time {
  const WRAP: int := 0x1_0000_0000
  const HALF: int := 0x8000_0000

  type word = x: int | 0 <= x < WRAP

  /** What the counter reads at time `t`. */
  function Word(t: nat): word {
    t % WRAP
  }

  /** mc_elapsed_at_least. */
  predicate ElapsedAtLeast(now: word, since: word, delta: word) {
    (now as int - since as int) % WRAP >= delta as int
  }

  /** A 32-bit difference read as a signed number. */
  function SignedDifference(a: word, b: word): (d: int)
    ensures -HALF <= d < HALF
  {
    var d := (a as int - b as int) % WRAP;
    if d < HALF then d else d - WRAP
  }

  lemma DifferenceIs(now: nat, since: nat)
    ensures (Word(now) as int - Word(since) as int) % WRAP == (now - since) % WRAP
  {
    var q := now / WRAP - since / WRAP;
    assert now - since == WRAP * q + (now % WRAP - since % WRAP);
    SameRemainder(now % WRAP - since % WRAP, q);
  }

  lemma SameRemainder(d: int, q: int)
    ensures (WRAP * q + d) % WRAP == d % WRAP
  {
    var p := d / WRAP;
    assert WRAP * q + d == WRAP * (q + p) + d % WRAP;
  }

  /** The elapsed-time test is right exactly while the gap has not wrapped, or the part
      beyond the wraps is long enough by itself. */
  lemma ElapsedAgrees(now: nat, since: nat, delta: word)
    requires since <= now
    ensures (ElapsedAtLeast(Word(now), Word(since), delta) <==> now - since >= delta as int)
            <==> now - since < WRAP || (now - since) % WRAP >= delta as int
  {
    DifferenceIs(now, since);
  }

  /** The auto-cancel test of a tick, on words: a stored zero means no deadline. */
  predicate DeadlineDue(now: word, deadline: word) {
    deadline != 0 && SignedDifference(now, deadline) >= 0
  }

  /** Within half a wrap the signed test is right, except for a deadline that falls on a
      multiple of the wrap: stored as zero, it is taken for none. */
  lemma DeadlineAgrees(now: nat, deadline: nat)
    requires -HALF <= now - deadline < HALF
    ensures (DeadlineDue(Word(now), Word(deadline)) <==> now >= deadline) <==> Word(deadline) != 0 || now < deadline
  {
    DifferenceIs(now, deadline);
  }

  /** The backoff test compares the counters directly. While the two times are less than a
      wrap apart it is right exactly when both fall between the same two wraps. */
  lemma BackoffAgrees(now: nat, until: nat)
    requires -WRAP < now - until < WRAP
    ensures (Word(now) >= Word(until) <==> now >= until) <==> now / WRAP == until / WRAP
  {
    var q := now / WRAP - until / WRAP;
    assert now - until == WRAP * q + (Word(now) as int - Word(until) as int);
  }

  /** A backoff that ends past the wrap is over at once. */
  lemma BackoffEndsEarlyAtWrap()
    ensures exists now: nat, until: nat :: now < until && until - now == 15000 && Word(now) >= Word(until)
  {
    var now: nat, until: nat := WRAP - 1, WRAP + 14999;
    assert Word(now) == WRAP - 1 && Word(until) == 14999;
  }

  /** A backoff that ends just before the wrap and was not looked at in time is not over,
      and stays so at every later tick until the counter comes round again. */
  lemma BackoffStuckAfterWrap(now: nat, until: nat)
    requires until / WRAP == now / WRAP - 1
    ensures now >= until && (Word(now) >= Word(until) <==> now >= until + WRAP)
  {
    assert now == WRAP * (now / WRAP) + Word(now) && until == WRAP * (until / WRAP) + Word(until);
    assert now - until == WRAP + Word(now) as int - Word(until) as int;
  }

  /** Ending five milliseconds short of the wrap is enough: not looked at before the wrap,
      the backoff is kept for another 49.7 days. */
  lemma BackoffStuckAtWrap()
    ensures forall later: nat :: WRAP <= later < 2 * WRAP - 5 ==> Word(later) < Word(WRAP - 5)
  {
    forall later: nat | WRAP <= later < 2 * WRAP - 5 ensures Word(later) < Word(WRAP - 5) {
      BackoffStuckAfterWrap(later, WRAP - 5);
    }
  }
}
