/** The millisecond tick: real time, of which HAL_GetTick shows the low 32 bits. */
module Ticks {
  import opened Bits

  /** The longest wait of the driver, in ticks. */
  const MAX_WAIT := 200

  /** clock(i) is the real time after i commands or buffer bytes: it moves by a tick at least within every `period` of
      them, and between two by less than what the tick range leaves beside the longest wait. */
  ghost predicate ClockOk(clock: nat -> nat, period: nat) {
    && period > 0
    && (forall i: nat :: clock(i) <= clock(i + 1) < clock(i) + WORD - MAX_WAIT)
    && (forall i: nat :: clock(i) < clock(i + period))
  }

  /** HAL_GetTick() - t in 32 bits. */
  function Since(tick: word, t: word): (d: word) {
    (tick - t + WORD) % WORD
  }

  /** The difference of two ticks is the time between them, modulo the tick range: also when the tick has wrapped. */
  lemma SinceIsElapsed(early: nat, late: nat)
    requires early <= late
    ensures Since(late % WORD, early % WORD) == (late - early) % WORD
  {
  }

  lemma {:induction false} ClockGrows(clock: nat -> nat, period: nat, i: nat, j: nat)
    requires ClockOk(clock, period) && i <= j
    ensures clock(i) <= clock(j)
    decreases j - i
  {
    if i < j { ClockGrows(clock, period, i, j - 1); }
  }

  lemma {:induction false} ClockReaches(clock: nat -> nat, period: nat, i: nat, n: nat)
    requires ClockOk(clock, period)
    ensures clock(i + n * period) >= clock(i) + n
  {
    if n > 0 {
      ClockReaches(clock, period, i, n - 1);
      var j := i + (n - 1) * period;
      assert i + n * period == j + period;
      assert clock(j) < clock(j + period);
    }
  }

  lemma ClockStep(clock: nat -> nat, period: nat, i: nat)
    requires ClockOk(clock, period)
    ensures clock(i) <= clock(i + 1) < clock(i) + WORD - MAX_WAIT
  {
  }

  /** The tick difference never shows more than the time elapsed, and within a turn of the tick it shows it exactly. */
  lemma SinceInTurn(early: nat, late: nat, turn: nat)
    requires early <= late
    ensures Since(late % WORD, early % WORD) <= late - early
    ensures turn * WORD <= late - early < turn * WORD + WORD ==>
              Since(late % WORD, early % WORD) == late - early - turn * WORD
  {
    SinceIsElapsed(early, late);
    hide Since;
    var e, r := late - early, (late - early) % WORD;
    if turn * WORD <= e < turn * WORD + WORD { assert e / WORD == turn; }
  }

  /** A wait that has not yet lasted more than `limit` ticks has not seen many commands. */
  lemma StillWaiting(clock: nat -> nat, period: nat, start: nat, now: nat, limit: nat)
    requires ClockOk(clock, period) && start <= now && clock(now) - clock(start) <= limit
    ensures now < start + (limit + 1) * period
  {
    var end := start + (limit + 1) * period;
    ClockReaches(clock, period, start, limit + 1);
    if now >= end { ClockGrows(clock, period, end, now); }
  }
}
