/** The wake-time rule of `scheduleSeedCheck` (bot.js lines 146-156): add
    `5 - minute % 5` minutes to the current time and truncate to the start of
    that minute; after each wake the bot runs one cycle and only then computes
    the next wake time from the clock. Time is wall-clock milliseconds. */
module Schedule {

  const MinuteMs: nat := 60000
  const SlotMinutes: nat := 5
  /** Five minutes, the polling period. */
  const SlotMs: nat := 300000

  /** Luxon's `minute`: the minute within the hour. */
  function MinuteOfHour(t: nat): nat {
    (t / MinuteMs) % 60
  }

  /** Luxon's `startOf('minute')`: seconds and milliseconds dropped. */
  function StartOfMinute(t: nat): (r: nat)
    ensures r % MinuteMs == 0
    ensures r <= t < r + MinuteMs
  {
    t / MinuteMs * MinuteMs
  }

  /** `nextCheck` of line 148. */
  function NextCheck(now: nat): nat {
    StartOfMinute(now + (SlotMinutes - MinuteOfHour(now) % SlotMinutes) * MinuteMs)
  }

  /** `waitMs` of line 149. */
  function Wait(now: nat): int {
    NextCheck(now) - now
  }

  /** Integer division is determined by any quotient/remainder pair. */
  lemma DivUnique(n: nat, d: nat, q: nat, r: nat)
    requires d > 0 && n == d * q + r && r < d
    ensures n / d == q && n % d == r
  {
    var q', r' := n / d, n % d;
    assert n == d * q' + r';
    if q' < q {
      MulStep(d, q', q);
    } else if q' > q {
      MulStep(d, q, q');
    }
  }

  lemma {:induction false} MulStep(d: nat, a: nat, b: nat)
    requires a < b
    ensures d * a + d <= d * b
    decreases b - a
  {
    assert d * (b - 1) + d == d * b;
    if a + 1 < b {
      MulStep(d, a, b - 1);
    }
  }

  /** The rule is the next multiple of five minutes strictly after `now`. */
  lemma NextCheckClosedForm(now: nat)
    ensures NextCheck(now) == SlotMs * (now / SlotMs + 1)
  {
    var m, s := now / MinuteMs, now % MinuteMs;
    var h, mh := m / 60, m % 60;
    var b, k := m / SlotMinutes, m % SlotMinutes;
    assert m == 60 * h + mh;
    assert mh % SlotMinutes == k by {
      assert m == SlotMinutes * (12 * h + mh / SlotMinutes) + mh % SlotMinutes;
      DivUnique(m, SlotMinutes, 12 * h + mh / SlotMinutes, mh % SlotMinutes);
    }
    assert MinuteOfHour(now) % SlotMinutes == k;
    var target := now + (SlotMinutes - k) * MinuteMs;
    assert target == MinuteMs * (SlotMinutes * (b + 1)) + s;
    DivUnique(target, MinuteMs, SlotMinutes * (b + 1), s);
    assert NextCheck(now) == SlotMs * (b + 1);
    assert now == SlotMs * b + (MinuteMs * k + s);
    DivUnique(now, SlotMs, b, MinuteMs * k + s);
  }

  /** The next check falls on a five-minute boundary (so its minute is a
      multiple of five and its seconds and milliseconds are zero), strictly
      after `now`, and no boundary lies strictly between the two. */
  lemma NextCheckAligned(now: nat)
    ensures NextCheck(now) % SlotMs == 0
    ensures NextCheck(now) % MinuteMs == 0
    ensures MinuteOfHour(NextCheck(now)) % SlotMinutes == 0
    ensures now < NextCheck(now) <= now + SlotMs
    ensures NextCheck(now) - SlotMs <= now
  {
    NextCheckClosedForm(now);
    var q := now / SlotMs + 1;
    DivUnique(SlotMs * q, SlotMs, q, 0);
    DivUnique(SlotMs * q, MinuteMs, SlotMinutes * q, 0);
    var h := q / 12;
    DivUnique(SlotMinutes * q, 60, h, SlotMinutes * (q % 12));
    DivUnique(SlotMinutes * (q % 12), SlotMinutes, q % 12, 0);
  }

  /** The wait is positive and at most five minutes; it is exactly five
      minutes when `now` sits on a boundary, so the bot never fires twice at
      the same boundary. */
  lemma WaitBounds(now: nat)
    ensures 0 < Wait(now) <= SlotMs
    ensures Wait(now) == SlotMs <==> now % SlotMs == 0
  {
    NextCheckClosedForm(now);
    NextCheckAligned(now);
    DivUnique(now, SlotMs, now / SlotMs, now % SlotMs);
  }

  /** 12:07:00 is followed by 12:10:00, and 12:10:00 by 12:15:00. */
  lemma NoonExamples()
    ensures NextCheck((12 * 60 + 7) * MinuteMs) == (12 * 60 + 10) * MinuteMs
    ensures NextCheck((12 * 60 + 10) * MinuteMs) == (12 * 60 + 15) * MinuteMs
  {
    NextCheckClosedForm((12 * 60 + 7) * MinuteMs);
    NextCheckClosedForm((12 * 60 + 10) * MinuteMs);
  }

  /** The wake times of the self-rescheduling loop: the first is computed
      when the bot becomes ready; `busy[i]` is the time from the i-th wake to
      the moment the cycle it started has settled (timer lateness included),
      after which the next wake is computed from the clock. */
  function WakeTimes(ready: nat, busy: seq<nat>): (ws: seq<nat>)
    ensures |ws| == |busy| + 1
    ensures ws[0] == NextCheck(ready)
    decreases |busy|
  {
    var w := NextCheck(ready);
    if |busy| == 0 then [w] else [w] + WakeTimes(w + busy[0], busy[1..])
  }

  /** Every wake is on a boundary, and the gap after the i-th wake is the
      fewest whole periods that cover its cycle: exactly one period when the
      cycle settles within five minutes, never less, and without drift. */
  lemma {:induction false} WakeTimesSpacing(ready: nat, busy: seq<nat>)
    ensures forall i :: 0 <= i < |busy| + 1 ==> WakeTimes(ready, busy)[i] % SlotMs == 0
    ensures forall i :: 0 <= i < |busy| ==>
      WakeTimes(ready, busy)[i + 1] == WakeTimes(ready, busy)[i] + SlotMs * (busy[i] / SlotMs + 1)
    decreases |busy|
  {
    var w := NextCheck(ready);
    NextCheckAligned(ready);
    if |busy| > 0 {
      WakeTimesSpacing(w + busy[0], busy[1..]);
      var ws := WakeTimes(ready, busy);
      assert ws[1..] == WakeTimes(w + busy[0], busy[1..]);
      NextCheckClosedForm(w + busy[0]);
      var k := w / SlotMs;
      DivUnique(w, SlotMs, k, 0);
      DivUnique(w + busy[0], SlotMs, k + busy[0] / SlotMs, busy[0] % SlotMs);
      assert ws[1] == w + SlotMs * (busy[0] / SlotMs + 1);
      forall i | 0 <= i < |busy|
        ensures ws[i + 1] == ws[i] + SlotMs * (busy[i] / SlotMs + 1)
      {
        if i > 0 {
          assert ws[i + 1] == ws[1..][i] && ws[i] == ws[1..][i - 1];
          assert busy[i] == busy[1..][i - 1];
        }
      }
      forall i | 0 <= i < |busy| + 1 ensures ws[i] % SlotMs == 0 {
        if i > 0 {
          assert ws[i] == ws[1..][i - 1];
        }
      }
    }
  }
}
