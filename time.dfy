/** Instants are epoch milliseconds. A calendar day is a fixed 86,400,000 ms, and the local
    time zone is a fixed offset `tzOffsetMs` (how far the local clock is ahead of UTC), so there
    is no daylight-saving shift. */
module Time {

  const DAY_MS: int := 86_400_000

  /** `startOfDay(t)`: local midnight of the local day containing `t`. */
  function StartOfDay(t: int, tzOffsetMs: int): (r: int)
    ensures r <= t < r + DAY_MS
    ensures (r + tzOffsetMs) % DAY_MS == 0
  {
    var local := t + tzOffsetMs;
    local - local % DAY_MS - tzOffsetMs
  }

  /** `endOfDay(t)`: the last millisecond of the local day containing `t` (23:59:59.999). */
  function EndOfDay(t: int, tzOffsetMs: int): (r: int)
    ensures t <= r < t + DAY_MS
    ensures (r + 1 + tzOffsetMs) % DAY_MS == 0
  {
    StartOfDay(t, tzOffsetMs) + DAY_MS - 1
  }

  /** `subDays(t, n)`: the same local time of day, `n` days earlier. */
  function SubDays(t: int, n: int): (r: int)
    ensures t - r == n * DAY_MS
  {
    t - n * DAY_MS
  }

  /** Moving back whole days keeps the local time of day, and moves the instant back by
      exactly that many days. */
  lemma SubDaysKeepsTimeOfDay(t: int, n: int, tzOffsetMs: int)
    ensures (SubDays(t, n) + tzOffsetMs) % DAY_MS == (t + tzOffsetMs) % DAY_MS
    ensures n >= 0 ==> SubDays(t, n) <= t
    ensures SubDays(SubDays(t, n), -n) == t
  {
    var local := t + tzOffsetMs;
    var q, r := local / DAY_MS, local % DAY_MS;
    assert SubDays(t, n) + tzOffsetMs == (q - n) * DAY_MS + r;
  }

  /** Local midnight is the only multiple of a day (in local time) at most one day before `t`. */
  lemma {:induction false} StartOfDayUnique(t: int, tzOffsetMs: int, m: int)
    requires m <= t < m + DAY_MS && (m + tzOffsetMs) % DAY_MS == 0
    ensures StartOfDay(t, tzOffsetMs) == m
  {
    var s := StartOfDay(t, tzOffsetMs);
    var k1 := (s + tzOffsetMs) / DAY_MS;
    var k2 := (m + tzOffsetMs) / DAY_MS;
    assert s + tzOffsetMs == k1 * DAY_MS;
    assert m + tzOffsetMs == k2 * DAY_MS;
    assert (k1 - k2) * DAY_MS < DAY_MS && (k2 - k1) * DAY_MS < DAY_MS;
  }

  /** Moving back whole days moves local midnight back by the same amount. */
  lemma StartOfDaySubDays(t: int, tzOffsetMs: int, n: int)
    ensures StartOfDay(SubDays(t, n), tzOffsetMs) == StartOfDay(t, tzOffsetMs) - n * DAY_MS
  {
    var m := StartOfDay(t, tzOffsetMs) - n * DAY_MS;
    assert (m + tzOffsetMs) % DAY_MS == 0 by {
      assert m + tzOffsetMs == (StartOfDay(t, tzOffsetMs) + tzOffsetMs) - n * DAY_MS;
    }
    StartOfDayUnique(SubDays(t, n), tzOffsetMs, m);
  }

  /** Every instant of a local day has the same start and end of day. */
  lemma SameDay(t: int, u: int, tzOffsetMs: int)
    requires StartOfDay(t, tzOffsetMs) <= u <= EndOfDay(t, tzOffsetMs)
    ensures StartOfDay(u, tzOffsetMs) == StartOfDay(t, tzOffsetMs)
    ensures EndOfDay(u, tzOffsetMs) == EndOfDay(t, tzOffsetMs)
  {
    StartOfDayUnique(u, tzOffsetMs, StartOfDay(t, tzOffsetMs));
  }
}
