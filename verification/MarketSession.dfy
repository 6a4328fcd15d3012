/** Session and day boundaries in Indian Standard Time, over epoch milliseconds. */
module MarketSession {
  const MS_PER_MINUTE := 60_000
  const MS_PER_DAY := 24 * 60 * MS_PER_MINUTE
  const IST_OFFSET := 330 * MS_PER_MINUTE
  const SESSION_OPEN := (9 * 60 + 15) * MS_PER_MINUTE

  /** The UTC calendar midnight at or before an instant; Euclidean `%` also covers instants before 1970. */
  function MidnightOf(ms: int): int {
    ms - ms % MS_PER_DAY
  }

  function DayStart(now: int): int {
    MidnightOf(now + IST_OFFSET) - IST_OFFSET
  }

  function SessionStart(now: int): int {
    var ist := now + IST_OFFSET;
    var open := MidnightOf(ist) + SESSION_OPEN;
    (if open > ist then open - MS_PER_DAY else open) - IST_OFFSET
  }

  /** Midnight IST: a multiple of 24 hours from the IST epoch. */
  predicate IsMidnight(t: int) { (t + IST_OFFSET) % MS_PER_DAY == 0 }

  /** 09:15 IST. */
  predicate IsOpen(t: int) { (t + IST_OFFSET - SESSION_OPEN) % MS_PER_DAY == 0 }

  lemma WindowUnique(a: int, b: int, t: int)
    requires a % MS_PER_DAY == b % MS_PER_DAY
    requires a <= t < a + MS_PER_DAY && b <= t < b + MS_PER_DAY
    ensures a == b
  {
    assert a / MS_PER_DAY == b / MS_PER_DAY;
  }

  /** `dayStart` is the one midnight IST whose 24 hours contain the instant. */
  lemma DayStartIsTheMidnight(now: int, m: int)
    ensures m == DayStart(now) <==> IsMidnight(m) && m <= now < m + MS_PER_DAY
  {
    var d := DayStart(now);
    assert d + IST_OFFSET == MidnightOf(now + IST_OFFSET);
    assert IsMidnight(d) && d <= now < d + MS_PER_DAY;
    if IsMidnight(m) && m <= now < m + MS_PER_DAY {
      WindowUnique(m + IST_OFFSET, d + IST_OFFSET, now + IST_OFFSET);
    }
  }

  /** `sessionStart` is the one 09:15 IST whose 24 hours contain the instant. */
  lemma SessionStartIsTheOpen(now: int, m: int)
    ensures m == SessionStart(now) <==> IsOpen(m) && m <= now < m + MS_PER_DAY
  {
    var s := SessionStart(now);
    assert (s + IST_OFFSET - SESSION_OPEN) % MS_PER_DAY == 0;
    assert s <= now < s + MS_PER_DAY;
    if IsOpen(m) && m <= now < m + MS_PER_DAY {
      WindowUnique(m + IST_OFFSET - SESSION_OPEN, s + IST_OFFSET - SESSION_OPEN, now + IST_OFFSET - SESSION_OPEN);
    }
  }

  /** Days are disjoint windows: two instants share a day exactly when one lies in the other's window. */
  lemma DaysPartitionTime(t: int, u: int)
    ensures DayStart(t) == DayStart(u) <==> DayStart(t) <= u < DayStart(t) + MS_PER_DAY
    ensures t <= u ==> DayStart(t) <= DayStart(u)
  {
    DayStartIsTheMidnight(t, DayStart(t));
    DayStartIsTheMidnight(u, DayStart(t));
    DayStartIsTheMidnight(u, DayStart(u));
  }
}
