/**
 The fixture's calendar: trades spread over 90 days, with one deliberately shared day.
 Instants are milliseconds since the epoch, in UTC.
 */
module Calendar {
  const TRADE_COUNT: nat := 70

  /** 2026-08-24, as a day number since the epoch. */
  const AS_OF_DAY: int := 20689

  const MINUTE: int := 60_000
  const DAY: int := 86_400_000

  /** The spread over count trades, before any collision. */
  function DaysAgo(index: nat, count: nat): int
    requires 2 <= count
  {
    89 - index * 89 / (count - 1)
  }

  /** SAME_DAY_TRADE_INDICES: 39 and 40 join the day of 38. */
  function DayIndex(index: nat): nat {
    if index == 39 || index == 40 then 38 else index
  }

  function Day(index: nat): int {
    AS_OF_DAY - DaysAgo(DayIndex(index), TRADE_COUNT)
  }

  function DateForIndex(index: nat, hour: nat, minute: nat): int {
    Day(index) * DAY + (hour * 60 + minute) * MINUTE
  }

  // ------------------------------------------------------------------ spread

  lemma CancelLess(a: int, b: int, d: int)
    requires 0 < d && a * d < b * d
    ensures a < b
  {
  }

  lemma QuotientAtLeast(b: int, d: int, q: int)
    requires 0 < d && q * d <= b
    ensures q <= b / d
  {
    var r := b / d;
    assert (r + 1) * d == r * d + d;
    CancelLess(q, r + 1, d);
  }

  lemma QuotientAtMost(b: int, d: int, q: int)
    requires 0 < d && b <= q * d
    ensures b / d <= q
  {
    assert (q + 1) * d == q * d + d;
    CancelLess(b / d, q + 1, d);
  }

  lemma QuotientGrows(a: int, b: int, d: int)
    requires 0 < d && a + d <= b
    ensures a / d < b / d
  {
    assert (a / d + 1) * d == a / d * d + d;
    QuotientAtLeast(b, d, a / d + 1);
  }

  /** The spread starts 89 days ago, ends today and never leaves that window. */
  lemma SpreadWindow(index: nat, count: nat)
    requires 2 <= count && index < count
    ensures DaysAgo(0, count) == 89 && DaysAgo(count - 1, count) == 0
    ensures 0 <= DaysAgo(index, count) <= 89
  {
    var d := count - 1;
    QuotientAtLeast(d * 89, d, 89);
    QuotientAtMost(d * 89, d, 89);
    QuotientAtLeast(index * 89, d, 0);
    QuotientAtMost(index * 89, d, 89);
    QuotientAtLeast(0, d, 0);
    QuotientAtMost(0, d, 0);
  }

  /** No two trades share a day exactly when there are at most 90 of them. */
  lemma SpreadIsInjective(count: nat)
    requires 2 <= count
    ensures (forall i: nat, j: nat | i < j < count :: DaysAgo(j, count) < DaysAgo(i, count)) <==> count <= 90
  {
    var d := count - 1;
    if count <= 90 {
      forall i: nat, j: nat | i < j < count
        ensures DaysAgo(j, count) < DaysAgo(i, count)
      {
        QuotientGrows(i * 89, j * 89, d);
      }
    } else {
      QuotientAtLeast(89, d, 0);
      assert 89 / d == 0;
      assert DaysAgo(1, count) == DaysAgo(0, count);
    }
  }

  /** On the fixture's 70 trades the days never run backwards, and only 38, 39 and 40 share one. */
  lemma OneSharedDay(i: nat, j: nat)
    requires i < j < TRADE_COUNT
    ensures Day(i) <= Day(j)
    ensures Day(i) == Day(j) <==> 38 <= i && j <= 40
  {
    SpreadIsInjective(TRADE_COUNT);
    var a, b := DayIndex(i), DayIndex(j);
    if a < b {
      assert DaysAgo(b, TRADE_COUNT) < DaysAgo(a, TRADE_COUNT);
    }
  }
}
