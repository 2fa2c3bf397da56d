/**
 * The day-streak counter: how many consecutive days, walking back from
 * today, have a record. The walk stops at the first day without one and
 * never goes further back than a year. Dates are day numbers (one per
 * calendar day, consecutive days differ by one); today is a parameter.
 */
module Streak {

  /** The walk looks at offsets 0 .. 364 from today. */
  const MaxWalk: nat := 365

  /** The day `k` days before `today`. */
  function DaysBack(today: int, k: int): int {
    today - k
  }

  /** The number of recorded days in the unbroken run starting `i` days before today. */
  function RunFrom(days: set<int>, today: int, i: nat): (n: nat)
    requires i <= MaxWalk
    ensures i + n <= MaxWalk
    decreases MaxWalk - i
  {
    if i == MaxWalk || DaysBack(today, i) !in days then 0 else 1 + RunFrom(days, today, i + 1)
  }

  /** The streak of a set of recorded days. */
  function StreakOf(days: set<int>, today: int): (n: nat)
    ensures n <= MaxWalk
    ensures n > 0 ==> today in days
  {
    RunFrom(days, today, 0)
  }

  /** The set the source builds with `new Set(recordDates)`. */
  function DaySet(recordDates: seq<int>): (days: set<int>)
    ensures forall d :: d in days <==> d in recordDates
    ensures |days| <= |recordDates|
  {
    DistinctAtMostLength(recordDates);
    set d | d in recordDates
  }

  /** A list has at most as many distinct elements as entries. */
  lemma {:induction false} DistinctAtMostLength(xs: seq<int>)
    ensures |set d | d in xs| <= |xs|
    decreases |xs|
  {
    if xs != [] {
      var init := xs[..|xs| - 1];
      DistinctAtMostLength(init);
      assert (set d | d in xs) == (set d | d in init) + {xs[|xs| - 1]} by {
        assert xs == init + [xs[|xs| - 1]];
      }
    }
  }

  /**
   * `calculateStreak`: for offsets 0 .. 364 the day `today - i` is looked
   * up; a hit increments the count, a miss ends the walk.
   */
  method CalculateStreak(recordDates: seq<int>, today: int) returns (count: nat)
    ensures count == StreakOf(DaySet(recordDates), today)
    ensures count <= MaxWalk
    ensures forall k :: 0 <= k < count ==> DaysBack(today, k) in recordDates
    ensures count < MaxWalk ==> DaysBack(today, count) !in recordDates
  {
    var dates := DaySet(recordDates);
    count := 0;
    for i := 0 to MaxWalk
      invariant count == i
      invariant forall k :: 0 <= k < i ==> DaysBack(today, k) in dates
      invariant StreakOf(dates, today) == count + RunFrom(dates, today, i)
    {
      if DaysBack(today, i) in dates {
        count := count + 1;
      } else {
        break;
      }
    }
  }

  /**
   * The streak is characterised by the run it counts: every day of the run
   * is recorded, and unless the cap was reached the day just before the run
   * is not. These two facts determine the streak.
   */
  lemma {:induction false} StreakCharacterization(days: set<int>, today: int, k: nat)
    requires k <= MaxWalk
    ensures StreakOf(days, today) == k <==>
      (forall j :: 0 <= j < k ==> DaysBack(today, j) in days) && (k < MaxWalk ==> DaysBack(today, k) !in days)
  {
    RunFromCharacterization(days, today, 0, k);
  }

  lemma {:induction false} RunFromCharacterization(days: set<int>, today: int, i: nat, k: nat)
    requires i <= k <= MaxWalk
    ensures i + RunFrom(days, today, i) == k <==>
      (forall j :: i <= j < k ==> DaysBack(today, j) in days) && (k < MaxWalk ==> DaysBack(today, k) !in days)
    decreases MaxWalk - i
  {
    if i < MaxWalk && DaysBack(today, i) in days {
      if i < k {
        RunFromCharacterization(days, today, i + 1, k);
      } else {
        assert i + RunFrom(days, today, i) > k;
      }
    }
  }

  /** The count is at most the one-year cap. */
  lemma StreakBounded(days: set<int>, today: int)
    ensures 0 <= StreakOf(days, today) <= MaxWalk
  {
  }

  /** Without a record for today the streak is 0, whatever earlier days hold. */
  lemma StreakNeedsToday(days: set<int>, today: int)
    requires today !in days
    ensures StreakOf(days, today) == 0
  {
  }

  /** Recording more days never shortens the streak. */
  lemma {:induction false} StreakMonotone(days: set<int>, more: set<int>, today: int)
    requires days <= more
    ensures StreakOf(days, today) <= StreakOf(more, today)
  {
    RunFromMonotone(days, more, today, 0);
  }

  lemma {:induction false} RunFromMonotone(days: set<int>, more: set<int>, today: int, i: nat)
    requires days <= more && i <= MaxWalk
    ensures RunFrom(days, today, i) <= RunFrom(more, today, i)
    decreases MaxWalk - i
  {
    if i < MaxWalk && DaysBack(today, i) in days {
      RunFromMonotone(days, more, today, i + 1);
    }
  }

  /** Days older than the first missing day never affect the result. */
  lemma StreakIgnoresOlderDays(days: set<int>, older: set<int>, today: int)
    requires forall d :: d in older ==> d < DaysBack(today, StreakOf(days, today))
    ensures StreakOf(days + older, today) == StreakOf(days, today)
  {
    var k := StreakOf(days, today);
    StreakCharacterization(days, today, k);
    StreakCharacterization(days + older, today, k);
  }

  /** Only the set of recorded dates counts: reordering or repeating them changes nothing. */
  lemma StreakIgnoresOrderAndRepeats(a: seq<int>, b: seq<int>, today: int)
    requires forall d :: d in a <==> d in b
    ensures StreakOf(DaySet(a), today) == StreakOf(DaySet(b), today)
  {
    forall d
      ensures d in DaySet(a) <==> d in DaySet(b)
    {
      assert d in DaySet(a) <==> d in a;
    }
    assert DaySet(a) == DaySet(b);
  }

  /**
   * The counter's expected values, with today as day 9: no days give 0;
   * today alone 1; today and yesterday 2; yesterday alone 0; three
   * consecutive days given out of order 3; today, yesterday and then three
   * days after a gap 2.
   */
  lemma StreakExamples()
    ensures StreakOf({}, 9) == 0
    ensures StreakOf({9}, 9) == 1
    ensures StreakOf({9, 8}, 9) == 2
    ensures StreakOf({8}, 9) == 0
    ensures StreakOf({7, 9, 8}, 9) == 3
    ensures StreakOf({9, 8, 5, 4, 3}, 9) == 2
  {
    StreakCharacterization({9}, 9, 1);
    StreakCharacterization({9, 8}, 9, 2);
    StreakCharacterization({7, 9, 8}, 9, 3);
    StreakCharacterization({9, 8, 5, 4, 3}, 9, 2);
  }
}
