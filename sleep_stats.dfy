/**
 * The sleep-statistics card: the three statistics with a `--:--`
 * placeholder, and the trend bar chart whose bar heights scale each
 * night's normalised bedtime between the earliest minus 30 minutes and the
 * latest plus 30 minutes. Heights are percentages, computed exactly as
 * reals.
 */
module SleepStats {
  import opened Wrappers
  import opened Clock
  import opened Insights

  const Placeholder: string := "--:--"
  const Margin: nat := 30
  const MinBarHeight: real := 4.0

  /** `stat || '--:--'`. */
  function Shown(stat: string): (s: string)
    ensures stat == "" ==> s == Placeholder
    ensures stat != "" ==> s == stat
  {
    if stat == "" then Placeholder else stat
  }

  /** Every non-empty time of the trend reads as an hour and a minute (the source would compute NaN otherwise). */
  predicate TimesParse(trend: seq<TrendPoint>) {
    forall i :: 0 <= i < |trend| && trend[i].time != "" ==> ParseTime(trend[i].time).Some?
  }

  /** `timeToMin`: 0 for an empty time, otherwise the noon-cutoff normalisation of the insights endpoint. */
  function TimeToMin(time: string): (m: nat)
    requires time != "" ==> ParseTime(time).Some?
    ensures time == "" <==> m == 0
    ensures time != "" ==> m >= NoonHour * 60
  {
    if time == "" then 0 else NormalizeTime(time)
  }

  function TrendMinutes(trend: seq<TrendPoint>): (ms: seq<nat>)
    requires TimesParse(trend)
    ensures |ms| == |trend|
    ensures forall i :: 0 <= i < |trend| ==> ms[i] == TimeToMin(trend[i].time)
  {
    seq(|trend|, i requires 0 <= i < |trend| && TimesParse(trend) => TimeToMin(trend[i].time))
  }

  /** `minMin`: the earliest minute less 30, or 0 for an empty trend. */
  function MinMin(ms: seq<nat>): (lo: int)
    ensures ms == [] ==> lo == 0
    ensures forall i :: 0 <= i < |ms| ==> lo + Margin <= ms[i]
  {
    if |ms| > 0 then MinOf(ms) - Margin else 0
  }

  /** `maxMin`: the latest minute plus 30, or 1 for an empty trend. */
  function MaxMin(ms: seq<nat>): (hi: int)
    ensures ms == [] ==> hi == 1
    ensures forall i :: 0 <= i < |ms| ==> ms[i] <= hi - Margin
    ensures MinMin(ms) < hi
  {
    if |ms| > 0 then MaxOf(ms) + Margin else 1
  }

  /** `maxMin - minMin || 1`. */
  function Range(ms: seq<nat>): (r: int)
    ensures r >= 1
    ensures |ms| > 0 ==> r == MaxOf(ms) - MinOf(ms) + 2 * Margin
  {
    var r := MaxMin(ms) - MinMin(ms);
    if |ms| > 0 then assert MinOf(ms) <= MaxOf(ms); r else if r == 0 then 1 else r
  }

  /** `((trendMinutes[i] - minMin) / range) * 100`. */
  function Height(ms: seq<nat>, i: nat): (h: real)
    requires i < |ms|
    ensures h > 0.0
  {
    var a, r := (ms[i] - MinMin(ms)) as real, Range(ms) as real;
    assert MinOf(ms) <= ms[i];
    assert (a / r) * r == a;
    (a / r) * 100.0
  }

  /** `Math.max(height, 4)`: the drawn bar is never lower than 4%. */
  function DisplayedHeight(h: real): (d: real)
    ensures d >= MinBarHeight && d >= h
    ensures d == h || d == MinBarHeight
  {
    if h > MinBarHeight then h else MinBarHeight
  }

  lemma RatioBelowOne(a: real, r: real)
    requires 0.0 < a < r
    ensures 0.0 < a / r < 1.0
  {
    assert a / r + (r - a) / r == r / r == 1.0;
    assert (r - a) / r > 0.0;
  }

  /** For a non-empty trend every raw height lies strictly between 0% and 100%. */
  lemma HeightInBounds(ms: seq<nat>, i: nat)
    requires i < |ms|
    ensures 0.0 < Height(ms, i) < 100.0
  {
    var a := ms[i] - MinMin(ms);
    assert MinOf(ms) <= ms[i] <= MaxOf(ms);
    RatioBelowOne(a as real, Range(ms) as real);
  }

  /** A trend of one night draws a bar of exactly 50%. */
  lemma SingleHeight(m: nat)
    ensures Height([m], 0) == 50.0
  {
    assert MinOf([m]) == m && MaxOf([m]) == m;
    assert Range([m]) == 60;
  }

  lemma RatioStrict(a: real, b: real, r: real)
    requires r > 0.0 && a < b
    ensures a / r < b / r
  {
    assert (a / r) * r == a && (b / r) * r == b;
  }

  /** A later normalised bedtime draws a taller bar, and equal bedtimes equal bars. */
  lemma HeightMonotone(ms: seq<nat>, i: nat, j: nat)
    requires i < |ms| && j < |ms|
    ensures ms[i] < ms[j] ==> Height(ms, i) < Height(ms, j)
    ensures ms[i] == ms[j] ==> Height(ms, i) == Height(ms, j)
  {
    var r := Range(ms) as real;
    var a, b := (ms[i] - MinMin(ms)) as real, (ms[j] - MinMin(ms)) as real;
    if ms[i] < ms[j] {
      RatioStrict(a, b, r);
    }
  }

  /** `date.slice(5)`: the date without its first five characters (empty if shorter). */
  function DropFive(s: string): (r: string)
    ensures |s| <= 5 ==> r == []
    ensures |s| >= 5 ==> s[..5] + r == s
  {
    if |s| <= 5 then "" else s[5..]
  }

  /** `time.slice(0, 5)`: at most the first five characters. */
  function TakeFive(s: string): (r: string)
    ensures |r| <= 5 && r <= s
    ensures |s| >= 5 ==> |r| == 5
  {
    if |s| <= 5 then s else s[..5]
  }

  /** The tooltip of a bar: month-day, a space, then "HH:MM". */
  function Tooltip(p: TrendPoint): (t: string)
    ensures |t| <= |p.date| + 6
    ensures |p.date| > 5 ==> |p.date| - 5 < |t| && t[..|p.date| - 5] == p.date[5..]
    ensures |p.time| >= 5 ==> 5 < |t| && t[|t| - 5..] == p.time[..5]
  {
    DropFive(p.date) + " " + TakeFive(p.time)
  }

  /** A database date and time give "MM-DD HH:MM": the year and the seconds are cut off. */
  lemma TooltipDropsYearAndSeconds(year: string, monthDay: string, hhmm: string, seconds: string)
    requires |year| == 4 && |hhmm| == 5
    ensures Tooltip(TrendPoint(year + "-" + monthDay, hhmm + ":" + seconds))
         == monthDay + " " + hhmm
  {
    var date := year + "-" + monthDay;
    if |date| > 5 {
      assert date[5..] == monthDay;
    }
    assert (hhmm + ":" + seconds)[..5] == hhmm;
  }

  /** The tooltip of 2024-02-05 at 01:15:00 reads "02-05 01:15". */
  lemma TooltipExample()
    ensures Tooltip(TrendPoint("2024-02-05", "01:15:00")) == "02-05 01:15"
  {
    TooltipDropsYearAndSeconds("2024", "02-05", "01:15", "00");
    assert "2024" + "-" + "02-05" == "2024-02-05";
    assert "01:15" + ":" + "00" == "01:15:00";
  }
}
