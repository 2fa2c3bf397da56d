/**
 * The insights endpoint: a tally of the reasons the AI found across the
 * records, its top five, the cross-midnight sleep-time statistics, the
 * trend of the last fourteen records and the gate for the AI pattern
 * analysis. Records arrive in ascending date order from the query; the
 * query, the subscription lookup, the AI call and `JSON.parse` are
 * parameters.
 */
module Insights {
  import opened Wrappers
  import opened Strings
  import opened Clock
  import opened Subscription
  import opened AiReply

  datatype ReasonItem = ReasonItem(reason: string, confidence: int)

  /** The stored analysis of a record; `top_reasons` may be missing. */
  datatype AnalysisData = AnalysisData(topReasons: Option<seq<ReasonItem>>)

  datatype SleepRecord = SleepRecord(
    recordDate: string,
    sleepTime: string,
    reasonText: string,
    analysis: Option<AnalysisData>)

  /** One entry of the reason tally, and of the top-reasons list. */
  datatype ReasonCount = ReasonCount(reason: string, count: nat)

  function Min(a: nat, b: nat): nat {
    if a < b then a else b
  }

  // ---------------------------------------------------------------------
  // Reason tally

  /** The reasons of one record's analysis, in order; none without an analysis or its `top_reasons`. */
  function ItemReasons(r: SleepRecord): (names: seq<string>)
    ensures r.analysis.None? || r.analysis.value.topReasons.None? ==> names == []
    ensures r.analysis.Some? && r.analysis.value.topReasons.Some? ==>
      var items := r.analysis.value.topReasons.value;
      |names| == |items| && forall i :: 0 <= i < |items| ==> names[i] == items[i].reason
  {
    match r.analysis
    case None => []
    case Some(a) =>
      match a.topReasons
      case None => []
      case Some(items) => ReasonNames(items)
  }

  function ReasonNames(items: seq<ReasonItem>): (names: seq<string>)
    ensures |names| == |items|
    ensures forall i :: 0 <= i < |items| ==> names[i] == items[i].reason
  {
    seq(|items|, i requires 0 <= i < |items| => items[i].reason)
  }

  /** Every reason the tally visits, record by record. */
  function ReasonsOf(records: seq<SleepRecord>): (names: seq<string>)
    ensures records == [] ==> names == []
    ensures records != [] ==> ReasonsOf(records[..|records| - 1]) <= names
  {
    if records == [] then [] else ReasonsOf(records[..|records| - 1]) + ItemReasons(records[|records| - 1])
  }

  lemma SubMultisetOfSum(a: multiset<string>, b: multiset<string>, c: multiset<string>)
    requires a <= b
    ensures a <= b + c && a <= c + b
  {
  }

  lemma SumContainsPart(b: multiset<string>, c: multiset<string>)
    ensures b <= c + b
  {
  }

  /** Every reason of every record is visited, as often as the record lists it. */
  lemma {:induction false} ReasonsOfCoversEach(records: seq<SleepRecord>)
    ensures forall i :: 0 <= i < |records| ==> multiset(ItemReasons(records[i])) <= multiset(ReasonsOf(records))
  {
    if records != [] {
      var init := records[..|records| - 1];
      var last := ItemReasons(records[|records| - 1]);
      ReasonsOfCoversEach(init);
      assert ReasonsOf(records) == ReasonsOf(init) + last;
      assert multiset(ReasonsOf(records)) == multiset(ReasonsOf(init)) + multiset(last);
      forall i | 0 <= i < |records|
        ensures multiset(ItemReasons(records[i])) <= multiset(ReasonsOf(records))
      {
        var own := multiset(ItemReasons(records[i]));
        if i < |init| {
          assert records[i] == init[i];
          SubMultisetOfSum(own, multiset(ReasonsOf(init)), multiset(last));
        } else {
          assert i == |records| - 1;
          SumContainsPart(multiset(last), multiset(ReasonsOf(init)));
        }
      }
    }
  }

  /**
   * `reasonCounts[reason] = (reasonCounts[reason] || 0) + 1`: the entry of
   * `reason` goes up by one; a new reason is added at the end with count 1.
   * The tally keeps insertion order, as `Object.entries` reports it.
   */
  function Bump(tally: seq<ReasonCount>, reason: string): (t: seq<ReasonCount>)
    ensures |t| == |tally| || |t| == |tally| + 1
  {
    if tally == [] then [ReasonCount(reason, 1)]
    else if tally[0].reason == reason then [ReasonCount(reason, tally[0].count + 1)] + tally[1..]
    else [tally[0]] + Bump(tally[1..], reason)
  }

  /** The tally after visiting `names` in order. */
  function Tally(names: seq<string>): (t: seq<ReasonCount>)
    ensures |t| <= |names|
    ensures names != [] ==> t != []
  {
    if names == [] then [] else Bump(Tally(names[..|names| - 1]), names[|names| - 1])
  }

  function TallyOf(records: seq<SleepRecord>): seq<ReasonCount> {
    Tally(ReasonsOf(records))
  }

  /** The count the tally holds for `r`, summed over its entries. */
  function CountIn(tally: seq<ReasonCount>, r: string): nat {
    if tally == [] then 0 else (if tally[0].reason == r then tally[0].count else 0) + CountIn(tally[1..], r)
  }

  /** The reasons that have an entry in the tally (its keys). */
  function Keys(tally: seq<ReasonCount>): set<string> {
    if tally == [] then {} else {tally[0].reason} + Keys(tally[1..])
  }

  /** No reason has two entries. */
  predicate DistinctReasons(tally: seq<ReasonCount>) {
    tally == [] || (tally[0].reason !in Keys(tally[1..]) && DistinctReasons(tally[1..]))
  }

  /** The tally of the source's nested `forEach` loops, built by bumping one reason at a time. */
  method CountReasons(records: seq<SleepRecord>) returns (tally: seq<ReasonCount>)
    ensures tally == TallyOf(records)
    ensures DistinctReasons(tally)
    ensures forall r :: r in Keys(tally) <==> r in ReasonsOf(records)
    ensures forall k :: 0 <= k < |tally| ==> tally[k].count == multiset(ReasonsOf(records))[tally[k].reason] >= 1
  {
    tally := [];
    for i := 0 to |records|
      invariant tally == Tally(ReasonsOf(records[..i]))
    {
      ReasonsOfSnoc(records, i);
      var r := records[i];
      if r.analysis.Some? && r.analysis.value.topReasons.Some? {
        var items := r.analysis.value.topReasons.value;
        assert ReasonsOf(records[..i]) + ReasonNames(items[..0]) == ReasonsOf(records[..i]);
        for j := 0 to |items|
          invariant tally == Tally(ReasonsOf(records[..i]) + ReasonNames(items[..j]))
        {
          TallySnoc(ReasonsOf(records[..i]), items, j);
          tally := Bump(tally, items[j].reason);
        }
        assert items[..|items|] == items;
        assert ItemReasons(r) == ReasonNames(items);
      } else {
        assert ItemReasons(r) == [];
        assert ReasonsOf(records[..i]) + [] == ReasonsOf(records[..i]);
      }
    }
    assert records[..|records|] == records;
    TallyCharacterization(ReasonsOf(records));
  }

  lemma ReasonsOfSnoc(records: seq<SleepRecord>, i: nat)
    requires i < |records|
    ensures ReasonsOf(records[..i + 1]) == ReasonsOf(records[..i]) + ItemReasons(records[i])
  {
    assert records[..i + 1][..i] == records[..i];
  }

  lemma TallySnoc(done: seq<string>, items: seq<ReasonItem>, j: nat)
    requires j < |items|
    ensures Tally(done + ReasonNames(items[..j + 1])) == Bump(Tally(done + ReasonNames(items[..j])), items[j].reason)
  {
    var prefix := done + ReasonNames(items[..j]);
    assert ReasonNames(items[..j + 1]) == ReasonNames(items[..j]) + [items[j].reason];
    assert done + ReasonNames(items[..j + 1]) == prefix + [items[j].reason];
    assert (prefix + [items[j].reason])[..|prefix|] == prefix;
  }

  lemma {:induction false} BumpCount(tally: seq<ReasonCount>, x: string, r: string)
    ensures CountIn(Bump(tally, x), r) == CountIn(tally, r) + (if r == x then 1 else 0)
    decreases |tally|
  {
    if tally != [] && tally[0].reason != x {
      BumpCount(tally[1..], x, r);
      assert Bump(tally, x)[1..] == Bump(tally[1..], x);
    } else if tally != [] {
      assert Bump(tally, x)[1..] == tally[1..];
    }
  }

  /** Bumping adds `x` to the keys and keeps them distinct. */
  lemma {:induction false} BumpKeys(tally: seq<ReasonCount>, x: string)
    ensures Keys(Bump(tally, x)) == Keys(tally) + {x}
    ensures DistinctReasons(tally) ==> DistinctReasons(Bump(tally, x))
    decreases |tally|
  {
    var b := Bump(tally, x);
    if tally == [] {
      assert b[1..] == [];
    } else if tally[0].reason == x {
      assert b[1..] == tally[1..];
    } else {
      BumpKeys(tally[1..], x);
      assert b[1..] == Bump(tally[1..], x);
    }
  }

  lemma {:induction false} CountInAbsent(tally: seq<ReasonCount>, r: string)
    requires r !in Keys(tally)
    ensures CountIn(tally, r) == 0
    decreases |tally|
  {
    if tally != [] {
      CountInAbsent(tally[1..], r);
    }
  }

  lemma {:induction false} KeysHoldEntries(tally: seq<ReasonCount>, k: nat)
    requires k < |tally|
    ensures tally[k].reason in Keys(tally)
    decreases k
  {
    if k > 0 {
      KeysHoldEntries(tally[1..], k - 1);
    }
  }

  /** With distinct keys, an entry holds the whole count of its reason. */
  lemma {:induction false} EntryCount(tally: seq<ReasonCount>, k: nat)
    requires DistinctReasons(tally) && k < |tally|
    ensures CountIn(tally, tally[k].reason) == tally[k].count
    decreases k
  {
    if k == 0 {
      CountInAbsent(tally[1..], tally[0].reason);
    } else {
      KeysHoldEntries(tally[1..], k - 1);
      EntryCount(tally[1..], k - 1);
    }
  }

  /**
   * The tally of a list of reasons has one entry per distinct reason, each
   * holding the number of times that reason occurs (so at least 1).
   */
  lemma {:induction false} TallyCharacterization(names: seq<string>)
    ensures DistinctReasons(Tally(names))
    ensures forall r :: CountIn(Tally(names), r) == multiset(names)[r]
    ensures forall r :: r in Keys(Tally(names)) <==> r in names
    ensures forall k :: 0 <= k < |Tally(names)| ==> Tally(names)[k].count == multiset(names)[Tally(names)[k].reason] >= 1
    decreases |names|
  {
    var t := Tally(names);
    if names != [] {
      var p, x := names[..|names| - 1], names[|names| - 1];
      assert names == p + [x];
      TallyCharacterization(p);
      BumpKeys(Tally(p), x);
      forall r
        ensures CountIn(t, r) == multiset(names)[r]
      {
        BumpCount(Tally(p), x, r);
      }
    }
    EntriesCountOccurrences(t, names);
  }

  /** In a tally with distinct keys counting `names`, each entry holds its reason's number of occurrences. */
  lemma EntriesCountOccurrences(t: seq<ReasonCount>, names: seq<string>)
    requires DistinctReasons(t)
    requires forall r :: CountIn(t, r) == multiset(names)[r]
    requires forall r :: r in Keys(t) <==> r in names
    ensures forall k :: 0 <= k < |t| ==> t[k].count == multiset(names)[t[k].reason] >= 1
  {
    forall k | 0 <= k < |t|
      ensures t[k].count == multiset(names)[t[k].reason] >= 1
    {
      EntryCount(t, k);
      KeysHoldEntries(t, k);
    }
  }

  // ---------------------------------------------------------------------
  // Sorting and the top five

  predicate NonIncreasing(s: seq<ReasonCount>) {
    forall i, j :: 0 <= i < j < |s| ==> s[i].count >= s[j].count
  }

  /** The entries with count `c`, in their order. */
  function WithCount(s: seq<ReasonCount>, c: nat): seq<ReasonCount> {
    if s == [] then [] else (if s[0].count == c then [s[0]] else []) + WithCount(s[1..], c)
  }

  /** Inserts `x` after every entry whose count is at least its own. */
  function InsertByCount(x: ReasonCount, s: seq<ReasonCount>): (r: seq<ReasonCount>)
    ensures |r| == |s| + 1
  {
    if s == [] || s[0].count < x.count then [x] + s
    else [s[0]] + InsertByCount(x, s[1..])
  }

  /**
   * `sort((a, b) => b[1] - a[1])`: by count, highest first. The sort of
   * JavaScript is stable, so entries with equal counts keep their order;
   * inserting the entries one by one, each after its equals, gives exactly
   * that order.
   */
  function SortByCount(s: seq<ReasonCount>): (r: seq<ReasonCount>)
    ensures |r| == |s|
  {
    if s == [] then [] else InsertByCount(s[|s| - 1], SortByCount(s[..|s| - 1]))
  }

  lemma {:induction false} InsertByCountPermutes(x: ReasonCount, s: seq<ReasonCount>)
    ensures multiset(InsertByCount(x, s)) == multiset(s) + multiset{x}
    decreases |s|
  {
    if s != [] && s[0].count >= x.count {
      InsertByCountPermutes(x, s[1..]);
      assert s == [s[0]] + s[1..];
    }
  }

  lemma {:induction false} SortByCountPermutes(s: seq<ReasonCount>)
    ensures multiset(SortByCount(s)) == multiset(s)
    decreases |s|
  {
    if s != [] {
      var init, last := s[..|s| - 1], s[|s| - 1];
      var sorted := SortByCount(init);
      SortByCountPermutes(init);
      InsertByCountPermutes(last, sorted);
      assert SortByCount(s) == InsertByCount(last, sorted);
      MultisetSnoc(s);
    }
  }

  lemma MultisetSnoc<T>(s: seq<T>)
    requires s != []
    ensures multiset(s) == multiset(s[..|s| - 1]) + multiset{s[|s| - 1]}
  {
    assert s == s[..|s| - 1] + [s[|s| - 1]];
  }

  lemma {:induction false} InsertKeepsOrder(x: ReasonCount, s: seq<ReasonCount>)
    requires NonIncreasing(s)
    ensures NonIncreasing(InsertByCount(x, s))
    decreases |s|
  {
    if s == [] || s[0].count < x.count {
      NonIncreasingCons(x, s);
    } else {
      NonIncreasingTail(s);
      InsertKeepsOrder(x, s[1..]);
      InsertBelow(x, s[1..], s[0].count);
      NonIncreasingCons(s[0], InsertByCount(x, s[1..]));
    }
  }

  /** Inserting keeps every count at most a bound that all the entries and `x` respect. */
  lemma InsertBelow(x: ReasonCount, s: seq<ReasonCount>, bound: nat)
    requires x.count <= bound && forall i :: 0 <= i < |s| ==> s[i].count <= bound
    ensures forall j :: 0 <= j < |s| + 1 ==> InsertByCount(x, s)[j].count <= bound
  {
    var r := InsertByCount(x, s);
    InsertByCountPermutes(x, s);
    forall j | 0 <= j < |r|
      ensures r[j].count <= bound
    {
      assert r[j] in multiset(r);
      if r[j] != x {
        assert r[j] in multiset(s);
        var k :| 0 <= k < |s| && s[k] == r[j];
      }
    }
  }

  lemma NonIncreasingCons(h: ReasonCount, t: seq<ReasonCount>)
    requires NonIncreasing(t) && forall j :: 0 <= j < |t| ==> t[j].count <= h.count
    ensures NonIncreasing([h] + t)
  {
    var r := [h] + t;
    forall i, j | 0 <= i < j < |r|
      ensures r[i].count >= r[j].count
    {
      assert r[j] == t[j - 1];
      if i > 0 {
        assert r[i] == t[i - 1];
      }
    }
  }

  lemma {:induction false} WithCountAppend(a: seq<ReasonCount>, b: seq<ReasonCount>, c: nat)
    ensures WithCount(a + b, c) == WithCount(a, c) + WithCount(b, c)
    decreases |a|
  {
    if a == [] {
      assert a + b == b;
    } else {
      var ab := a + b;
      assert ab[0] == a[0];
      assert ab[1..] == a[1..] + b;
      WithCountAppend(a[1..], b, c);
      var h := if a[0].count == c then [a[0]] else [];
      assert WithCount(ab, c) == h + WithCount(a[1..] + b, c);
      assert WithCount(a, c) == h + WithCount(a[1..], c);
    }
  }

  lemma {:induction false} WithCountNone(s: seq<ReasonCount>, c: nat)
    requires forall i :: 0 <= i < |s| ==> s[i].count != c
    ensures WithCount(s, c) == []
    decreases |s|
  {
    if s != [] {
      WithCountNone(s[1..], c);
    }
  }

  lemma NonIncreasingTail(s: seq<ReasonCount>)
    requires s != [] && NonIncreasing(s)
    ensures NonIncreasing(s[1..])
    ensures forall i :: 0 <= i < |s| ==> s[i].count <= s[0].count
  {
    forall i, j | 0 <= i < j < |s[1..]|
      ensures s[1..][i].count >= s[1..][j].count
    {
      assert s[1..][i] == s[i + 1] && s[1..][j] == s[j + 1];
    }
  }

  /** Inserting into an ordered list puts `x` last among the entries of its count. */
  lemma {:induction false} InsertIsStable(x: ReasonCount, s: seq<ReasonCount>, c: nat)
    requires NonIncreasing(s)
    ensures WithCount(InsertByCount(x, s), c) == WithCount(s, c) + (if x.count == c then [x] else [])
    decreases |s|
  {
    if s == [] || s[0].count < x.count {
      InsertFrontStable(x, s, c);
    } else {
      NonIncreasingTail(s);
      InsertIsStable(x, s[1..], c);
      InsertBehindStable(x, s, c);
    }
  }

  lemma InsertFrontStable(x: ReasonCount, s: seq<ReasonCount>, c: nat)
    requires NonIncreasing(s) && (s == [] || s[0].count < x.count)
    ensures WithCount(InsertByCount(x, s), c) == WithCount(s, c) + (if x.count == c then [x] else [])
  {
    var r := [x] + s;
    assert InsertByCount(x, s) == r;
    assert r[0] == x && r[1..] == s;
    if x.count == c && s != [] {
      NonIncreasingTail(s);
      WithCountNone(s, c);
    }
  }

  lemma InsertBehindStable(x: ReasonCount, s: seq<ReasonCount>, c: nat)
    requires s != [] && s[0].count >= x.count
    requires WithCount(InsertByCount(x, s[1..]), c) == WithCount(s[1..], c) + (if x.count == c then [x] else [])
    ensures WithCount(InsertByCount(x, s), c) == WithCount(s, c) + (if x.count == c then [x] else [])
  {
    var tail := InsertByCount(x, s[1..]);
    var r := [s[0]] + tail;
    assert InsertByCount(x, s) == r;
    assert r[0] == s[0] && r[1..] == tail;
    var h0 := if s[0].count == c then [s[0]] else [];
    var hx := if x.count == c then [x] else [];
    assert WithCount(r, c) == h0 + WithCount(tail, c);
    assert WithCount(s, c) == h0 + WithCount(s[1..], c);
    assert h0 + (WithCount(s[1..], c) + hx) == (h0 + WithCount(s[1..], c)) + hx;
  }

  /** The sort's counts do not increase. */
  lemma {:induction false} SortByCountOrdered(s: seq<ReasonCount>)
    ensures NonIncreasing(SortByCount(s))
    decreases |s|
  {
    if s != [] {
      SortByCountOrdered(s[..|s| - 1]);
      InsertKeepsOrder(s[|s| - 1], SortByCount(s[..|s| - 1]));
    }
  }

  lemma {:induction false} SortByCountStable(s: seq<ReasonCount>, c: nat)
    ensures WithCount(SortByCount(s), c) == WithCount(s, c)
    decreases |s|
  {
    if s != [] {
      var p, x := s[..|s| - 1], s[|s| - 1];
      var sp := SortByCount(p);
      SortByCountStable(p, c);
      SortByCountOrdered(p);
      assert SortByCount(s) == InsertByCount(x, sp);
      InsertIsStable(x, sp, c);
      assert s == p + [x];
      WithCountAppend(p, [x], c);
      assert [x][1..] == [];
    }
  }

  /**
   * The sort is a stable sort by count, highest first: the result is a
   * permutation, its counts do not increase, and the entries of each count
   * appear in their original order. These three facts determine the result.
   */
  lemma SortByCountIsStableSort(s: seq<ReasonCount>)
    ensures multiset(SortByCount(s)) == multiset(s)
    ensures NonIncreasing(SortByCount(s))
    ensures forall c: nat :: WithCount(SortByCount(s), c) == WithCount(s, c)
  {
    SortByCountPermutes(s);
    SortByCountOrdered(s);
    forall c: nat
      ensures WithCount(SortByCount(s), c) == WithCount(s, c)
    {
      SortByCountStable(s, c);
    }
  }

  const TopCount: nat := 5

  /** `sort(...).slice(0, 5)`: the first five entries after the sort. */
  function TopReasons(tally: seq<ReasonCount>): (top: seq<ReasonCount>)
    ensures |top| == Min(TopCount, |tally|)
  {
    var sorted := SortByCount(tally);
    sorted[..Min(TopCount, |sorted|)]
  }

  /**
   * The top-reasons list holds at most five tally entries with counts that
   * do not increase, and every entry left out counts no more than any that
   * was kept.
   */
  lemma TopReasonsAreTop(tally: seq<ReasonCount>)
    ensures |TopReasons(tally)| <= TopCount
    ensures NonIncreasing(TopReasons(tally))
    ensures multiset(TopReasons(tally)) <= multiset(tally)
    ensures forall x, y :: x in tally && x !in TopReasons(tally) && y in TopReasons(tally) ==> x.count <= y.count
  {
    var sorted := SortByCount(tally);
    SortByCountPermutes(tally);
    SortByCountOrdered(tally);
    var top := TopReasons(tally);
    assert top == sorted[..|top|];
    assert sorted == top + sorted[|top|..];
    forall x, y | x in tally && x !in top && y in top
      ensures x.count <= y.count
    {
      SameElements(x, tally, sorted);
      LeftOutFollows(sorted, |top|, x, y);
    }
  }

  lemma SameElements(x: ReasonCount, a: seq<ReasonCount>, b: seq<ReasonCount>)
    requires multiset(a) == multiset(b) && x in a
    ensures x in b
  {
    assert x in multiset(a);
  }

  lemma LeftOutFollows(sorted: seq<ReasonCount>, n: nat, x: ReasonCount, y: ReasonCount)
    requires NonIncreasing(sorted) && n <= |sorted|
    requires x in sorted && x !in sorted[..n] && y in sorted[..n]
    ensures x.count <= y.count
  {
    var k :| 0 <= k < |sorted| && sorted[k] == x;
    var j :| 0 <= j < n && sorted[..n][j] == y;
  }

  /**
   * The top reasons of the records: at most five, counts not increasing, and
   * each count the number of times its reason occurs across the analyses.
   */
  lemma TopReasonsCountOccurrences(records: seq<SleepRecord>)
    ensures |TopReasons(TallyOf(records))| <= TopCount
    ensures NonIncreasing(TopReasons(TallyOf(records)))
    ensures forall x :: x in TopReasons(TallyOf(records)) ==> x.count == multiset(ReasonsOf(records))[x.reason] >= 1
  {
    var t := TallyOf(records);
    TallyCharacterization(ReasonsOf(records));
    TopReasonsAreTop(t);
    forall x | x in TopReasons(t)
      ensures x.count == multiset(ReasonsOf(records))[x.reason] >= 1
    {
      assert x in multiset(t);
      var k :| 0 <= k < |t| && t[k] == x;
    }
  }

  /** A record without analysis contributes nothing to the tally. */
  lemma UnanalysedRecordIgnored(records: seq<SleepRecord>, r: SleepRecord)
    requires r.analysis.None?
    ensures TallyOf(records + [r]) == TallyOf(records)
  {
    assert (records + [r])[..|records|] == records;
    assert ReasonsOf(records + [r]) == ReasonsOf(records) + [];
    assert ReasonsOf(records) + [] == ReasonsOf(records);
  }

  // ---------------------------------------------------------------------
  // Sleep-time statistics

  /**
   * The normalised minutes of the records' non-empty sleep times, in
   * order; `None` when one of them does not read as a number pair (the
   * source then computes with NaN).
   */
  function NightMinutes(records: seq<SleepRecord>): (r: Option<seq<nat>>)
    ensures r.Some? ==> |r.value| <= |records|
    ensures r.Some? ==> forall i :: 0 <= i < |r.value| ==> r.value[i] >= NoonHour * 60
  {
    if records == [] then Some([])
    else
      var prev := NightMinutes(records[..|records| - 1]);
      var t := records[|records| - 1].sleepTime;
      if prev.None? then None
      else if t == "" then prev
      else if ParseTime(t).None? then None
      else Some(prev.value + [NormalizeTime(t)])
  }

  function Sum(xs: seq<nat>): nat {
    if xs == [] then 0 else Sum(xs[..|xs| - 1]) + xs[|xs| - 1]
  }

  /** `Math.min(...times)`. */
  function MinOf(xs: seq<nat>): (m: nat)
    requires xs != []
    ensures m in xs && forall i :: 0 <= i < |xs| ==> m <= xs[i]
  {
    if |xs| == 1 then xs[0]
    else
      var m := MinOf(xs[..|xs| - 1]);
      assert forall i :: 0 <= i < |xs| - 1 ==> xs[..|xs| - 1][i] == xs[i];
      if xs[|xs| - 1] < m then xs[|xs| - 1] else m
  }

  /** `Math.max(...times)`. */
  function MaxOf(xs: seq<nat>): (m: nat)
    requires xs != []
    ensures m in xs && forall i :: 0 <= i < |xs| ==> xs[i] <= m
  {
    if |xs| == 1 then xs[0]
    else
      var m := MaxOf(xs[..|xs| - 1]);
      assert forall i :: 0 <= i < |xs| - 1 ==> xs[..|xs| - 1][i] == xs[i];
      if xs[|xs| - 1] > m then xs[|xs| - 1] else m
  }

  /** `Math.round(sum / n)` for a non-negative sum: the floor of sum / n + 1/2. */
  function RoundedMean(xs: seq<nat>): (r: nat)
    requires xs != []
    ensures 2 * |xs| * r <= 2 * Sum(xs) + |xs| < 2 * |xs| * (r + 1)
  {
    DivFloor(2 * Sum(xs) + |xs|, 2 * |xs|);
    (2 * Sum(xs) + |xs|) / (2 * |xs|)
  }

  /** Euclidean division by a positive divisor rounds down. */
  lemma DivFloor(n: nat, d: nat)
    requires d > 0
    ensures d * (n / d) <= n < d * (n / d + 1)
  {
  }

  datatype SleepStatistics = SleepStatistics(avgTime: string, earliestTime: string, latestTime: string)

  /** How `formatMin(NaN)` prints. */
  const NotANumber: string := "NaN:NaN"

  /** The three statistics; all empty when there is no time, all NaN when one did not parse. */
  function StatsOf(times: Option<seq<nat>>): (r: SleepStatistics)
    ensures r.avgTime == "" <==> times == Some([])
    ensures r.earliestTime == "" <==> times == Some([])
    ensures r.latestTime == "" <==> times == Some([])
  {
    match times
    case None => SleepStatistics(NotANumber, NotANumber, NotANumber)
    case Some(ts) =>
      if ts == [] then SleepStatistics("", "", "")
      else SleepStatistics(FormatMin(RoundedMean(ts)), FormatMin(MinOf(ts)), FormatMin(MaxOf(ts)))
  }

  /**
   * `avgTime`, `earliestTime` and `latestTime` start empty and are
   * reassigned when at least one time is present.
   */
  method ComputeSleepStats(records: seq<SleepRecord>) returns (stats: SleepStatistics)
    ensures stats == StatsOf(NightMinutes(records))
  {
    var times := NightMinutes(records);
    var avgTime, earliestTime, latestTime := "", "", "";
    if times.None? {
      avgTime, earliestTime, latestTime := NotANumber, NotANumber, NotANumber;
    } else if |times.value| > 0 {
      var ts := times.value;
      avgTime := FormatMin(RoundedMean(ts));
      earliestTime := FormatMin(MinOf(ts));
      latestTime := FormatMin(MaxOf(ts));
    }
    stats := SleepStatistics(avgTime, earliestTime, latestTime);
  }

  lemma {:induction false} SumBounds(xs: seq<nat>, lo: nat, hi: nat)
    requires forall i :: 0 <= i < |xs| ==> lo <= xs[i] <= hi
    ensures |xs| * lo <= Sum(xs) <= |xs| * hi
    decreases |xs|
  {
    if xs != [] {
      var p := xs[..|xs| - 1];
      assert forall i :: 0 <= i < |p| ==> p[i] == xs[i];
      SumBounds(p, lo, hi);
      assert |xs| * lo == |p| * lo + lo;
      assert |xs| * hi == |p| * hi + hi;
    }
  }

  lemma MulMonotone(a: nat, b: nat, d: nat)
    ensures a <= b ==> a * d <= b * d
  {
  }

  /** Integer division by `d` of a value between `d * lo` and `d * (hi + 1)` lies in lo .. hi. */
  lemma DivBetween(a: nat, d: nat, lo: nat, hi: nat)
    requires d > 0 && d * lo <= a < d * (hi + 1)
    ensures lo <= a / d <= hi
  {
    var q, r := a / d, a % d;
    assert a == q * d + r && r < d;
    MulMonotone(q + 1, lo, d);
    MulMonotone(hi + 1, q, d);
  }

  lemma DivBounds(s: nat, n: nat, lo: nat, hi: nat)
    requires n > 0 && n * lo <= s <= n * hi
    ensures lo <= (2 * s + n) / (2 * n) <= hi
  {
    var a, d := 2 * s + n, 2 * n;
    assert d * lo <= a by {
      assert d * lo == 2 * (n * lo);
    }
    assert a < d * (hi + 1) by {
      assert d * (hi + 1) == 2 * (n * hi) + 2 * n;
    }
    DivBetween(a, d, lo, hi);
  }

  /** The rounded mean lies between the minimum and the maximum. */
  lemma MeanBetween(xs: seq<nat>)
    requires xs != []
    ensures MinOf(xs) <= RoundedMean(xs) <= MaxOf(xs)
  {
    SumBounds(xs, MinOf(xs), MaxOf(xs));
    DivBounds(Sum(xs), |xs|, MinOf(xs), MaxOf(xs));
  }

  /** Records whose sleep times are all empty give three empty statistics. */
  lemma {:induction false} StatsWithoutTimes(records: seq<SleepRecord>)
    requires forall i :: 0 <= i < |records| ==> records[i].sleepTime == ""
    ensures NightMinutes(records) == Some([])
    ensures StatsOf(NightMinutes(records)) == SleepStatistics("", "", "")
    decreases |records|
  {
    if records != [] {
      StatsWithoutTimes(records[..|records| - 1]);
    }
  }

  /** Empty sleep times are skipped: adding a record without a time changes no statistic. */
  lemma EmptyTimeSkipped(records: seq<SleepRecord>, r: SleepRecord)
    requires r.sleepTime == ""
    ensures NightMinutes(records + [r]) == NightMinutes(records)
  {
    assert (records + [r])[..|records|] == records;
  }

  /** A single clock time gives that time as average, earliest and latest. */
  lemma StatsOfSingleTime(t: string)
    requires IsClockString(t)
    ensures ParseTime(t).Some?
    ensures StatsOf(Some([NormalizeTime(t)])) == SleepStatistics(t, t, t)
  {
    FormatNormalizeRoundTrip(t);
    var v := NormalizeTime(t);
    assert Sum([v]) == v;
    assert RoundedMean([v]) == (2 * v + 1) / 2 == v;
  }

  /** Two times in order: the mean of the pair, the first as minimum and the second as maximum. */
  lemma PairStats(a: nat, b: nat)
    requires a <= b
    ensures Sum([a, b]) == a + b
    ensures MinOf([a, b]) == a && MaxOf([a, b]) == b
    ensures RoundedMean([a, b]) == (a + b + 1) / 2
  {
    assert [a, b][..1] == [a];
    assert Sum([a]) == a;
  }

  /** The clock strings of the minutes used below. */
  lemma FormatExamples()
    ensures FormatMin(1380) == "23:00" && FormatMin(1500) == "01:00" && FormatMin(1440) == "00:00"
  {
    NormalizeExamples();
    FormatNormalizeRoundTrip("23:00");
    FormatNormalizeRoundTrip("01:00");
    FormatNormalizeRoundTrip("00:00");
  }

  /**
   * 23:00 and 01:00 (1380 and 1500 once normalised) average to 00:00
   * across midnight; earliest 23:00, latest 01:00.
   */
  lemma StatsAcrossMidnight()
    ensures StatsOf(Some([1380, 1500])) == SleepStatistics("00:00", "23:00", "01:00")
  {
    PairStats(1380, 1500);
    assert RoundedMean([1380, 1500]) == 1440;
    assert StatsOf(Some([1380, 1500])) == SleepStatistics(FormatMin(1440), FormatMin(1380), FormatMin(1500));
    FormatExamples();
  }

  /**
   * Over normalised clock times the three statistics are clock strings,
   * and earliest <= average <= latest in normalised minutes, each statistic
   * reading back as the value it was formatted from.
   */
  lemma StatsAreOrderedClockTimes(ts: seq<nat>)
    requires ts != [] && forall i :: 0 <= i < |ts| ==> 720 <= ts[i] <= 2159
    ensures MinOf(ts) <= RoundedMean(ts) <= MaxOf(ts)
    ensures IsClockString(StatsOf(Some(ts)).avgTime)
    ensures IsClockString(StatsOf(Some(ts)).earliestTime)
    ensures IsClockString(StatsOf(Some(ts)).latestTime)
    ensures ParseTime(StatsOf(Some(ts)).avgTime).Some? && NormalizeTime(StatsOf(Some(ts)).avgTime) == RoundedMean(ts)
    ensures ParseTime(StatsOf(Some(ts)).earliestTime).Some? && NormalizeTime(StatsOf(Some(ts)).earliestTime) == MinOf(ts)
    ensures ParseTime(StatsOf(Some(ts)).latestTime).Some? && NormalizeTime(StatsOf(Some(ts)).latestTime) == MaxOf(ts)
  {
    MeanBetween(ts);
    NormalizeFormatRoundTrip(RoundedMean(ts));
    NormalizeFormatRoundTrip(MinOf(ts));
    NormalizeFormatRoundTrip(MaxOf(ts));
  }

  /** Records whose non-empty times are clock strings give minutes in the normalised range. */
  lemma {:induction false} NightMinutesInRange(records: seq<SleepRecord>)
    requires forall i :: 0 <= i < |records| && records[i].sleepTime != "" ==> IsClockString(records[i].sleepTime)
    ensures NightMinutes(records).Some?
    ensures forall i :: 0 <= i < |NightMinutes(records).value| ==> 720 <= NightMinutes(records).value[i] <= 2159
    decreases |records|
  {
    if records != [] {
      NightMinutesInRange(records[..|records| - 1]);
      var t := records[|records| - 1].sleepTime;
      if t != "" {
        NormalizeRange(t);
      }
    }
  }

  // ---------------------------------------------------------------------
  // Trend and the pattern-analysis gate

  const TrendLength: nat := 14

  datatype TrendPoint = TrendPoint(date: string, time: string)

  /** `slice(-14)` mapped to date and time. */
  function Trend(records: seq<SleepRecord>): (trend: seq<TrendPoint>)
    ensures |trend| == Min(TrendLength, |records|)
    ensures forall i :: 0 <= i < |trend| ==>
      trend[i] == TrendPoint(records[|records| - |trend| + i].recordDate, records[|records| - |trend| + i].sleepTime)
  {
    var start := if |records| > TrendLength then |records| - TrendLength else 0;
    seq(|records| - start, i requires 0 <= i < |records| - start =>
      TrendPoint(records[start + i].recordDate, records[start + i].sleepTime))
  }

  /** A new record becomes the last point of the trend; the oldest drops out once there are fourteen. */
  lemma TrendAppend(records: seq<SleepRecord>, r: SleepRecord)
    ensures Trend(records + [r]) ==
      (if |records| >= TrendLength then Trend(records)[1..] else Trend(records)) + [TrendPoint(r.recordDate, r.sleepTime)]
  {
  }

  const PatternMinRecords: nat := 3

  /** Pattern analysis is attempted only for a Pro user with at least three records. */
  predicate PatternGate(recordCount: nat, isPro: bool)
    ensures !isPro ==> !PatternGate(recordCount, isPro)
    ensures recordCount < PatternMinRecords ==> !PatternGate(recordCount, isPro)
  {
    recordCount >= PatternMinRecords && isPro
  }

  /** One line of the summary sent to the AI: date, time and reason. */
  function SummaryLine(r: SleepRecord): (line: string)
    ensures |line| == |r.recordDate| + |r.sleepTime| + |r.reasonText| + 4
    ensures line[..|r.recordDate|] == r.recordDate
    ensures line[|r.recordDate| + 1..|r.recordDate| + 1 + |r.sleepTime|] == r.sleepTime
    ensures line[|line| - |r.reasonText|..] == r.reasonText
  {
    r.recordDate + " " + r.sleepTime + " - " + r.reasonText
  }

  function PatternPrompt(records: seq<SleepRecord>): (p: string)
    ensures "Here are my sleep records:\n" <= p
    ensures records == [] ==> p == "Here are my sleep records:\n"
    ensures records != [] ==> SummaryLine(records[0]) <= p[27..]
  {
    "Here are my sleep records:\n"
      + Join(seq(|records|, i requires 0 <= i < |records| => SummaryLine(records[i])), "\n")
  }

  /** The pattern analysis: the parsed reply, or null when the AI call or the parse fails. */
  function PatternAnalysis<J>(
    records: seq<SleepRecord>,
    ai: string -> Option<seq<ContentBlock>>,
    parse: string -> Option<J>): (r: Option<J>)
    ensures ai(PatternPrompt(records)).None? ==> r.None?
    ensures r.Some? ==> parse(ReplyContent(ai(PatternPrompt(records)).value)) == r
    ensures ai(PatternPrompt(records)).Some? ==> r == parse(ReplyContent(ai(PatternPrompt(records)).value))
  {
    match ai(PatternPrompt(records))
    case None => None
    case Some(blocks) => parse(ReplyContent(blocks))
  }

  datatype InsightsResponse<J> =
    | Unauthorized
    | QueryFailed
    | Insights(
        topReasons: seq<ReasonCount>,
        sleepStats: SleepStatistics,
        trend: seq<TrendPoint>,
        patternAnalysis: Option<J>,
        totalRecords: nat,
        isPro: bool)

  /**
   * `GET /api/insights`. `query` is the records of the requested window in
   * ascending date order, or `None` when the query failed; `status` is the
   * user's subscription status; `ai` and `parse` are the AI call and the
   * JSON parser. `aiCalled` reports whether the AI was asked.
   */
  method GetInsights<J>(
    signedIn: bool,
    query: Option<seq<SleepRecord>>,
    status: SubscriptionStatus,
    ai: string -> Option<seq<ContentBlock>>,
    parse: string -> Option<J>)
    returns (response: InsightsResponse<J>, aiCalled: bool)
    ensures !signedIn ==> response == Unauthorized
    ensures signedIn && query.None? ==> response == QueryFailed
    ensures signedIn && query.Some? ==>
      var records := query.value;
      response == Insights(
        TopReasons(TallyOf(records)),
        StatsOf(NightMinutes(records)),
        Trend(records),
        if PatternGate(|records|, status.isPro) then PatternAnalysis(records, ai, parse) else None,
        |records|,
        status.isPro)
    ensures aiCalled <==> signedIn && query.Some? && PatternGate(|query.value|, status.isPro)
  {
    aiCalled := false;
    if !signedIn {
      return Unauthorized, aiCalled;
    }
    if query.None? {
      return QueryFailed, aiCalled;
    }
    var records := query.value;
    var tally := CountReasons(records);
    var topReasons := TopReasons(tally);
    var sleepStats := ComputeSleepStats(records);
    var trend := Trend(records);
    var patternAnalysis: Option<J> := None;
    if PatternGate(|records|, status.isPro) {
      aiCalled := true;
      var reply := ai(PatternPrompt(records));
      if reply.Some? {
        patternAnalysis := parse(ReplyContent(reply.value));
      }
    }
    response := Insights(topReasons, sleepStats, trend, patternAnalysis, |records|, status.isPro);
  }
}
