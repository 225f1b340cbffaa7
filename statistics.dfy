/**
 * Lab01/src/statistics_calculator.py: per-column mean, median and modes of
 * a table, the statistics of the last-update timestamps, and the mean and
 * median age of the repositories against a reference instant.
 *
 * A column holds whole numbers (counts, or seconds since the epoch for
 * timestamps); an empty column has no mean or median (`NaN` / `NaT`), which
 * is `Undefined` here. Means and medians are exact `real` values: the final
 * `round(..., n)` is not modelled.
 */
module Statistics {
  import opened Wrappers
  import Timestamps

  /** A mean or median: `Undefined` where pandas yields `NaN` or `NaT`. */
  datatype Summary = Undefined | Defined(value: real)

  /** One column of the table: its name and its values, in row order. */
  datatype Column = Column(name: string, values: seq<int>)

  function Sum(xs: seq<int>): int {
    if xs == [] then 0 else Sum(xs[..|xs| - 1]) + xs[|xs| - 1]
  }

  /** All values lie between `lo` and `hi`. */
  predicate Within(xs: seq<int>, lo: int, hi: int) {
    forall i :: 0 <= i < |xs| ==> lo <= xs[i] <= hi
  }

  /** A sum of values of at least `lo` is at least `lo` times their count. */
  lemma {:induction false} SumAtLeast(xs: seq<int>, lo: int)
    requires forall i :: 0 <= i < |xs| ==> lo <= xs[i]
    ensures lo * |xs| <= Sum(xs)
  {
    if xs != [] {
      var front := xs[..|xs| - 1];
      SumAtLeast(front, lo);
      assert lo * |xs| == lo * |front| + lo;
    }
  }

  /** A sum of values of at most `hi` is at most `hi` times their count. */
  lemma {:induction false} SumAtMost(xs: seq<int>, hi: int)
    requires forall i :: 0 <= i < |xs| ==> xs[i] <= hi
    ensures Sum(xs) <= hi * |xs|
  {
    if xs != [] {
      var front := xs[..|xs| - 1];
      SumAtMost(front, hi);
      assert hi * |xs| == hi * |front| + hi;
    }
  }

  /** `Series.mean()`: the sum over the count, undefined for no values. */
  function Mean(xs: seq<int>): (m: Summary)
    ensures m.Undefined? <==> xs == []
    ensures m.Defined? ==> m.value * (|xs| as real) == Sum(xs) as real
  {
    if xs == [] then Undefined else Defined(Sum(xs) as real / |xs| as real)
  }

  /** The mean of values of at least `lo` is at least `lo`. */
  lemma MeanAtLeast(xs: seq<int>, lo: int)
    requires xs != [] && forall i :: 0 <= i < |xs| ==> lo <= xs[i]
    ensures lo as real <= Mean(xs).value
  {
    SumAtLeast(xs, lo);
    var n := |xs| as real;
    var m := Mean(xs).value;
    assert m * n == Sum(xs) as real;
    assert (lo as real) * n <= m * n;
  }

  /** The mean of values of at most `hi` is at most `hi`. */
  lemma MeanAtMost(xs: seq<int>, hi: int)
    requires xs != [] && forall i :: 0 <= i < |xs| ==> xs[i] <= hi
    ensures Mean(xs).value <= hi as real
  {
    SumAtMost(xs, hi);
    var n := |xs| as real;
    var m := Mean(xs).value;
    assert m * n == Sum(xs) as real;
    assert m * n <= (hi as real) * n;
  }

  /** The mean of values between `lo` and `hi` lies between them. */
  lemma MeanWithin(xs: seq<int>, lo: int, hi: int)
    requires xs != [] && Within(xs, lo, hi)
    ensures lo as real <= Mean(xs).value <= hi as real
  {
    MeanAtLeast(xs, lo);
    MeanAtMost(xs, hi);
  }

  // ----- Sorting, for the median -----

  predicate Sorted(s: seq<int>) {
    forall i, j :: 0 <= i < j < |s| ==> s[i] <= s[j]
  }

  function Insert(x: int, s: seq<int>): (r: seq<int>)
    requires Sorted(s)
    ensures Sorted(r)
    ensures multiset(r) == multiset(s) + multiset{x}
  {
    if s == [] then [x]
    else if x <= s[0] then [x] + s
    else
      var tail := Insert(x, s[1..]);
      InsertAboveHead(x, s, tail);
      assert s == [s[0]] + s[1..];
      [s[0]] + tail
  }

  /** Every value inserted into the tail of `s` is at least its head. */
  lemma InsertAboveHead(x: int, s: seq<int>, tail: seq<int>)
    requires Sorted(s) && s != [] && s[0] < x
    requires multiset(tail) == multiset(s[1..]) + multiset{x}
    ensures forall k :: 0 <= k < |tail| ==> s[0] <= tail[k]
  {
    forall k | 0 <= k < |tail|
      ensures s[0] <= tail[k]
    {
      assert tail[k] in multiset(tail);
      if tail[k] != x {
        assert tail[k] in multiset(s[1..]);
        assert tail[k] in s[1..];
      }
    }
  }

  /** The values in ascending order. */
  function Sort(xs: seq<int>): (r: seq<int>)
    ensures Sorted(r)
    ensures multiset(r) == multiset(xs)
    ensures |r| == |xs|
  {
    if xs == [] then []
    else
      assert xs == [xs[0]] + xs[1..];
      var r := Insert(xs[0], Sort(xs[1..]));
      assert |r| == |multiset(r)| == |multiset(xs)|;
      r
  }

  /** The head of a sorted sequence is at most each of its values. */
  lemma HeadIsLeast(a: seq<int>, x: int)
    requires Sorted(a) && x in multiset(a)
    ensures a[0] <= x
  {
    assert x in a;
    var i :| 0 <= i < |a| && a[i] == x;
    assert i == 0 || a[0] <= a[i];
  }

  /** A sorted sequence without its head, as a multiset. */
  lemma TailMultiset(a: seq<int>)
    requires a != []
    ensures multiset(a[1..]) == multiset(a) - multiset{a[0]}
  {
    assert a == [a[0]] + a[1..];
    assert multiset(a) == multiset{a[0]} + multiset(a[1..]);
  }

  /** Two ascending arrangements of one multiset start alike, and their tails hold the same values. */
  lemma SameHeads(a: seq<int>, b: seq<int>)
    requires Sorted(a) && Sorted(b) && multiset(a) == multiset(b) && a != []
    ensures b != [] && a[0] == b[0] && multiset(a[1..]) == multiset(b[1..])
  {
    assert a[0] in multiset(a);
    assert b != [];
    assert b[0] in multiset(b);
    HeadIsLeast(a, b[0]);
    HeadIsLeast(b, a[0]);
    TailMultiset(a);
    TailMultiset(b);
  }

  /** A multiset has exactly one ascending arrangement. */
  lemma {:induction false} SortedUnique(a: seq<int>, b: seq<int>)
    requires Sorted(a) && Sorted(b) && multiset(a) == multiset(b)
    ensures a == b
    decreases |a|
  {
    if a == [] {
      assert |b| == |multiset(b)| == 0;
    } else {
      SameHeads(a, b);
      var a', b' := a[1..], b[1..];
      assert Sorted(a') && Sorted(b');
      SortedUnique(a', b');
      assert a == [a[0]] + a' && b == [b[0]] + b';
    }
  }

  /**
   * `Series.median()`: the middle value in sorted order, or the average of
   * the two middle values when the count is even; undefined for no values.
   */
  function Median(xs: seq<int>): (m: Summary)
    ensures m.Undefined? <==> xs == []
  {
    Middle(Sort(xs))
  }

  /** The middle value of sorted values, or the average of the two middle ones. */
  function Middle(s: seq<int>): Summary {
    if s == [] then Undefined
    else
      var n := |s|;
      if n % 2 == 1 then Defined(s[n / 2] as real)
      else Defined((s[n / 2 - 1] + s[n / 2]) as real / 2.0)
  }

  /** Reordering the values does not change the median. */
  lemma MedianPermutation(xs: seq<int>, ys: seq<int>)
    requires multiset(xs) == multiset(ys)
    ensures Median(xs) == Median(ys)
  {
    SortedUnique(Sort(xs), Sort(ys));
  }

  /** The median of values between `lo` and `hi` lies between them. */
  lemma MedianWithin(xs: seq<int>, lo: int, hi: int)
    requires xs != [] && Within(xs, lo, hi)
    ensures lo as real <= Median(xs).value <= hi as real
  {
    var s := Sort(xs);
    forall k | 0 <= k < |s| ensures lo <= s[k] <= hi {
      assert s[k] in multiset(xs);
    }
  }

  /** The median of an odd count is a value that splits the sorted values in half. */
  lemma MedianSplits(xs: seq<int>)
    requires |xs| % 2 == 1
    ensures var s := Sort(xs); var n := |xs|;
      && Median(xs) == Defined(s[n / 2] as real)
      && (forall i :: 0 <= i < n / 2 ==> s[i] <= s[n / 2])
      && (forall i :: n / 2 < i < n ==> s[n / 2] <= s[i])
  {
  }

  // ----- Modes -----

  predicate StrictlyIncreasing(s: seq<int>) {
    forall i, j :: 0 <= i < j < |s| ==> s[i] < s[j]
  }

  /** The distinct values of a sorted sequence, in ascending order. */
  function Distinct(s: seq<int>): (r: seq<int>)
    requires Sorted(s)
    ensures StrictlyIncreasing(r)
    ensures forall x :: x in r <==> x in s
  {
    if |s| <= 1 then s
    else
      var rest := Distinct(s[1..]);
      assert forall x :: x in s <==> x == s[0] || x in s[1..];
      if s[0] == s[1] then rest
      else
        assert forall k :: 0 <= k < |rest| ==> rest[k] in s[1..];
        [s[0]] + rest
  }

  /** The values of `candidates` that occur exactly `k` times in `xs`. */
  function OccurringTimes(candidates: seq<int>, xs: seq<int>, k: nat): (r: seq<int>)
    requires StrictlyIncreasing(candidates)
    ensures StrictlyIncreasing(r)
    ensures forall x :: x in r <==> x in candidates && multiset(xs)[x] == k
  {
    if candidates == [] then []
    else
      var rest := OccurringTimes(candidates[1..], xs, k);
      assert forall x :: x in candidates <==> x == candidates[0] || x in candidates[1..];
      if multiset(xs)[candidates[0]] == k then
        assert forall j :: 0 <= j < |rest| ==> rest[j] in candidates[1..];
        [candidates[0]] + rest
      else rest
  }

  /** The highest number of occurrences of any value of `candidates` in `xs`. */
  function MaxCount(candidates: seq<int>, xs: seq<int>): (m: nat)
    ensures forall i :: 0 <= i < |candidates| ==> multiset(xs)[candidates[i]] <= m
    ensures candidates != [] ==> exists i :: 0 <= i < |candidates| && multiset(xs)[candidates[i]] == m
    ensures candidates == [] ==> m == 0
  {
    if candidates == [] then 0
    else
      var rest := MaxCount(candidates[1..], xs);
      var here := multiset(xs)[candidates[0]];
      if here >= rest then here else rest
  }

  /**
   * `Series.mode()`: every value that occurs as often as any other, in
   * ascending order; no modes for no values.
   */
  function Modes(xs: seq<int>): (modes: seq<int>)
    ensures StrictlyIncreasing(modes)
    ensures forall x :: x in modes <==> x in xs && forall y :: multiset(xs)[y] <= multiset(xs)[x]
    ensures xs != [] ==> modes != []
  {
    MaxCountIsMaximum(xs);
    OccurringTimes(Distinct(Sort(xs)), xs, MaxCount(xs, xs))
  }

  /** Over the values themselves, `MaxCount` is the highest count of any value at all. */
  lemma MaxCountIsMaximum(xs: seq<int>)
    ensures forall y :: multiset(xs)[y] <= MaxCount(xs, xs)
    ensures xs != [] ==> exists x :: x in xs && multiset(xs)[x] == MaxCount(xs, xs)
    ensures forall x :: x in Distinct(Sort(xs)) <==> x in xs
  {
    var top := MaxCount(xs, xs);
    assert forall x :: x in Sort(xs) <==> x in multiset(xs);
    forall y ensures multiset(xs)[y] <= top {
      if y in xs {
        var i :| 0 <= i < |xs| && xs[i] == y;
      }
    }
  }

  /** Strictly increasing whole numbers climb by at least one per position. */
  lemma {:induction false} IncreasingGaps(m: seq<int>, k: int)
    requires StrictlyIncreasing(m) && 0 <= k < |m|
    ensures m[k] >= m[0] + k
  {
    if k > 0 {
      IncreasingGaps(m, k - 1);
    }
  }

  /** Ties are all reported: `[1, 1, 2, 2, 3]` has modes `[1, 2]`. */
  lemma TiedModes(xs: seq<int>)
    requires xs == [1, 1, 2, 2, 3]
    ensures Modes(xs) == [1, 2]
  {
    ExampleCounts(xs);
    var m := Modes(xs);
    forall k | 0 <= k < |m| ensures m[k] == 1 || m[k] == 2 {
      assert m[k] in m;
    }
    OnlyOneAndTwo(m);
  }

  lemma ExampleCounts(xs: seq<int>)
    requires xs == [1, 1, 2, 2, 3]
    ensures forall x :: x in xs <==> x == 1 || x == 2 || x == 3
    ensures forall y :: multiset(xs)[y] <= 2
    ensures multiset(xs)[1] == 2 && multiset(xs)[2] == 2 && multiset(xs)[3] == 1
  {
  }

  /** A strictly increasing sequence of ones and twos holding both is `[1, 2]`. */
  lemma OnlyOneAndTwo(m: seq<int>)
    requires StrictlyIncreasing(m) && 1 in m && 2 in m
    requires forall k :: 0 <= k < |m| ==> m[k] == 1 || m[k] == 2
    ensures m == [1, 2]
  {
    var i :| 0 <= i < |m| && m[i] == 1;
    var j :| 0 <= j < |m| && m[j] == 2;
    IncreasingGaps(m, |m| - 1);
    assert m[0] < m[1];
  }

  // ----- One summary per column -----

  /** No later column has the same name as column `i` (so `i` wins in a dict). */
  predicate LastOfName(data: seq<Column>, i: int)
    requires 0 <= i < |data|
  {
    forall j :: i < j < |data| ==> data[j].name != data[i].name
  }

  /**
   * The loop `for key, values in data.items(): row[key] = summary(values)`:
   * one entry per column name, holding the summary of the last column of
   * that name.
   */
  method SummariseColumns<S>(data: seq<Column>, summary: seq<int> -> S) returns (row: map<string, S>)
    ensures forall name :: name in row <==> exists i :: 0 <= i < |data| && data[i].name == name
    ensures forall i :: 0 <= i < |data| && LastOfName(data, i) ==> row[data[i].name] == summary(data[i].values)
  {
    row := map[];
    for n := 0 to |data|
      invariant forall name :: name in row <==> exists i :: 0 <= i < n && data[i].name == name
      invariant forall i :: 0 <= i < n && (forall j :: i < j < n ==> data[j].name != data[i].name) ==>
                  row[data[i].name] == summary(data[i].values)
    {
      row := row[data[n].name := summary(data[n].values)];
    }
  }

  /** `calculate_mean`: the mean of every column. */
  method CalculateMean(data: seq<Column>) returns (row: map<string, Summary>)
    ensures forall name :: name in row <==> exists i :: 0 <= i < |data| && data[i].name == name
    ensures forall i :: 0 <= i < |data| && LastOfName(data, i) ==> row[data[i].name] == Mean(data[i].values)
  {
    row := SummariseColumns(data, Mean);
  }

  /** `calculate_median`: the median of every column. */
  method CalculateMedian(data: seq<Column>) returns (row: map<string, Summary>)
    ensures forall name :: name in row <==> exists i :: 0 <= i < |data| && data[i].name == name
    ensures forall i :: 0 <= i < |data| && LastOfName(data, i) ==> row[data[i].name] == Median(data[i].values)
  {
    row := SummariseColumns(data, Median);
  }

  /** `calculate_mode`: every mode of every column. */
  method CalculateMode(data: seq<Column>) returns (row: map<string, seq<int>>)
    ensures forall name :: name in row <==> exists i :: 0 <= i < |data| && data[i].name == name
    ensures forall i :: 0 <= i < |data| && LastOfName(data, i) ==> row[data[i].name] == Modes(data[i].values)
  {
    row := SummariseColumns(data, Modes);
  }

  // ----- Timestamps and ages -----

  /** The seconds since the epoch of every timestamp, or `None` if one does not parse. */
  function Instants(texts: seq<string>): (r: Option<seq<int>>)
    ensures r.None? <==> exists i :: 0 <= i < |texts| && Timestamps.Parse(texts[i]).None?
    ensures r.Some? ==> |r.value| == |texts| &&
                        forall i :: 0 <= i < |texts| ==> r.value[i] == Timestamps.EpochSeconds(Timestamps.Parse(texts[i]).value)
  {
    if texts == [] then Some([])
    else
      var init := texts[..|texts| - 1];
      var front := Instants(init);
      var last := Timestamps.Parse(texts[|texts| - 1]);
      assert forall i :: 0 <= i < |init| ==> init[i] == texts[i];
      if front.None? || last.None? then None
      else Some(front.value + [Timestamps.EpochSeconds(last.value)])
  }

  /** Loops over the first value of each row, parsing it. */
  method ParseAll(texts: seq<string>) returns (instants: Option<seq<int>>)
    ensures instants == Instants(texts)
  {
    var acc: seq<int> := [];
    for i := 0 to |texts|
      invariant Instants(texts[..i]) == Some(acc)
    {
      assert texts[..i + 1][..i] == texts[..i];
      var d := Timestamps.Parse(texts[i]);
      if d.None? {
        assert Instants(texts[..i + 1]).None?;
        InstantsPrefixNone(texts, i + 1);
        return None;
      }
      acc := acc + [Timestamps.EpochSeconds(d.value)];
    }
    assert texts[..|texts|] == texts;
    instants := Some(acc);
  }

  /** A timestamp that does not parse makes the whole list fail. */
  lemma InstantsPrefixNone(texts: seq<string>, n: nat)
    requires n <= |texts| && Instants(texts[..n]).None?
    ensures Instants(texts).None?
  {
    var i :| 0 <= i < n && Timestamps.Parse(texts[..n][i]).None?;
    assert texts[i] == texts[..n][i];
  }

  datatype UpdateStatistics = UpdateStatistics(mean: Summary, median: Summary, modes: seq<int>)

  /**
   * `calculate_last_update_statistics`: the mean, the median and all modes
   * of the timestamps (as seconds since the epoch); `None` where parsing a
   * timestamp raises.
   */
  method CalculateLastUpdateStatistics(texts: seq<string>) returns (stats: Option<UpdateStatistics>)
    ensures stats.None? <==> exists i :: 0 <= i < |texts| && Timestamps.Parse(texts[i]).None?
    ensures stats.Some? ==> var xs := Instants(texts).value;
      stats.value == UpdateStatistics(Mean(xs), Median(xs), Modes(xs))
  {
    var instants := ParseAll(texts);
    if instants.None? {
      return None;
    }
    var xs := instants.value;
    stats := Some(UpdateStatistics(Mean(xs), Median(xs), Modes(xs)));
  }

  const DaysPerYear: real := 365.25

  /**
   * `(now - created).days`: the whole days elapsed, rounded down, where
   * `now` and `created` are seconds since the epoch.
   */
  function AgeDays(created: int, now: int): (days: int)
    ensures days * 86400 <= now - created < days * 86400 + 86400
  {
    (now - created) / Timestamps.SecondsPerDay
  }

  /** The age in whole days of each instant: the loop of the age calculations. */
  method AgesOf(instants: seq<int>, now: int) returns (ages: seq<int>)
    ensures |ages| == |instants|
    ensures forall i :: 0 <= i < |instants| ==> ages[i] == AgeDays(instants[i], now)
  {
    ages := [];
    for i := 0 to |instants|
      invariant |ages| == i
      invariant forall k :: 0 <= k < i ==> ages[k] == AgeDays(instants[k], now)
    {
      ages := ages + [AgeDays(instants[i], now)];
    }
  }

  /** The age in whole days of each repository, or `None` if a timestamp does not parse. */
  method RepositoryAges(texts: seq<string>, now: int) returns (ages: Option<seq<int>>)
    ensures ages.None? <==> exists i :: 0 <= i < |texts| && Timestamps.Parse(texts[i]).None?
    ensures ages.Some? ==> |ages.value| == |texts| &&
                           forall i :: 0 <= i < |texts| ==> ages.value[i] == AgeDays(Instants(texts).value[i], now)
  {
    var instants := ParseAll(texts);
    if instants.None? {
      return None;
    }
    var days := AgesOf(instants.value, now);
    ages := Some(days);
  }

  /** A mean or median of days, in years of 365.25 days. */
  function InYears(days: Summary): (years: Summary)
    ensures years.Defined? <==> days.Defined?
    ensures years.Defined? ==> years.value * DaysPerYear == days.value
  {
    if days.Undefined? then Undefined else Defined(days.value / DaysPerYear)
  }

  /** `calculate_repositories_middle_age`: the mean age in years. */
  method RepositoriesMiddleAge(texts: seq<string>, now: int) returns (age: Option<Summary>)
    ensures age.None? <==> exists i :: 0 <= i < |texts| && Timestamps.Parse(texts[i]).None?
    ensures age.Some? ==> exists ages: seq<int> ::
      |ages| == |texts| && (forall i :: 0 <= i < |texts| ==> ages[i] == AgeDays(Instants(texts).value[i], now))
      && age.value == InYears(Mean(ages))
  {
    var ages := RepositoryAges(texts, now);
    if ages.None? {
      return None;
    }
    age := Some(InYears(Mean(ages.value)));
  }

  /** `calculate_repositories_median_age`: the median age in years. */
  method RepositoriesMedianAge(texts: seq<string>, now: int) returns (age: Option<Summary>)
    ensures age.None? <==> exists i :: 0 <= i < |texts| && Timestamps.Parse(texts[i]).None?
    ensures age.Some? ==> exists ages: seq<int> ::
      |ages| == |texts| && (forall i :: 0 <= i < |texts| ==> ages[i] == AgeDays(Instants(texts).value[i], now))
      && age.value == InYears(Median(ages))
  {
    var ages := RepositoryAges(texts, now);
    if ages.None? {
      return None;
    }
    age := Some(InYears(Median(ages.value)));
  }

  /**
   * Repositories created no later than `now` have a mean and a median age
   * of at least zero years.
   */
  lemma AgesNotNegative(ages: seq<int>, hi: int)
    requires ages != [] && Within(ages, 0, hi)
    ensures InYears(Mean(ages)).value >= 0.0
    ensures InYears(Median(ages)).value >= 0.0
  {
    MeanWithin(ages, 0, hi);
    MedianWithin(ages, 0, hi);
  }

  /** A creation instant no later than `now` gives an age of at least zero days. */
  lemma AgeOfPastIsNotNegative(created: int, now: int)
    requires created <= now
    ensures AgeDays(created, now) >= 0
  {
  }
}
