/** The sliding-window time-series dataset of the anomaly-detection trainer
    (platform/vertex-ai/anomaly-detection/trainer/data.py).

    A series is a sequence of points (time in whole seconds, value as an
    exact real). Construction sorts the points by time, optionally replaces
    them by their differences, records the sampling period, normalises by
    mean and sample standard deviation, and cuts windows of
    `points_before` consecutive values, each labelled with the value that
    follows it. */
module Dataset {
  import opened Common

  datatype Point = Point(time: int, value: real)

  function Values(ts: seq<Point>): (r: seq<real>)
    ensures |r| == |ts|
    ensures forall i :: 0 <= i < |ts| ==> r[i] == ts[i].value
  {
    seq(|ts|, i requires 0 <= i < |ts| => ts[i].value)
  }

  ghost predicate TimeSorted(ts: seq<Point>) {
    forall i, j :: 0 <= i < j < |ts| ==> ts[i].time <= ts[j].time
  }

  // ---------------------------------------------------------------------
  // Sorting by time (`sort_index`)

  /** Inserts `x` after every point whose time is not later than its own. */
  function InsertByTime(s: seq<Point>, x: Point): (r: seq<Point>)
    ensures multiset(r) == multiset(s) + multiset{x}
    ensures |r| == |s| + 1
  {
    if |s| == 0 || s[|s| - 1].time <= x.time then s + [x]
    else
      assert s == s[..|s| - 1] + [s[|s| - 1]];
      InsertByTime(s[..|s| - 1], x) + [s[|s| - 1]]
  }

  lemma SortedInit(s: seq<Point>)
    requires TimeSorted(s) && |s| > 0
    ensures TimeSorted(s[..|s| - 1])
  {
    var init := s[..|s| - 1];
    forall i, j | 0 <= i < j < |init| ensures init[i].time <= init[j].time {
      assert init[i] == s[i] && init[j] == s[j];
    }
  }

  /** Insertion keeps a time-sorted series sorted. */
  lemma {:induction false} InsertKeepsSorted(s: seq<Point>, x: Point)
    requires TimeSorted(s)
    ensures TimeSorted(InsertByTime(s, x))
    decreases |s|
  {
    if |s| > 0 && s[|s| - 1].time > x.time {
      var init := s[..|s| - 1];
      var last := s[|s| - 1];
      SortedInit(s);
      InsertKeepsSorted(init, x);
      var r' := InsertByTime(init, x);
      forall i | 0 <= i < |r'| ensures r'[i].time <= last.time {
        assert r'[i] in multiset(r');
        if r'[i] != x {
          assert r'[i] in multiset(init);
          var k :| 0 <= k < |init| && init[k] == r'[i];
          assert s[k] == init[k];
        }
      }
      assert InsertByTime(s, x) == r' + [last];
    }
  }

  /** A stable insertion sort by time: the order `sort_index` leaves. */
  function SortByTime(s: seq<Point>): (r: seq<Point>)
    ensures TimeSorted(r)
    ensures multiset(r) == multiset(s)
    ensures |r| == |s|
  {
    if |s| == 0 then []
    else
      assert s == s[..|s| - 1] + [s[|s| - 1]];
      var sorted := SortByTime(s[..|s| - 1]);
      InsertKeepsSorted(sorted, s[|s| - 1]);
      InsertByTime(sorted, s[|s| - 1])
  }

  lemma {:induction false} InsertIntoSortedAtEnd(s: seq<Point>, x: Point)
    requires |s| == 0 || s[|s| - 1].time <= x.time
    ensures InsertByTime(s, x) == s + [x]
  {
  }

  /** A series already in time order is left as it is. */
  lemma {:induction false} SortSortedIsIdentity(s: seq<Point>)
    requires TimeSorted(s)
    ensures SortByTime(s) == s
    decreases |s|
  {
    if |s| > 0 {
      var init := s[..|s| - 1];
      var last := s[|s| - 1];
      SortedInit(s);
      SortSortedIsIdentity(init);
      SortByTimeSnoc(s);
      LastFitsAtEnd(s);
      InsertIntoSortedAtEnd(init, last);
      InitLast(s);
    }
  }

  lemma SortByTimeSnoc(s: seq<Point>)
    requires |s| > 0
    ensures SortByTime(s) == InsertByTime(SortByTime(s[..|s| - 1]), s[|s| - 1])
  {
  }

  lemma LastFitsAtEnd(s: seq<Point>)
    requires TimeSorted(s) && |s| > 0
    ensures var init := s[..|s| - 1]; |init| == 0 || init[|init| - 1].time <= s[|s| - 1].time
  {
    if |s| > 1 {
      assert s[..|s| - 1][|s| - 2] == s[|s| - 2];
    }
  }

  lemma DropSnoc(p: seq<Point>, j: nat)
    requires j < |p|
    ensures p[j..] == p[..|p| - 1][j..] + [p[|p| - 1]]
  {
  }

  lemma SnocAssoc(a: seq<Point>, b: seq<Point>, c: Point)
    ensures (a + b) + [c] == a + (b + [c])
  {
  }

  /** Inserting `x` into `p` puts it after the points up to `j` and before
      the points from `j` on, when those are all later than `x` and the one
      before `j` is not. */
  lemma {:induction false} InsertBeforeLater(p: seq<Point>, x: Point, j: nat)
    requires j <= |p|
    requires j == 0 || p[j - 1].time <= x.time
    requires forall k :: j <= k < |p| ==> p[k].time > x.time
    ensures InsertByTime(p, x) == p[..j] + [x] + p[j..]
    decreases |p|
  {
    if |p| == j {
      InsertIntoSortedAtEnd(p, x);
      assert p[..j] == p && p[j..] == [];
    } else {
      var init, last := p[..|p| - 1], p[|p| - 1];
      assert last.time > x.time;
      assert InsertByTime(p, x) == InsertByTime(init, x) + [last];
      assert init[..j] == p[..j];
      assert j == 0 || init[j - 1] == p[j - 1];
      assert forall k :: j <= k < |init| ==> init[k].time > x.time;
      InsertBeforeLater(init, x, j);
      DropSnoc(p, j);
      SnocAssoc(p[..j] + [x], init[j..], last);
    }
  }

  /** The array during one insertion step: the sorted prefix with a hole
      at `j`, the points shifted right past it, and the unsorted rest. */
  function Layout(p: seq<Point>, j: nat, h: Point, rest: seq<Point>): seq<Point>
    requires j <= |p|
  {
    p[..j] + [h] + p[j..] + rest
  }

  lemma LayoutAt(p: seq<Point>, j: nat, h: Point, rest: seq<Point>)
    requires j <= |p|
    ensures |Layout(p, j, h, rest)| == |p| + 1 + |rest|
    ensures Layout(p, j, h, rest)[j] == h
    ensures j > 0 ==> Layout(p, j, h, rest)[j - 1] == p[j - 1]
  {
    assert Layout(p, j, h, rest) == p[..j] + ([h] + p[j..] + rest);
  }

  lemma LayoutShift(p: seq<Point>, j: nat, h: Point, rest: seq<Point>)
    requires 0 < j <= |p|
    ensures Layout(p, j, h, rest)[j := p[j - 1]] == Layout(p, j - 1, p[j - 1], rest)
  {
    LayoutAt(p, j, h, rest);
    var l := Layout(p, j, h, rest)[j := p[j - 1]];
    var m := Layout(p, j - 1, p[j - 1], rest);
    assert p[j - 1..] == [p[j - 1]] + p[j..];
    assert p[..j] == p[..j - 1] + [p[j - 1]];
    forall k | 0 <= k < |l| ensures l[k] == m[k] {
      if k < j - 1 {
      } else if k == j - 1 || k == j {
      } else {
      }
    }
  }

  lemma LayoutFill(p: seq<Point>, j: nat, h: Point, x: Point, rest: seq<Point>)
    requires j <= |p|
    ensures Layout(p, j, h, rest)[j := x] == Layout(p, j, x, rest)
    ensures Layout(p, j, x, rest)[..|p| + 1] == p[..j] + [x] + p[j..]
    ensures Layout(p, j, x, rest)[|p| + 1..] == rest
  {
    LayoutAt(p, j, h, rest);
    assert Layout(p, j, x, rest) == (p[..j] + [x] + p[j..]) + rest;
  }

  /** One pass of the shifting loop: the array after moving the point
      before the hole into it. */
  lemma ShiftStep(p: seq<Point>, j: nat, h: Point, rest: seq<Point>)
    requires 0 < j <= |p|
    ensures |Layout(p, j, h, rest)| == |p| + 1 + |rest|
    ensures Layout(p, j, h, rest)[j - 1] == p[j - 1]
    ensures Layout(p, j, h, rest)[j := p[j - 1]] == Layout(p, j - 1, p[j - 1], rest)
  {
    LayoutAt(p, j, h, rest);
    LayoutShift(p, j, h, rest);
  }

  lemma SortSnoc(s: seq<Point>, i: nat)
    requires i < |s|
    ensures SortByTime(s[..i + 1]) == InsertByTime(SortByTime(s[..i]), s[i])
  {
    assert s[..i + 1][..i] == s[..i];
  }

  /** Shifts right, one place each, the points before position `i` that
      are later than `x`, leaving a hole where `x` belongs. */
  method ShiftLater(a: array<Point>, i: nat, x: Point, ghost p: seq<Point>, ghost rest: seq<Point>)
    returns (j: nat, ghost h: Point)
    requires |p| == i && a[..] == Layout(p, i, x, rest)
    modifies a
    ensures j <= i && a[..] == Layout(p, j, h, rest)
    ensures InsertByTime(p, x) == p[..j] + [x] + p[j..]
  {
    j := i;
    h := x;
    while j > 0 && a[j - 1].time > x.time
      invariant 0 <= j <= i
      invariant a[..] == Layout(p, j, h, rest)
      invariant forall k :: j <= k < i ==> p[k].time > x.time
    {
      ShiftStep(p, j, h, rest);
      ghost var before := a[..];
      a[j] := a[j - 1];
      assert a[..] == before[j := before[j - 1]];
      h := p[j - 1];
      j := j - 1;
    }
    LayoutAt(p, j, h, rest);
    InsertBeforeLater(p, x, j);
  }

  /** Moves `a[i]` left past the later points before it: one insertion
      step of the in-place sort. */
  method InsertAt(a: array<Point>, i: nat)
    requires i < a.Length
    modifies a
    ensures a[..i + 1] == InsertByTime(old(a[..i]), old(a[i]))
    ensures a[i + 1..] == old(a[i + 1..])
  {
    var x := a[i];
    ghost var p := a[..i];
    ghost var rest := a[i + 1..];
    assert a[..] == Layout(p, i, x, rest) by {
      assert p[..i] == p && p[i..] == [];
      assert a[..] == a[..i] + [a[i]] + a[i + 1..];
    }
    var j, h := ShiftLater(a, i, x, p, rest);
    LayoutFill(p, j, h, x, rest);
    ghost var before := a[..];
    a[j] := x;
    assert a[..] == before[j := x];
  }

  /** The in-place sort of `sort_index(inplace=True)`. */
  method SortInPlace(a: array<Point>)
    modifies a
    ensures a[..] == SortByTime(old(a[..]))
  {
    ghost var s := a[..];
    var i := 0;
    while i < a.Length
      invariant 0 <= i <= a.Length
      invariant a[..i] == SortByTime(s[..i])
      invariant a[i..] == s[i..]
    {
      assert a[i] == s[i] by { assert a[i..][0] == s[i..][0]; }
      InsertAt(a, i);
      SortSnoc(s, i);
      assert a[i + 1..] == s[i + 1..] by { assert s[i + 1..] == s[i..][1..]; }
      i := i + 1;
    }
    assert a[..] == a[..a.Length] && s == s[..a.Length];
  }

  /** The series' points laid out in an array and sorted there. */
  method SortSeries(s: seq<Point>) returns (r: seq<Point>)
    ensures r == SortByTime(s)
  {
    var a := new Point[|s|](i requires 0 <= i < |s| => s[i]);
    assert a[..] == s;
    SortInPlace(a);
    r := a[..];
  }

  // ---------------------------------------------------------------------
  // Differencing (`diff().dropna()`) and its inverse

  /** Each point after the first, carrying its change from the previous one. */
  function Diff(ts: seq<Point>): (r: seq<Point>)
    requires |ts| >= 1
    ensures |r| == |ts| - 1
    ensures forall i :: 0 <= i < |r| ==> r[i].time == ts[i + 1].time
  {
    seq(|ts| - 1, i requires 0 <= i < |ts| - 1 => Point(ts[i + 1].time, ts[i + 1].value - ts[i].value))
  }

  /** Running sums from a starting value: what undoes differencing. */
  function Integrate(x0: real, ds: seq<real>): (r: seq<real>)
    ensures |r| == |ds| + 1 && r[0] == x0
  {
    if |ds| == 0 then [x0]
    else
      var r := Integrate(x0, ds[..|ds| - 1]);
      r + [r[|r| - 1] + ds[|ds| - 1]]
  }

  /** The first value and the differences give back the series; in
      particular its last value is the `_last` the dataset records. */
  lemma {:induction false} DiffIntegrate(ts: seq<Point>)
    requires |ts| >= 1
    ensures Integrate(ts[0].value, Values(Diff(ts))) == Values(ts)
    decreases |ts|
  {
    if |ts| > 1 {
      var n := |ts|;
      var init := ts[..n - 1];
      DiffIntegrate(init);
      var ds := Values(Diff(ts));
      DiffValuesInit(ts);
      assert init[0] == ts[0];
      IntegrateSnoc(ts[0].value, ds, Values(init), ts[n - 1].value);
    }
  }

  /** The differences of a series without its last point, and the last
      difference. */
  lemma DiffValuesInit(ts: seq<Point>)
    requires |ts| > 1
    ensures var ds, init := Values(Diff(ts)), ts[..|ts| - 1];
      && ds[..|ts| - 2] == Values(Diff(init))
      && Values(init)[|ts| - 2] + ds[|ts| - 2] == ts[|ts| - 1].value
      && Values(ts) == Values(init) + [ts[|ts| - 1].value]
  {
    var ds, init := Values(Diff(ts)), ts[..|ts| - 1];
    assert ds[..|ts| - 2] == Values(Diff(init));
    assert Values(ts) == Values(init) + [ts[|ts| - 1].value];
  }

  lemma IntegrateSnoc(x0: real, ds: seq<real>, prev: seq<real>, last: real)
    requires |ds| > 0 && Integrate(x0, ds[..|ds| - 1]) == prev
    requires prev[|prev| - 1] + ds[|ds| - 1] == last
    ensures Integrate(x0, ds) == prev + [last]
  {
  }

  // ---------------------------------------------------------------------
  // Normalisation

  function Sum(xs: seq<real>): real {
    if |xs| == 0 then 0.0 else Sum(xs[..|xs| - 1]) + xs[|xs| - 1]
  }

  /** `Series.mean()`. */
  function Mean(xs: seq<real>): real
    requires |xs| > 0
  {
    Sum(xs) / (|xs| as real)
  }

  function SquaredDeviations(xs: seq<real>, m: real): (r: real)
    ensures r >= 0.0
  {
    if |xs| == 0 then 0.0
    else
      var d := xs[|xs| - 1] - m;
      assert d * d >= 0.0 by { if d < 0.0 { assert d * d == (-d) * (-d); } }
      SquaredDeviations(xs[..|xs| - 1], m) + d * d
  }

  /** The square of `Series.std()` (one degree of freedom removed). */
  function SampleVariance(xs: seq<real>): (r: real)
    requires |xs| >= 2
    ensures r >= 0.0
  {
    SquaredDeviations(xs, Mean(xs)) / ((|xs| - 1) as real)
  }

  /** `(ts - mean) / std`, keeping the times. */
  function Normalize(ts: seq<Point>, m: real, sd: real): (r: seq<Point>)
    requires sd != 0.0
    ensures |r| == |ts|
    ensures forall i :: 0 <= i < |ts| ==> r[i].time == ts[i].time
  {
    seq(|ts|, i requires 0 <= i < |ts| => Point(ts[i].time, (ts[i].value - m) / sd))
  }

  /** `denormalize`. */
  function Denormalize(x: real, m: real, sd: real): real {
    x * sd + m
  }

  /** Denormalising undoes normalisation, value by value. */
  lemma DenormalizeInvertsNormalize(ts: seq<Point>, m: real, sd: real, i: nat)
    requires sd != 0.0 && i < |ts|
    ensures Denormalize(Normalize(ts, m, sd)[i].value, m, sd) == ts[i].value
  {
    var v := ts[i].value;
    assert (v - m) / sd * sd == v - m;
  }

  lemma NormalizedInit(ts: seq<Point>, m: real, sd: real)
    requires sd != 0.0 && |ts| > 0
    ensures Values(Normalize(ts, m, sd))[..|ts| - 1] == Values(Normalize(ts[..|ts| - 1], m, sd))
    ensures Values(ts)[..|ts| - 1] == Values(ts[..|ts| - 1])
  {
  }

  lemma SumSnoc(xs: seq<real>)
    requires |xs| > 0
    ensures Sum(xs) == Sum(xs[..|xs| - 1]) + xs[|xs| - 1]
  {
  }

  /** Each value less `m`. */
  function Shifted(xs: seq<real>, m: real): (r: seq<real>)
    ensures |r| == |xs|
  {
    if |xs| == 0 then [] else Shifted(xs[..|xs| - 1], m) + [xs[|xs| - 1] - m]
  }

  /** Each value divided by `sd`. */
  function Scaled(xs: seq<real>, sd: real): (r: seq<real>)
    requires sd != 0.0
    ensures |r| == |xs|
  {
    if |xs| == 0 then [] else Scaled(xs[..|xs| - 1], sd) + [xs[|xs| - 1] / sd]
  }

  /** `n` copies of `m` added up. */
  function Times(n: nat, m: real): real {
    if n == 0 then 0.0 else Times(n - 1, m) + m
  }

  lemma {:induction false} TimesIsProduct(n: nat, m: real)
    ensures Times(n, m) == (n as real) * m
  {
    if n > 0 {
      TimesIsProduct(n - 1, m);
      assert ((n - 1) as real) * m + m == (n as real) * m;
    }
  }

  lemma {:induction false} SumShifted(xs: seq<real>, m: real)
    ensures Sum(Shifted(xs, m)) == Sum(xs) - Times(|xs|, m)
    decreases |xs|
  {
    if |xs| > 0 {
      var init := xs[..|xs| - 1];
      SumShifted(init, m);
      var c := Shifted(xs, m);
      assert c[..|xs| - 1] == Shifted(init, m);
      SumSnoc(c);
    }
  }

  lemma {:induction false} SumScaled(xs: seq<real>, sd: real)
    requires sd != 0.0
    ensures Sum(Scaled(xs, sd)) == Sum(xs) / sd
    decreases |xs|
  {
    if |xs| > 0 {
      var init := xs[..|xs| - 1];
      SumScaled(init, sd);
      var c := Scaled(xs, sd);
      assert c[..|xs| - 1] == Scaled(init, sd);
      SumSnoc(c);
      DivAdd(Sum(init), xs[|xs| - 1], sd);
    }
  }

  /** Normalising a series shifts its values by the mean, then scales
      them by the deviation. */
  lemma {:induction false} NormalizedValues(ts: seq<Point>, m: real, sd: real)
    requires sd != 0.0
    ensures Values(Normalize(ts, m, sd)) == Scaled(Shifted(Values(ts), m), sd)
    decreases |ts|
  {
    if |ts| > 0 {
      var n := |ts|;
      NormalizedValues(ts[..n - 1], m, sd);
      NormalizedInit(ts, m, sd);
      var xs := Values(Normalize(ts, m, sd));
      assert xs == xs[..n - 1] + [xs[n - 1]];
      var sh := Shifted(Values(ts), m);
      assert sh[..n - 1] == Shifted(Values(ts[..n - 1]), m);
    }
  }

  /** Normalising shifts each value by the mean, then scales it, so the
      normalised total is the shifted total scaled. */
  lemma SumNormalized(ts: seq<Point>, m: real, sd: real)
    requires sd != 0.0
    ensures Sum(Values(Normalize(ts, m, sd))) == Sum(Shifted(Values(ts), m)) / sd
  {
    var shifted := Shifted(Values(ts), m);
    assert Values(Normalize(ts, m, sd)) == Scaled(shifted, sd) by { NormalizedValues(ts, m, sd); }
    SumScaled(shifted, sd);
  }

  lemma DivAdd(x: real, y: real, sd: real)
    requires sd != 0.0
    ensures x / sd + y / sd == (x + y) / sd
  {
  }

  /** The normalised series has mean zero. */
  lemma NormalizedMeanIsZero(ts: seq<Point>, sd: real)
    requires |ts| > 0 && sd != 0.0
    ensures Mean(Values(Normalize(ts, Mean(Values(ts)), sd))) == 0.0
  {
    var xs := Values(ts);
    var m := Mean(xs);
    assert |xs| == |ts|;
    MeanTimesCount(Sum(xs), |ts|, m);
    TimesIsProduct(|ts|, m);
    SumShifted(xs, m);
    assert Sum(Shifted(xs, m)) == 0.0;
    SumNormalized(ts, m, sd);
    assert Sum(Values(Normalize(ts, m, sd))) == 0.0 / sd;
  }

  lemma MeanTimesCount(total: real, n: nat, m: real)
    requires n > 0 && m == total / (n as real)
    ensures (n as real) * m == total
  {
  }

  // ---------------------------------------------------------------------
  // Preprocessing

  /** What `preprocess_data` computes before it normalises. */
  datatype Prepared = Prepared(ts: seq<Point>, first: Option<real>, last: Option<real>, period: int)

  /** `(index[-1] - index[-2]).seconds`: the last sampling step, with
      whole days dropped. */
  function Period(d: seq<Point>): (r: int)
    requires |d| >= 2
    ensures 0 <= r < 86400
  {
    (d[|d| - 1].time - d[|d| - 2].time) % 86400
  }

  /** The fewest points `preprocess_data` needs: two for the period, one
      more when a point is consumed by differencing. */
  function MinPoints(difference: bool): nat {
    if difference then 3 else 2
  }

  /** `preprocess_data` after sorting, up to normalisation. */
  function PrepareSorted(sorted: seq<Point>, difference: bool): (r: Prepared)
    requires |sorted| >= MinPoints(difference)
    ensures |r.ts| == |sorted| - (if difference then 1 else 0)
    ensures r.first.Some? <==> difference
  {
    if difference then
      var d := Diff(sorted);
      Prepared(d, Some(sorted[0].value), Some(sorted[|sorted| - 1].value), Period(d))
    else Prepared(sorted, None, None, Period(sorted))
  }

  lemma DiffKeepsSorted(ts: seq<Point>)
    requires |ts| >= 1 && TimeSorted(ts)
    ensures TimeSorted(Diff(ts))
  {
    var d := Diff(ts);
    forall i, j | 0 <= i < j < |d| ensures d[i].time <= d[j].time {
      assert d[i].time == ts[i + 1].time && d[j].time == ts[j + 1].time;
    }
  }

  /** `preprocess_data` up to normalisation; it raises IndexError (here
      `Failure`) when too few points remain for the period, and also when
      differencing an empty series. */
  function Preprocessed(series: seq<Point>, difference: bool): (r: Result<Prepared, string>)
    ensures r.Success? <==> |series| >= MinPoints(difference)
    ensures r.Success? ==> && TimeSorted(r.value.ts)
                           && |r.value.ts| == |series| - (if difference then 1 else 0)
                           && (r.value.first.Some? <==> difference)
  {
    var sorted := SortByTime(series);
    if |sorted| < MinPoints(difference) then Failure("IndexError")
    else
      assert difference ==> TimeSorted(Diff(sorted)) by {
        if difference { DiffKeepsSorted(sorted); }
      }
      Success(PrepareSorted(sorted, difference))
  }

  /** With differencing, `_first` and the differences rebuild the sorted
      series, and `_last` is its final value. */
  lemma DifferencedCanBeRebuilt(series: seq<Point>)
    requires |series| >= 3
    ensures var p := Preprocessed(series, true).value;
      var sorted := SortByTime(series);
      && Integrate(p.first.value, Values(p.ts)) == Values(sorted)
      && p.last == Some(Integrate(p.first.value, Values(p.ts))[|series| - 1])
  {
    DiffIntegrate(SortByTime(series));
  }

  // ---------------------------------------------------------------------
  // Windows and labels

  /** `[ts.iloc[i - points_before:i] for i in range(points_before, len(ts))]`. */
  function Windows(vs: seq<real>, pb: nat): (r: seq<seq<real>>)
    ensures |r| == if |vs| >= pb then |vs| - pb else 0
    ensures forall k :: 0 <= k < |r| ==> r[k] == vs[k..k + pb]
  {
    if |vs| < pb then []
    else seq(|vs| - pb, k requires 0 <= k < |vs| - pb => vs[k..k + pb])
  }

  /** `[ts.iloc[i] for i in range(points_before, len(ts))]`. */
  function Labels(vs: seq<real>, pb: nat): (r: seq<real>)
    ensures |r| == if |vs| >= pb then |vs| - pb else 0
    ensures forall k :: 0 <= k < |r| ==> r[k] == vs[k + pb]
  {
    if |vs| < pb then []
    else seq(|vs| - pb, k requires 0 <= k < |vs| - pb => vs[k + pb])
  }

  /** Row k holds the `pb` consecutive values starting at k, and its label is
      the value right after them. */
  lemma WindowAndLabel(vs: seq<real>, pb: nat, k: nat)
    requires k + pb < |vs|
    ensures Windows(vs, pb)[k] == vs[k..k + pb] && Labels(vs, pb)[k] == vs[k + pb]
  {
  }

  /** Consecutive rows overlap: the next row drops the oldest value of this
      row and appends this row's label. */
  lemma {:induction false} WindowsSlide(vs: seq<real>, pb: nat, k: nat)
    requires pb >= 1 && k + 1 + pb < |vs|
    ensures Windows(vs, pb)[k + 1] == Windows(vs, pb)[k][1..] + [Labels(vs, pb)[k]]
  {
    assert vs[k + 1..k + 1 + pb] == vs[k..k + pb][1..] + [vs[k + pb]];
  }

  /** In a time-sorted series every value of a window is no later than its
      label. */
  lemma WindowPrecedesLabel(ts: seq<Point>, pb: nat, k: nat, j: nat)
    requires TimeSorted(ts) && j < pb && k + pb < |ts|
    ensures Windows(Values(ts), pb)[k][j] == ts[k + j].value
    ensures Labels(Values(ts), pb)[k] == ts[k + pb].value
    ensures ts[k + j].time <= ts[k + pb].time
  {
  }

  // ---------------------------------------------------------------------
  // The dataset's state, indexing and splitting

  datatype DatasetState = DatasetState(
    pointsBefore: nat, difference: bool, recurrent: bool, includeDateFeatures: bool,
    part: Option<string>, ts: seq<Point>, rows: seq<seq<real>>, labels: seq<real>,
    period: int, mean: real, std: real, first: Option<real>, last: Option<real>)

  /** The state after `preprocess_data`. */
  function PreprocessState(s: DatasetState, sd: real): DatasetState
    requires Preprocessed(s.ts, s.difference).Success? && sd != 0.0
  {
    var p := Preprocessed(s.ts, s.difference).value;
    var m := Mean(Values(p.ts));
    s.(ts := Normalize(p.ts, m, sd), period := p.period, mean := m, std := sd,
       first := if s.difference then p.first else s.first,
       last := if s.difference then p.last else s.last)
  }

  /** The fields set before `preprocess_data` runs; `_first` and `_last`,
      which exist only after differencing, are `None` until then. */
  function Initial(series: seq<Point>, pb: nat, difference: bool, includeDateFeatures: bool,
                   part: Option<string>, recurrent: bool): DatasetState
  {
    DatasetState(pb, difference, recurrent, includeDateFeatures, part, series, [], [], 0, 0.0, 0.0, None, None)
  }

  /** The state a dataset is constructed with. */
  function Built(series: seq<Point>, pb: nat, difference: bool, includeDateFeatures: bool,
                 part: Option<string>, recurrent: bool, sd: real): (s: DatasetState)
    requires Preprocessed(series, difference).Success? && sd != 0.0
    ensures |s.rows| == |s.labels| == (if |s.ts| >= pb then |s.ts| - pb else 0)
    ensures |s.ts| == |series| - (if difference then 1 else 0)
    ensures s.pointsBefore == pb && s.recurrent == recurrent && s.part == part
  {
    var p := PreprocessState(Initial(series, pb, difference, includeDateFeatures, part, recurrent), sd);
    p.(rows := Windows(Values(p.ts), pb), labels := Labels(Values(p.ts), pb))
  }

  /** What `__getitem__` returns: the row, wrapped in a list for recurrent
      models, and its label. */
  datatype Item = Flat(row: seq<real>, target: real) | Nested(rows: seq<seq<real>>, target: real)

  /** `__getitem__`; indices follow Python (negative from the end) and `None`
      is the IndexError. */
  function GetItem(s: DatasetState, idx: int): (r: Option<Item>)
    ensures r.Some? <==> Index(s.rows, idx).Some? && Index(s.labels, idx).Some?
    ensures r.Some? ==> r.value.target == Index(s.labels, idx).value
    ensures r.Some? && s.recurrent ==> r.value == Nested([Index(s.rows, idx).value], r.value.target)
    ensures r.Some? && !s.recurrent ==> r.value == Flat(Index(s.rows, idx).value, r.value.target)
  {
    match (Index(s.rows, idx), Index(s.labels, idx))
    case (Some(row), Some(target)) =>
      if s.recurrent then Some(Nested([row], target)) else Some(Flat(row, target))
    case _ => None
  }

  /** Every index below `__len__` addresses a window and its label. */
  lemma GetItemInRange(series: seq<Point>, pb: nat, difference: bool, includeDateFeatures: bool,
                       part: Option<string>, recurrent: bool, sd: real, idx: int)
    requires Preprocessed(series, difference).Success? && sd != 0.0
    requires var s := Built(series, pb, difference, includeDateFeatures, part, recurrent, sd);
      0 <= idx < |s.rows|
    ensures var s := Built(series, pb, difference, includeDateFeatures, part, recurrent, sd);
      && GetItem(s, idx).Some?
      && GetItem(s, idx).value.target == Values(s.ts)[idx + pb]
      && (!recurrent ==> GetItem(s, idx).value.row == Values(s.ts)[idx..idx + pb])
  {
  }

  /** The three forms `split`'s `train_part` takes. */
  datatype SplitPoint = ByCount(n: int) | ByFraction(f: real) | ByTime(t: int)

  /** `int(x)`: truncation toward zero. */
  function Trunc(x: real): (r: int)
    ensures x >= 0.0 ==> r as real <= x < r as real + 1.0
    ensures x < 0.0 ==> r as real - 1.0 < x <= r as real
  {
    if x >= 0.0 then x.Floor else -((-x).Floor)
  }

  /** `sum(ts.index < t)`. */
  function CountBefore(ts: seq<Point>, t: int): (r: nat)
    ensures r <= |ts|
  {
    if |ts| == 0 then 0
    else CountBefore(ts[..|ts| - 1], t) + (if ts[|ts| - 1].time < t then 1 else 0)
  }

  /** In a time-sorted series the points before `t` are exactly a prefix. */
  lemma {:induction false} CountBeforeIsPrefix(ts: seq<Point>, t: int)
    requires TimeSorted(ts)
    ensures forall i :: 0 <= i < CountBefore(ts, t) ==> ts[i].time < t
    ensures forall i :: CountBefore(ts, t) <= i < |ts| ==> ts[i].time >= t
    decreases |ts|
  {
    if |ts| > 0 {
      var init := ts[..|ts| - 1];
      assert TimeSorted(init) by {
        forall i, j | 0 <= i < j < |init| ensures init[i].time <= init[j].time {
          assert init[i] == ts[i] && init[j] == ts[j];
        }
      }
      CountBeforeIsPrefix(init, t);
      var c := CountBefore(init, t);
    }
  }

  /** The number of rows `split` gives the training half. */
  function SplitCount(sp: SplitPoint, s: DatasetState): int {
    match sp
    case ByCount(n) => n
    case ByFraction(f) => Trunc((|s.rows| as real) * f)
    case ByTime(t) => CountBefore(s.ts, t)
  }

  /** `split`: both halves are copies whose rows, labels and points are
      sliced at the same position and which are tagged by part. */
  function SplitSpec(s: DatasetState, sp: SplitPoint): (r: (DatasetState, DatasetState))
    ensures r.0.part == Some("train") && r.1.part == Some("test")
  {
    var points := SplitCount(sp, s);
    (s.(rows := Take(s.rows, points), labels := Take(s.labels, points),
        ts := Take(s.ts, points + s.pointsBefore), part := Some("train")),
     s.(rows := Drop(s.rows, points), labels := Drop(s.labels, points),
        ts := Drop(s.ts, points), part := Some("test")))
  }

  /** `split` loses and reorders nothing: the halves concatenate back to the
      rows and labels; all other fields are copied. */
  lemma SplitPartitions(s: DatasetState, sp: SplitPoint)
    ensures var (train, test) := SplitSpec(s, sp);
      && train.rows + test.rows == s.rows
      && train.labels + test.labels == s.labels
      && train.(rows := s.rows, labels := s.labels, ts := s.ts, part := s.part) == s
      && test.(rows := s.rows, labels := s.labels, ts := s.ts, part := s.part) == s
  {
    var points := SplitCount(sp, s);
    TakeDrop(s.rows, points);
    TakeDrop(s.labels, points);
  }

  /** An int asks for that many training rows, a float for the truncated
      fraction of the rows (each within range). */
  lemma SplitSizes(s: DatasetState, sp: SplitPoint)
    requires sp.ByCount? ==> 0 <= sp.n <= |s.rows|
    requires sp.ByFraction? ==> 0.0 <= sp.f <= 1.0
    ensures sp.ByCount? ==> |SplitSpec(s, sp).0.rows| == sp.n
    ensures sp.ByFraction? ==> |SplitSpec(s, sp).0.rows| == Trunc((|s.rows| as real) * sp.f)
    ensures sp.ByFraction? ==> 0 <= |SplitSpec(s, sp).0.rows| <= |s.rows|
  {
    TrainRowCount(s, sp);
    if sp.ByFraction? {
      TruncFraction(|s.rows|, sp.f);
    }
  }

  lemma TrainRowCount(s: DatasetState, sp: SplitPoint)
    ensures |SplitSpec(s, sp).0.rows| == SliceBound(SplitCount(sp, s), |s.rows|)
  {
  }

  /** A truncated fraction of `n` lies between 0 and `n`. */
  lemma TruncFraction(n: nat, f: real)
    requires 0.0 <= f <= 1.0
    ensures 0 <= Trunc((n as real) * f) <= n
  {
    var x := (n as real) * f;
    var rest := (n as real) * (1.0 - f);
    assert rest >= 0.0;
    assert x == n as real - rest;
    var t := Trunc(x);
    assert t as real <= x;
  }

  lemma ValuesSlice(ts: seq<Point>, lo: nat, hi: nat)
    requires lo <= hi <= |ts|
    ensures Values(ts[lo..hi]) == Values(ts)[lo..hi]
  {
  }

  lemma WindowOfSlice(vs: seq<real>, pb: nat, lo: nat, hi: nat, k: nat)
    requires lo + k + pb <= hi <= |vs|
    ensures vs[lo..hi][k..k + pb] == vs[lo + k..lo + k + pb]
  {
    var w := vs[lo..hi][k..k + pb];
    var u := vs[lo + k..lo + k + pb];
    assert forall t :: 0 <= t < pb ==> w[t] == u[t];
  }

  /** The windows of a stretch of the values are the matching stretch of
      the windows. */
  lemma WindowsOfSlice(vs: seq<real>, pb: nat, lo: nat, hi: nat)
    requires lo + pb <= hi <= |vs|
    ensures Windows(vs[lo..hi], pb) == Windows(vs, pb)[lo..hi - pb]
  {
    var c := vs[lo..hi];
    var w := Windows(c, pb);
    var u := Windows(vs, pb)[lo..hi - pb];
    assert |w| == |u| == hi - lo - pb;
    forall k | 0 <= k < |w| ensures w[k] == u[k] {
      WindowOfSlice(vs, pb, lo, hi, k);
    }
    assert w == u;
  }

  lemma LabelsOfSlice(vs: seq<real>, pb: nat, lo: nat, hi: nat)
    requires lo + pb <= hi <= |vs|
    ensures Labels(vs[lo..hi], pb) == Labels(vs, pb)[lo..hi - pb]
  {
    var l := Labels(vs[lo..hi], pb);
    var v := Labels(vs, pb)[lo..hi - pb];
    forall k | 0 <= k < |l| ensures l[k] == v[k] {
      assert l[k] == vs[lo..hi][k + pb];
    }
  }

  /** Split inside the rows, each half is a well-formed dataset of its own:
      its rows and labels are exactly the windows of its points. The two
      point slices overlap in the `points_before` points that the test
      half's first window reads. */
  lemma SplitHalvesAreWindows(s: DatasetState, sp: SplitPoint)
    requires s.rows == Windows(Values(s.ts), s.pointsBefore)
    requires s.labels == Labels(Values(s.ts), s.pointsBefore)
    requires 0 <= SplitCount(sp, s) <= |s.rows|
    ensures var (train, test) := SplitSpec(s, sp);
      && train.rows == Windows(Values(train.ts), s.pointsBefore)
      && train.labels == Labels(Values(train.ts), s.pointsBefore)
      && test.rows == Windows(Values(test.ts), s.pointsBefore)
      && test.labels == Labels(Values(test.ts), s.pointsBefore)
    ensures var (train, test) := SplitSpec(s, sp);
      var p := SplitCount(sp, s);
      |s.ts| >= s.pointsBefore ==>
        && train.ts == s.ts[..p + s.pointsBefore]
        && test.ts == s.ts[p..]
  {
    TrainHalfWindows(s, sp);
    TestHalfWindows(s, sp);
  }

  lemma TrainHalfWindows(s: DatasetState, sp: SplitPoint)
    requires s.rows == Windows(Values(s.ts), s.pointsBefore)
    requires s.labels == Labels(Values(s.ts), s.pointsBefore)
    requires 0 <= SplitCount(sp, s) <= |s.rows|
    ensures var train := SplitSpec(s, sp).0;
      && train.rows == Windows(Values(train.ts), s.pointsBefore)
      && train.labels == Labels(Values(train.ts), s.pointsBefore)
      && (|s.ts| >= s.pointsBefore ==> train.ts == s.ts[..SplitCount(sp, s) + s.pointsBefore])
  {
    var p, pb := SplitCount(sp, s), s.pointsBefore;
    if |s.ts| >= pb {
      SlicedWindows(s.ts, pb, 0, p + pb);
      assert Take(s.ts, p + pb) == s.ts[0..p + pb];
      assert Take(s.rows, p) == s.rows[0..p];
      assert Take(s.labels, p) == s.labels[0..p];
    } else {
      assert Take(s.ts, p + pb) == s.ts;
    }
  }

  lemma TestHalfWindows(s: DatasetState, sp: SplitPoint)
    requires s.rows == Windows(Values(s.ts), s.pointsBefore)
    requires s.labels == Labels(Values(s.ts), s.pointsBefore)
    requires 0 <= SplitCount(sp, s) <= |s.rows|
    ensures var test := SplitSpec(s, sp).1;
      && test.rows == Windows(Values(test.ts), s.pointsBefore)
      && test.labels == Labels(Values(test.ts), s.pointsBefore)
      && (|s.ts| >= s.pointsBefore ==> test.ts == s.ts[SplitCount(sp, s)..])
  {
    var p, pb, n := SplitCount(sp, s), s.pointsBefore, |s.ts|;
    if n >= pb {
      SlicedWindows(s.ts, pb, p, n);
      assert Drop(s.ts, p) == s.ts[p..n];
      assert Drop(s.rows, p) == s.rows[p..n - pb];
      assert Drop(s.labels, p) == s.labels[p..n - pb];
    }
  }

  /** The windows and labels of a slice of the points are the matching
      slices of the windows and labels. */
  lemma SlicedWindows(ts: seq<Point>, pb: nat, lo: nat, hi: nat)
    requires lo + pb <= hi <= |ts|
    ensures Windows(Values(ts[lo..hi]), pb) == Windows(Values(ts), pb)[lo..hi - pb]
    ensures Labels(Values(ts[lo..hi]), pb) == Labels(Values(ts), pb)[lo..hi - pb]
  {
    ValuesSlice(ts, lo, hi);
    WindowsOfSlice(Values(ts), pb, lo, hi);
    LabelsOfSlice(Values(ts), pb, lo, hi);
  }

  /** Splitting by time gives training every point before `t` (and the
      following `points_before` points that complete its last windows). */
  lemma SplitByTimeKeepsEarlierPoints(s: DatasetState, t: int)
    requires TimeSorted(s.ts)
    ensures var (train, test) := SplitSpec(s, ByTime(t));
      var c := CountBefore(s.ts, t);
      && (forall i :: 0 <= i < c ==> s.ts[i] in train.ts && s.ts[i].time < t)
      && (forall i :: 0 <= i < |test.ts| ==> test.ts[i].time >= t)
  {
    CountBeforeIsPrefix(s.ts, t);
    var c := CountBefore(s.ts, t);
    var (train, test) := SplitSpec(s, ByTime(t));
    assert train.ts == s.ts[..if c + s.pointsBefore <= |s.ts| then c + s.pointsBefore else |s.ts|];
    assert forall i :: 0 <= i < c ==> train.ts[i] == s.ts[i];
    assert test.ts == s.ts[c..];
  }

  // ---------------------------------------------------------------------
  // The dataset object

  class TimeSeriesDataset {
    var pointsBefore: nat
    var difference: bool
    var recurrent: bool
    var includeDateFeatures: bool
    var part: Option<string>
    var ts: seq<Point>
    var rows: seq<seq<real>>
    var labels: seq<real>
    var period: int
    var mean: real
    var std: real
    var first: Option<real>
    var last: Option<real>

    function State(): DatasetState
      reads this
    {
      DatasetState(pointsBefore, difference, recurrent, includeDateFeatures, part, ts, rows,
                   labels, period, mean, std, first, last)
    }

    /** `TimeSeriesDataset(series, points_before, ...)`. The square root of
        the sample variance is not computed by the model: `sd` is supplied
        and characterised by its square. */
    constructor(series: seq<Point>, pb: nat, difference: bool, includeDateFeatures: bool,
                part: Option<string>, recurrent: bool, sd: real)
      requires Preprocessed(series, difference).Success?
      requires sd > 0.0 && sd * sd == SampleVariance(Values(Preprocessed(series, difference).value.ts))
      ensures State() == Built(series, pb, difference, includeDateFeatures, part, recurrent, sd)
    {
      pointsBefore := pb;
      this.difference := difference;
      this.recurrent := recurrent;
      this.part := part;
      ts := series;
      rows, labels, period, mean, std, first, last := [], [], 0, 0.0, 0.0, None, None;
      this.includeDateFeatures := includeDateFeatures;
      new;
      ghost var s0 := Initial(series, pb, difference, includeDateFeatures, part, recurrent);
      assert State() == s0;
      PreprocessData(sd);
      ghost var p := PreprocessState(s0, sd);
      assert State() == p;
      rows := Windows(Values(ts), pb);
      labels := Labels(Values(ts), pb);
      assert State() == p.(rows := Windows(Values(p.ts), pb), labels := Labels(Values(p.ts), pb));
    }

    /** A deep copy. */
    constructor Copy(s: DatasetState)
      ensures State() == s
    {
      pointsBefore, difference, recurrent, includeDateFeatures := s.pointsBefore, s.difference, s.recurrent, s.includeDateFeatures;
      part, ts, rows, labels := s.part, s.ts, s.rows, s.labels;
      period, mean, std, first, last := s.period, s.mean, s.std, s.first, s.last;
    }

    /** `preprocess_data`: sorts the points in place, differences them when
        asked, records the period and normalises. */
    method PreprocessData(sd: real)
      modifies this
      requires Preprocessed(ts, difference).Success? && sd != 0.0
      ensures State() == PreprocessState(old(State()), sd)
    {
      ghost var s0 := State();
      ghost var p := Preprocessed(s0.ts, s0.difference).value;
      SortAndDifference();
      period := Period(ts);
      assert State() == s0.(ts := p.ts, period := p.period,
        first := if s0.difference then p.first else s0.first,
        last := if s0.difference then p.last else s0.last);
      Normalise(sd);
    }

    /** The sort, then the differencing when asked. */
    method SortAndDifference()
      modifies this
      requires Preprocessed(ts, difference).Success?
      ensures var p := Preprocessed(old(ts), old(difference)).value;
        State() == old(State()).(ts := p.ts,
          first := if old(difference) then p.first else old(first),
          last := if old(difference) then p.last else old(last))
    {
      ghost var p := Preprocessed(ts, difference).value;
      assert p == PrepareSorted(SortByTime(ts), difference);
      SortIndex();
      if difference {
        DifferenceSeries();
      }
    }

    /** `ts.sort_index(inplace=True)`. */
    method SortIndex()
      modifies this
      ensures State() == old(State()).(ts := SortByTime(old(ts)))
    {
      ts := SortSeries(ts);
    }

    /** Records the first and last values, then keeps the differences. */
    method DifferenceSeries()
      modifies this
      requires |ts| >= 1
      ensures State() == old(State()).(first := Some(old(ts)[0].value),
        last := Some(old(ts)[|old(ts)| - 1].value), ts := Diff(old(ts)))
    {
      first := Some(ts[0].value);
      last := Some(ts[|ts| - 1].value);
      ts := Diff(ts);
    }

    /** Takes the mean, stores the supplied deviation and normalises. */
    method Normalise(sd: real)
      modifies this
      requires |ts| >= 1 && sd != 0.0
      ensures State() == old(State()).(mean := Mean(Values(old(ts))), std := sd,
        ts := Normalize(old(ts), Mean(Values(old(ts))), sd))
    {
      mean := Mean(Values(ts));
      std := sd;
      ts := Normalize(ts, mean, std);
    }

    /** `__len__`. */
    function Len(): (n: nat)
      reads this
      ensures n == |rows|
    {
      |rows|
    }

    /** `denormalize`. */
    function DenormalizeValue(x: real): real
      reads this
    {
      Denormalize(x, mean, std)
    }

    /** `split`: two deep copies sliced at the same position; the dataset
        itself is unchanged. */
    method Split(sp: SplitPoint) returns (train: TimeSeriesDataset, test: TimeSeriesDataset)
      ensures fresh(train) && fresh(test)
      ensures (train.State(), test.State()) == SplitSpec(State(), sp)
      ensures State() == old(State())
    {
      var s := State();
      var points := SplitCount(sp, s);
      train := CopyWith(s, Take(s.rows, points), Take(s.labels, points),
                        Take(s.ts, points + s.pointsBefore), Some("train"));
      test := CopyWith(s, Drop(s.rows, points), Drop(s.labels, points),
                       Drop(s.ts, points), Some("test"));
    }
  }

  /** A deep copy of `s` whose rows, labels, points and part are then
      reassigned. */
  method CopyWith(s: DatasetState, rows: seq<seq<real>>, labels: seq<real>, ts: seq<Point>, part: Option<string>)
    returns (d: TimeSeriesDataset)
    ensures fresh(d) && d.State() == s.(rows := rows, labels := labels, ts := ts, part := part)
  {
    d := new TimeSeriesDataset.Copy(s);
    d.rows, d.labels, d.ts, d.part := rows, labels, ts, part;
  }
}
