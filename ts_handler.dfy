/** The serving handler of the anomaly detector
    (platform/docker/vai-ad-tma/files/ts_handler.py).

    A request carries a short history of the metric. `preprocess` normalises
    it with the trained mean and deviation and puts it in time order;
    `inference` feeds the first `input_size` values to the model and keeps
    the next one as the real value; `postprocess` denormalises both and
    classifies the real value against a band around the prediction.

    The model's forward pass is a parameter `predict`. The JSON text of a
    request is not parsed here: a request item carries the series it
    decodes to. */
module TsHandler {
  import opened Common
  import opened Dataset

  /** What the handler reads from the loaded predictor: `_mean`, `_std`,
      `bounds[0]`, `bounds[1]` and `config['input_size']`. */
  datatype Predictor = Predictor(mean: real, std: real, lowBound: real, highBound: real, inputSize: nat)

  /** One item of a request batch: `item.get("data")` and `item.get("body")`;
      `None` is a missing key or a null value. */
  datatype Item = Item(data: Option<seq<Point>>, body: Option<seq<Point>>)

  /** `(flag, possible, real, lower_bound, upper_bound)`; `actual` is `real`. */
  datatype Verdict = Verdict(flag: int, possible: real, actual: real, lowerBound: real, upperBound: real)

  // ---------------------------------------------------------------------
  // preprocess

  /** The series a request carries: the first item's "data", else its
      "body". `None` is the AssertionError "There is no data to process!". */
  function SelectSeries(batch: Option<seq<Item>>): (r: Option<seq<Point>>)
    ensures r.None? <==> batch.None? || |batch.value| == 0
                         || (batch.value[0].data.None? && batch.value[0].body.None?)
  {
    match batch
    case None => None
    case Some(items) =>
      if |items| == 0 then None
      else if items[0].data.Some? then items[0].data
      else items[0].body
  }

  /** `preprocess`: `(value - mean) / std`, then `sort_index`. */
  function Preprocess(p: Predictor, batch: Option<seq<Item>>): (r: Result<seq<real>, string>)
    requires p.std != 0.0
    ensures r.Failure? <==> SelectSeries(batch).None?
    ensures r.Success? ==> |r.value| == |SelectSeries(batch).value|
  {
    match SelectSeries(batch)
    case None => Failure("AssertionError")
    case Some(series) => Success(Values(SortByTime(Normalize(series, p.mean, p.std))))
  }

  /** "data" wins over "body" whenever the first item has it. */
  lemma PreprocessPrefersData(batch: seq<Item>)
    requires |batch| > 0
    ensures batch[0].data.Some? ==> SelectSeries(Some(batch)) == batch[0].data
    ensures batch[0].data.None? ==> SelectSeries(Some(batch)) == batch[0].body
  {
  }

  lemma NormalizeSnoc(s: seq<Point>, x: Point, m: real, sd: real)
    requires sd != 0.0
    ensures Normalize(s + [x], m, sd) == Normalize(s, m, sd) + Normalize([x], m, sd)
  {
  }

  lemma NormalizeInit(s: seq<Point>, m: real, sd: real)
    requires sd != 0.0 && |s| > 0
    ensures Normalize(s, m, sd) == Normalize(s[..|s| - 1], m, sd) + Normalize([s[|s| - 1]], m, sd)
  {
    assert s == s[..|s| - 1] + [s[|s| - 1]];
    NormalizeSnoc(s[..|s| - 1], s[|s| - 1], m, sd);
  }

  /** Insertion compares times only, and normalisation keeps times. */
  lemma {:induction false} NormalizeInsert(s: seq<Point>, x: Point, m: real, sd: real)
    requires sd != 0.0
    ensures InsertByTime(Normalize(s, m, sd), Normalize([x], m, sd)[0])
         == Normalize(InsertByTime(s, x), m, sd)
    decreases |s|
  {
    var nx := Normalize([x], m, sd)[0];
    var ns := Normalize(s, m, sd);
    if |s| == 0 || s[|s| - 1].time <= x.time {
      NormalizeSnoc(s, x, m, sd);
    } else {
      var init := s[..|s| - 1];
      var last := s[|s| - 1];
      NormalizeInit(s, m, sd);
      assert ns[..|ns| - 1] == Normalize(init, m, sd);
      assert ns[|ns| - 1] == Normalize([last], m, sd)[0];
      NormalizeInsert(init, x, m, sd);
      NormalizeSnoc(InsertByTime(init, x), last, m, sd);
    }
  }

  /** Sorting and normalising commute, so `preprocess` may do either first. */
  lemma {:induction false} SortNormalizeCommute(s: seq<Point>, m: real, sd: real)
    requires sd != 0.0
    ensures SortByTime(Normalize(s, m, sd)) == Normalize(SortByTime(s), m, sd)
    decreases |s|
  {
    if |s| > 0 {
      var init := s[..|s| - 1];
      var last := s[|s| - 1];
      var ns := Normalize(s, m, sd);
      NormalizeInit(s, m, sd);
      assert ns[..|ns| - 1] == Normalize(init, m, sd);
      assert ns[|ns| - 1] == Normalize([last], m, sd)[0];
      SortNormalizeCommute(init, m, sd);
      NormalizeInsert(SortByTime(init), last, m, sd);
    }
  }

  /** Denormalising what `preprocess` returns gives back the request's
      values in time order. */
  lemma PreprocessRoundTrip(p: Predictor, batch: Option<seq<Item>>)
    requires p.std != 0.0 && SelectSeries(batch).Some?
    ensures var xs := Preprocess(p, batch).value;
      var sorted := SortByTime(SelectSeries(batch).value);
      forall i :: 0 <= i < |xs| ==> Denormalize(xs[i], p.mean, p.std) == sorted[i].value
  {
    var s := SelectSeries(batch).value;
    SortNormalizeCommute(s, p.mean, p.std);
    forall i | 0 <= i < |s|
      ensures Denormalize(Normalize(SortByTime(s), p.mean, p.std)[i].value, p.mean, p.std)
           == SortByTime(s)[i].value
    {
      DenormalizeInvertsNormalize(SortByTime(s), p.mean, p.std, i);
    }
  }

  // ---------------------------------------------------------------------
  // inference

  /** `inference`: the model sees `inputs[:input_size]`, and
      `inputs[input_size]` is the real value. A shorter input fails the
      reshape (ValueError) or the index (IndexError). */
  function Inference(p: Predictor, inputs: seq<real>, predict: seq<real> -> real): (r: Result<(real, real), string>)
    ensures r.Success? <==> |inputs| > p.inputSize
    ensures r.Success? ==> r.value == (predict(inputs[..p.inputSize]), inputs[p.inputSize])
  {
    if |inputs| < p.inputSize then Failure("ValueError")
    else if |inputs| == p.inputSize then Failure("IndexError")
    else Success((predict(inputs[..p.inputSize]), inputs[p.inputSize]))
  }

  // ---------------------------------------------------------------------
  // postprocess

  /** The `if`/`elif`/`else` of `postprocess`. */
  function Classify(possible: real, actual: real, lower: real, upper: real): (v: Verdict)
    ensures v.possible == possible && v.actual == actual && v.lowerBound == lower && v.upperBound == upper
    ensures v.flag == -1 <==> lower > actual
    ensures v.flag == 1 <==> lower <= actual && upper < actual
    ensures v.flag == 0 <==> lower <= actual <= upper
  {
    if lower > actual then Verdict(-1, possible, actual, lower, upper)
    else if upper < actual then Verdict(1, possible, actual, lower, upper)
    else Verdict(0, possible, actual, lower, upper)
  }

  /** `postprocess`, as written: the band is `possible + bounds * std`. */
  function Postprocess(p: Predictor, out: (real, real)): (r: seq<Verdict>)
    ensures |r| == 1
    ensures r[0].possible == Denormalize(out.0, p.mean, p.std)
    ensures r[0].actual == Denormalize(out.1, p.mean, p.std)
    ensures r[0].lowerBound == r[0].possible + p.lowBound * p.std
    ensures r[0].upperBound == r[0].possible + p.highBound * p.std
    ensures r[0].flag == -1 <==> r[0].lowerBound > r[0].actual
    ensures r[0].flag == 1 <==> r[0].lowerBound <= r[0].actual && r[0].upperBound < r[0].actual
    ensures r[0].flag == 0 <==> r[0].lowerBound <= r[0].actual <= r[0].upperBound
  {
    var possible := Denormalize(out.0, p.mean, p.std);
    var actual := Denormalize(out.1, p.mean, p.std);
    [Classify(possible, actual, possible + p.lowBound * p.std, possible + p.highBound * p.std)]
  }

  /** The residual the trainer takes quantiles of: prediction minus label
      (platform/vertex-ai/anomaly-detection/trainer/trainer.py:166). */
  function Residual(prediction: real, observed: real): real {
    prediction - observed
  }

  lemma ScaleLess(x: real, y: real, sd: real)
    requires sd > 0.0
    ensures x < y <==> x * sd < y * sd
  {
    if x < y { assert (y - x) * sd > 0.0; }
    if x * sd < y * sd { assert (y - x) * sd > 0.0; }
  }

  /** As written, the flag reads the band as bounds on `real - possible`,
      the negated residual, in normalised units. */
  lemma PostprocessReadsNegatedResidual(p: Predictor, out: (real, real))
    requires p.std > 0.0
    ensures var v := Postprocess(p, out)[0];
      var neg := -Residual(out.0, out.1);
      && (v.flag == -1 <==> neg < p.lowBound)
      && (v.flag == 1 <==> p.lowBound <= neg && p.highBound < neg)
      && (v.flag == 0 <==> p.lowBound <= neg <= p.highBound)
  {
    var neg := out.1 - out.0;
    assert Denormalize(out.1, p.mean, p.std) - Denormalize(out.0, p.mean, p.std) == neg * p.std;
    ScaleLess(neg, p.lowBound, p.std);
    ScaleLess(p.highBound, neg, p.std);
  }

  /** The band the trainer's bounds describe: a real value is expected when
      its residual lies within the bounds, so the band is
      `[possible - upper * std, possible - lower * std]`. */
  function PostprocessCorrected(p: Predictor, out: (real, real)): (r: seq<Verdict>)
    ensures |r| == 1
    ensures r[0].possible == Denormalize(out.0, p.mean, p.std)
    ensures r[0].actual == Denormalize(out.1, p.mean, p.std)
    ensures r[0].lowerBound == r[0].possible - p.highBound * p.std
    ensures r[0].upperBound == r[0].possible - p.lowBound * p.std
    ensures r[0] == Classify(r[0].possible, r[0].actual, r[0].lowerBound, r[0].upperBound)
  {
    var possible := Denormalize(out.0, p.mean, p.std);
    var actual := Denormalize(out.1, p.mean, p.std);
    [Classify(possible, actual, possible - p.highBound * p.std, possible - p.lowBound * p.std)]
  }

  /** Corrected, a value is normal exactly when its residual lies within the
      trained bounds; too low a value is a residual above the upper bound. */
  lemma CorrectedFlagsByResidual(p: Predictor, out: (real, real))
    requires p.std > 0.0
    ensures var v := PostprocessCorrected(p, out)[0];
      var res := Residual(out.0, out.1);
      && (v.flag == -1 <==> p.highBound < res)
      && (v.flag == 1 <==> res <= p.highBound && res < p.lowBound)
      && (v.flag == 0 <==> p.lowBound <= res <= p.highBound)
  {
    var res := out.0 - out.1;
    assert Denormalize(out.0, p.mean, p.std) - Denormalize(out.1, p.mean, p.std) == res * p.std;
    ScaleLess(p.highBound, res, p.std);
    ScaleLess(res, p.lowBound, p.std);
  }

  /** A model that over-predicts every training label by one deviation has
      both bounds at 1. A new point predicted exactly that way is normal,
      yet the band as written reports it as a low anomaly. */
  lemma TypicalPointFlaggedLow()
    ensures var p := Predictor(0.0, 1.0, 1.0, 1.0, 0);
      && Residual(1.0, 0.0) == p.lowBound == p.highBound
      && Postprocess(p, (1.0, 0.0))[0].flag == -1
      && PostprocessCorrected(p, (1.0, 0.0))[0].flag == 0
  {
  }

  /** For bounds symmetric around zero the two bands coincide. */
  lemma SymmetricBoundsAgree(p: Predictor, out: (real, real))
    requires p.lowBound == -p.highBound
    ensures Postprocess(p, out) == PostprocessCorrected(p, out)
  {
    var possible := Denormalize(out.0, p.mean, p.std);
    var actual := Denormalize(out.1, p.mean, p.std);
    assert p.lowBound * p.std == -(p.highBound * p.std);
    var v := Classify(possible, actual, possible + p.lowBound * p.std, possible + p.highBound * p.std);
    assert Postprocess(p, out)[0] == v;
    assert PostprocessCorrected(p, out)[0] == v;
  }

  /** With ordered bounds and a positive deviation the band is not empty,
      so a value below it is not above it. */
  lemma CorrectedBandOrdered(p: Predictor, out: (real, real))
    requires p.std > 0.0 && p.lowBound <= p.highBound
    ensures var v := PostprocessCorrected(p, out)[0];
      v.lowerBound <= v.upperBound
  {
    ScaleLess(p.lowBound, p.highBound, p.std);
  }

  // ---------------------------------------------------------------------
  // The whole request

  /** One request through `preprocess`, `inference` and `postprocess` as
      written, the order in which the serving framework calls them. The
      request fails exactly when it carries no series or one of at most
      `input_size` points; otherwise it yields one verdict. */
  function Handle(p: Predictor, batch: Option<seq<Item>>, predict: seq<real> -> real): (r: Result<seq<Verdict>, string>)
    requires p.std != 0.0
    ensures r.Failure? <==> SelectSeries(batch).None? || |SelectSeries(batch).value| <= p.inputSize
    ensures r.Success? ==> |r.value| == 1
    ensures r.Success? ==> r.value[0] == Classify(r.value[0].possible, r.value[0].actual, r.value[0].lowerBound, r.value[0].upperBound)
  {
    match Preprocess(p, batch)
    case Failure(e) => Failure(e)
    case Success(inputs) =>
      match Inference(p, inputs, predict)
      case Failure(e) => Failure(e)
      case Success(out) => Success(Postprocess(p, out))
  }

  /** The same request with the corrected band: it fails exactly when the
      handler as written fails, and reports the same prediction and real
      value; only the band and the flag differ. */
  function HandleCorrected(p: Predictor, batch: Option<seq<Item>>, predict: seq<real> -> real): (r: Result<seq<Verdict>, string>)
    requires p.std != 0.0
    ensures r.Success? <==> Handle(p, batch, predict).Success?
    ensures r.Success? ==> |r.value| == 1
    ensures r.Success? ==> r.value[0].possible == Handle(p, batch, predict).value[0].possible
    ensures r.Success? ==> r.value[0].actual == Handle(p, batch, predict).value[0].actual
  {
    match Preprocess(p, batch)
    case Failure(e) => Failure(e)
    case Success(inputs) =>
      match Inference(p, inputs, predict)
      case Failure(e) => Failure(e)
      case Success(out) => Success(PostprocessCorrected(p, out))
  }

  /** A time-ordered history of `input_size` points followed by the newest
      point: the model sees the history, the verdict's real value is the
      newest point's own value, denormalisation undoing normalisation, and
      the band is the one `postprocess` builds as written. */
  lemma HandleReportsNewestValue(p: Predictor, series: seq<Point>, predict: seq<real> -> real)
    requires p.std != 0.0 && |series| == p.inputSize + 1 && TimeSorted(series)
    ensures var r := Handle(p, Some([Item(Some(series), None)]), predict);
      && r.Success? && |r.value| == 1
      && r.value[0].actual == series[p.inputSize].value
      && r.value[0].possible
         == Denormalize(predict(Values(Normalize(series, p.mean, p.std))[..p.inputSize]), p.mean, p.std)
      && r.value[0].lowerBound == r.value[0].possible + p.lowBound * p.std
      && r.value[0].upperBound == r.value[0].possible + p.highBound * p.std
  {
    var batch := Some([Item(Some(series), None)]);
    var inputs := Values(Normalize(series, p.mean, p.std));
    PreprocessSortedSeries(p, series);
    var out := (predict(inputs[..p.inputSize]), inputs[p.inputSize]);
    assert Inference(p, inputs, predict) == Success(out);
    assert Handle(p, batch, predict) == Success(Postprocess(p, out));
    assert Denormalize(out.1, p.mean, p.std) == series[p.inputSize].value by {
      DenormalizeInvertsNormalize(series, p.mean, p.std, p.inputSize);
    }
  }

  /** A time-ordered series sent as the request's `"data"` is only
      normalised: sorting leaves it as it is. */
  lemma PreprocessSortedSeries(p: Predictor, series: seq<Point>)
    requires p.std != 0.0 && TimeSorted(series)
    ensures Preprocess(p, Some([Item(Some(series), None)])) == Success(Values(Normalize(series, p.mean, p.std)))
  {
    var normalized := Normalize(series, p.mean, p.std);
    assert SelectSeries(Some([Item(Some(series), None)])) == Some(series);
    assert SortByTime(normalized) == normalized by {
      SortSortedIsIdentity(series);
      SortNormalizeCommute(series, p.mean, p.std);
    }
  }
}
