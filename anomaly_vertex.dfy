/** The detectAnomalyVertex cloud function
    (platform/functions/detectAnomalyVertex/main.py): for each device event
    it queries the device's previous `input_size` points, appends the new
    point, asks the deployed predictor whether the newest point is an
    anomaly, stores the verdict and, for an anomaly, sends feedback to the
    device.

    BigQuery, the Vertex AI endpoint and the device manager are external
    services: the table is a sequence of points, the endpoint a function
    from the series it is sent to its predictions, and the device manager's
    reply a parameter. Timestamps are integer seconds. */
module DetectAnomalyVertex {
  import opened Common
  import opened Dataset
  import TsHandler
  import DeviceFeedback

  // ---------------------------------------------------------------------
  // The history query

  /** The points of `table` whose time lies in `[lo, hi)`, in table order,
      each as often as the table holds it. */
  function InWindow(table: seq<Point>, lo: int, hi: int): (r: seq<Point>)
    ensures forall p :: p in r <==> p in table && lo <= p.time < hi
    ensures forall p :: multiset(r)[p] == if lo <= p.time < hi then multiset(table)[p] else 0
  {
    if |table| == 0 then []
    else
      var last := table[|table| - 1];
      assert table == table[..|table| - 1] + [last];
      var rest := InWindow(table[..|table| - 1], lo, hi);
      if lo <= last.time < hi then rest + [last] else rest
  }

  /** `PREVIOUS_ROWS_QUERY_FMT`: the points of the last `interval` seconds
      before `ts`, the event itself excluded, ordered by time. */
  function PreviousRows(table: seq<Point>, ts: int, interval: int): (rows: seq<Point>)
    ensures TimeSorted(rows)
    ensures forall p :: p in rows <==> p in table && ts - interval <= p.time < ts
    ensures forall p :: multiset(rows)[p] == if ts - interval <= p.time < ts then multiset(table)[p] else 0
  {
    var r := InWindow(table, ts - interval, ts);
    var sorted := SortByTime(r);
    assert forall p :: p in sorted <==> p in multiset(r);
    sorted
  }

  /** The query's rows are all earlier than the event. */
  lemma PreviousRowsEarlier(table: seq<Point>, ts: int, interval: int)
    ensures forall i :: 0 <= i < |PreviousRows(table, ts, interval)| ==> PreviousRows(table, ts, interval)[i].time < ts
  {
    var rows := PreviousRows(table, ts, interval);
    forall i | 0 <= i < |rows| ensures rows[i].time < ts {
      assert rows[i] in rows;
    }
  }

  // ---------------------------------------------------------------------
  // The series sent to the endpoint

  /** Appending a point later than every history point and sorting by time
      leaves the history in order with the new point last. */
  lemma {:induction false} NewPointLast(rows: seq<Point>, x: Point)
    requires forall i :: 0 <= i < |rows| ==> rows[i].time < x.time
    ensures SortByTime(rows + [x]) == SortByTime(rows) + [x]
  {
    var s := rows + [x];
    assert s[..|s| - 1] == rows;
    var sorted := SortByTime(rows);
    if |sorted| > 0 {
      var last := sorted[|sorted| - 1];
      assert last in multiset(rows);
      assert last in rows;
    }
    InsertIntoSortedAtEnd(sorted, x);
  }

  /** The series of `detect_anomaly`: history and event, sorted by time. */
  function Series(rows: seq<Point>, ts: int, value: real): (s: seq<Point>)
    ensures |s| == |rows| + 1
    ensures TimeSorted(s)
    ensures multiset(s) == multiset(rows) + multiset{Point(ts, value)}
  {
    SortByTime(rows + [Point(ts, value)])
  }

  // ---------------------------------------------------------------------
  // detect_anomaly and is_anomaly

  /** The row stored in the visualisation table. */
  datatype Row = Row(timestamp: int, isAnomaly: bool, value: real, upperBound: real, lowerBound: real)

  /** What the endpoint answers for a series: its predictions, or an
      error the call raises. */
  type Endpoint = seq<Point> -> Result<seq<TsHandler.Verdict>, string>

  /** `is_anomaly`: the row built from one prediction for `series`; the row
      carries the time of the series' last point. */
  function RowOf(series: seq<Point>, v: TsHandler.Verdict): (row: Row)
    requires |series| > 0
    ensures row.isAnomaly <==> v.flag != 0
    ensures row.timestamp == series[|series| - 1].time
    ensures row.value == v.actual && row.lowerBound == v.lowerBound && row.upperBound == v.upperBound
  {
    Row(series[|series| - 1].time, v.flag != 0, v.actual, v.upperBound, v.lowerBound)
  }

  /** `detect_anomaly` on the rows the history query returned: a
      ValueError unless there are exactly `input_size` of them, then the
      first prediction for the series, which it reports whenever the
      endpoint answers with at least one. */
  function DetectAnomaly(rows: seq<Point>, ts: int, value: real, inputSize: nat, endpoint: Endpoint): (r: Result<Row, string>)
    ensures |rows| != inputSize ==> r == Failure("ValueError")
    ensures r.Success? ==>
      && |rows| == inputSize
      && endpoint(Series(rows, ts, value)).Success?
      && |endpoint(Series(rows, ts, value)).value| > 0
      && r.value == RowOf(Series(rows, ts, value), endpoint(Series(rows, ts, value)).value[0])
    ensures var answer := endpoint(Series(rows, ts, value));
      |rows| == inputSize && answer.Success? && |answer.value| > 0 ==> r.Success?
  {
    if |rows| != inputSize then Failure("ValueError")
    else
      var series := Series(rows, ts, value);
      match endpoint(series)
      case Failure(e) => Failure(e)
      case Success(predictions) =>
        if |predictions| == 0 then Failure("IndexError")
        else Success(RowOf(series, predictions[0]))
  }

  /** The series sent for a history returned by the query is that history,
      in order, followed by the event. */
  lemma SeriesEndsWithEvent(table: seq<Point>, ts: int, value: real, interval: int)
    ensures var rows := PreviousRows(table, ts, interval);
      Series(rows, ts, value) == rows + [Point(ts, value)]
  {
    var rows := PreviousRows(table, ts, interval);
    PreviousRowsEarlier(table, ts, interval);
    NewPointLast(rows, Point(ts, value));
    SortSortedIsIdentity(rows);
  }

  /** The deployed handler as an endpoint: the series travels as the
      `"data"` of a one-item batch. It answers with one prediction exactly
      when the series is longer than `input_size`. */
  function HandlerEndpoint(p: TsHandler.Predictor, predict: seq<real> -> real): (r: Endpoint)
    requires p.std != 0.0
    ensures forall series :: r(series).Success? <==> |series| > p.inputSize
    ensures forall series :: r(series).Success? ==> |r(series).value| == 1
  {
    series => TsHandler.Handle(p, Some([TsHandler.Item(Some(series), None)]), predict)
  }

  /** With the deployed handler behind the endpoint and a full history, the
      detection succeeds, the stored row reports the event's own time and
      value, and the row is an anomaly exactly when the value lies outside
      the band the row stores. */
  lemma HandlerReportsEvent(p: TsHandler.Predictor, predict: seq<real> -> real,
                            table: seq<Point>, ts: int, value: real, period: int)
    requires p.std != 0.0
    requires |PreviousRows(table, ts, p.inputSize * period)| == p.inputSize
    ensures var r := DetectAnomaly(PreviousRows(table, ts, p.inputSize * period), ts, value,
                                   p.inputSize, HandlerEndpoint(p, predict));
      && r.Success?
      && r.value.timestamp == ts && r.value.value == value
      && (r.value.isAnomaly <==> !(r.value.lowerBound <= value <= r.value.upperBound))
  {
    var rows := PreviousRows(table, ts, p.inputSize * period);
    var series := Series(rows, ts, value);
    SeriesEndsWithEvent(table, ts, value, p.inputSize * period);
    var answer := TsHandler.Handle(p, Some([TsHandler.Item(Some(series), None)]), predict);
    assert HandlerEndpoint(p, predict)(series) == answer;
    TsHandler.HandleReportsNewestValue(p, series, predict);
    assert series[p.inputSize] == Point(ts, value);
    var v := answer.value[0];
    assert DetectAnomaly(rows, ts, value, p.inputSize, HandlerEndpoint(p, predict)) == Success(RowOf(series, v));
  }

  /** A row built from a classified prediction is an anomaly exactly when
      feedback has something to send: every anomaly the predictor flags
      reaches the device. */
  lemma AnomalyIffFeedback(series: seq<Point>, v: TsHandler.Verdict, text: string)
    requires |series| > 0
    requires v == TsHandler.Classify(v.possible, v.actual, v.lowerBound, v.upperBound)
    ensures var row := RowOf(series, v);
      row.isAnomaly <==> !DeviceFeedback.Decide(ReadingOf(row, text)).Silent?
  {
  }

  // ---------------------------------------------------------------------
  // The processor and main

  /** `_set_endpoint`: the last endpoint the service lists under the
      display name; a ValueError when there is none. */
  method SetEndpoint(listed: seq<string>) returns (r: Result<string, string>)
    ensures r.Success? <==> |listed| > 0
    ensures r.Success? ==> r.value == listed[|listed| - 1]
    ensures r.Failure? ==> r.error == "ValueError"
  {
    var info: Option<string> := None;
    for i := 0 to |listed|
      invariant i == 0 <==> info.None?
      invariant i > 0 ==> info == Some(listed[i - 1])
    {
      info := Some(listed[i]);
    }
    if info.None? {
      return Failure("ValueError");
    }
    return Success(info.value);
  }

  /** `DESTINATION_TABLE_FMT`. */
  function DestinationTable(project: string, dataset: string, destinationTable: string): string {
    project + "." + dataset + "." + destinationTable
  }

  /** The fields of a row that `feedback_to_device` reads; `text` is the
      text of the row's timestamp. */
  function ReadingOf(row: Row, text: string): DeviceFeedback.Reading {
    DeviceFeedback.Reading(text, row.value, row.lowerBound, row.upperBound)
  }

  /** The environment and event attributes `main` reads. */
  datatype Config = Config(
    projectId: string, cloudRegion: string, registryId: string, deviceId: string,
    dataset: string, inputSize: nat, period: int, tableId: string, destinationTable: string)

  /** `main` for one event: builds a fresh processor, detects, stores the
      row, and sends feedback only for an anomaly. `timeText` is the text
      pandas gives a timestamp; `reply` is the device manager's answer, and
      `feedback` how the feedback ended: an error other than
      FailedPrecondition propagates out of `main`. */
  method HandleEvent(cfg: Config, listed: seq<string>, table: seq<Point>, ts: int, value: real,
              endpoint: Endpoint, timeText: int -> string, reply: DeviceFeedback.Reply)
    returns (r: Result<Row, string>, inserted: seq<(string, Row)>, calls: seq<DeviceFeedback.Call>,
             feedback: Result<(), string>)
    ensures |listed| == 0 ==> r == Failure("ValueError")
    ensures |listed| > 0 ==>
      r == DetectAnomaly(PreviousRows(table, ts, cfg.inputSize * cfg.period), ts, value, cfg.inputSize, endpoint)
    ensures inserted == (if r.Success? then [(DestinationTable(cfg.projectId, cfg.dataset, cfg.destinationTable), r.value)] else [])
    ensures r.Success? && r.value.isAnomaly ==>
      calls == DeviceFeedback.CallsWith(
        DeviceFeedback.Requests(
          DeviceFeedback.Communicator(cfg.projectId, cfg.cloudRegion, cfg.registryId, cfg.deviceId, "0"),
          DeviceFeedback.Decide(ReadingOf(r.value, timeText(r.value.timestamp)))),
        reply)
    ensures !(r.Success? && r.value.isAnomaly) ==> calls == []
    ensures feedback == if r.Success? && r.value.isAnomaly
      then DeviceFeedback.Outcome(DeviceFeedback.Decide(ReadingOf(r.value, timeText(r.value.timestamp))), reply)
      else Success(())
  {
    inserted := [];
    calls := [];
    feedback := Success(());
    var resource := SetEndpoint(listed);
    if resource.Failure? {
      return Failure(resource.error), inserted, calls, feedback;
    }
    var processor := new DeviceFeedback.Processor(cfg.projectId, cfg.cloudRegion, cfg.registryId, cfg.deviceId);
    var rows := PreviousRows(table, ts, cfg.inputSize * cfg.period);
    r := DetectAnomaly(rows, ts, value, cfg.inputSize, endpoint);
    if r.Failure? {
      return;
    }
    inserted := [(DestinationTable(cfg.projectId, cfg.dataset, cfg.destinationTable), r.value)];
    if r.value.isAnomaly {
      feedback := processor.FeedbackToDevice(ReadingOf(r.value, timeText(r.value.timestamp)), reply);
      assert processor.deviceCom == Some(processor.OwnCommunicator());
    }
    calls := processor.calls;
  }
}
