/** The analyzeIoTPopulateCallback cloud function
    (platform/functions/analyzeIoTPopulateCallback/main.py): for each device
    event it asks a BigQuery ML model whether the value is an anomaly,
    stores the model's row and, when the model says it is one, sends
    feedback to the device.

    BigQuery and the device manager are external services: the query is a
    function from the query's parameters to the rows it returns (or an
    error), and the device manager's reply is a parameter. */
module AnalyzeIoT {
  import opened Common
  import DeviceFeedback

  /** The default of the `THRESHOLD` environment variable. */
  const DefaultThreshold: real := 0.95

  /** `MODEL_FMT`: the newest model trained under `modelPrefix`. */
  function ModelName(project: string, dataset: string, modelPrefix: string): string {
    project + "." + dataset + "." + modelPrefix + "latest"
  }

  /** Without dots in its parts, the model name reads back as project,
      dataset and `modelPrefix + "latest"`. */
  lemma ModelNameParts(project: string, dataset: string, modelPrefix: string)
    requires '.' !in project && '.' !in dataset && '.' !in modelPrefix
    ensures Split(ModelName(project, dataset, modelPrefix), '.') == [project, dataset, modelPrefix + "latest"]
  {
    var parts := [project, dataset, modelPrefix + "latest"];
    assert parts[1..] == [dataset, modelPrefix + "latest"];
    assert parts[1..][1..] == [modelPrefix + "latest"];
    assert Join(parts[1..], '.') == dataset + ['.'] + (modelPrefix + "latest");
    assert Join(parts, '.') == project + ['.'] + (dataset + ['.'] + (modelPrefix + "latest"));
    assert Join(parts, '.') == ModelName(project, dataset, modelPrefix);
    SplitJoin(parts, '.');
  }

  /** `DESTINATION_TABLE_FMT`. */
  function DestinationTable(project: string, dataset: string, destinationTable: string): string {
    project + "." + dataset + "." + destinationTable
  }

  /** The parameters `QUERY_FMT` is filled with. */
  datatype Query = Query(model: string, threshold: real, timestamp: string, value: real)

  /** A row of `ML.DETECT_ANOMALIES`; `isAnomaly` is `None` when the model
      gave no answer (NA). */
  datatype Row = Row(
    timestamp: string, isAnomaly: Option<bool>, value: real,
    lowerBound: real, upperBound: real, anomalyProbability: real)

  /** What BigQuery answers for a query: its rows, or an error the call
      raises. */
  type Detector = Query -> Result<seq<Row>, string>

  /** `is_anomaly`: `None` for NA, and the model's answer otherwise. */
  function IsAnomaly(row: Row): (r: Option<bool>)
    ensures r.None? <==> row.isAnomaly.None?
    ensures r.Some? ==> r.value == row.isAnomaly.value
  {
    match row.isAnomaly
    case None => None
    case Some(b) => Some(b)
  }

  /** The test in `main`: `is_anomaly is not None and is_anomaly`. */
  predicate SendsFeedback(flag: Option<bool>) {
    flag.Some? && flag.value
  }

  /** `detect_anomaly`: asks the model about the event and keeps the first
      row it returns (an IndexError when it returns none). */
  function DetectAnomaly(project: string, dataset: string, modelPrefix: string, threshold: real,
                         timestamp: string, value: real, bigquery: Detector): (r: Result<Row, string>)
    ensures var answer := bigquery(Query(ModelName(project, dataset, modelPrefix), threshold, timestamp, value));
      r.Success? <==> answer.Success? && |answer.value| > 0
    ensures r.Success? ==> r.value == bigquery(Query(ModelName(project, dataset, modelPrefix), threshold, timestamp, value)).value[0]
  {
    match bigquery(Query(ModelName(project, dataset, modelPrefix), threshold, timestamp, value))
    case Failure(e) => Failure(e)
    case Success(rows) => if |rows| == 0 then Failure("IndexError") else Success(rows[0])
  }

  /** The fields of a row that `feedback_to_device` reads. */
  function ReadingOf(row: Row): DeviceFeedback.Reading {
    DeviceFeedback.Reading(row.timestamp, row.value, row.lowerBound, row.upperBound)
  }

  /** The environment and event attributes `main` reads. */
  datatype Config = Config(
    projectId: string, cloudRegion: string, registryId: string, deviceId: string,
    dataset: string, modelPrefix: string, destinationTable: string, threshold: real)

  /** `main` for one event: builds a fresh processor, asks the model, stores
      the row, and sends feedback only when the model answered true.
      `feedback` is how that feedback ended: an error other than
      FailedPrecondition propagates out of `main`. */
  method HandleEvent(cfg: Config, timestamp: string, value: real, bigquery: Detector, reply: DeviceFeedback.Reply)
    returns (r: Result<Row, string>, inserted: seq<(string, Row)>, calls: seq<DeviceFeedback.Call>,
             feedback: Result<(), string>)
    ensures r == DetectAnomaly(cfg.projectId, cfg.dataset, cfg.modelPrefix, cfg.threshold, timestamp, value, bigquery)
    ensures inserted == (if r.Success? then [(DestinationTable(cfg.projectId, cfg.dataset, cfg.destinationTable), r.value)] else [])
    ensures r.Success? && SendsFeedback(IsAnomaly(r.value)) ==>
      calls == DeviceFeedback.CallsWith(
        DeviceFeedback.Requests(
          DeviceFeedback.Communicator(cfg.projectId, cfg.cloudRegion, cfg.registryId, cfg.deviceId, "0"),
          DeviceFeedback.Decide(ReadingOf(r.value))),
        reply)
    ensures !(r.Success? && SendsFeedback(IsAnomaly(r.value))) ==> calls == []
    ensures feedback == if r.Success? && SendsFeedback(IsAnomaly(r.value))
      then DeviceFeedback.Outcome(DeviceFeedback.Decide(ReadingOf(r.value)), reply)
      else Success(())
  {
    inserted := [];
    calls := [];
    feedback := Success(());
    var processor := new DeviceFeedback.Processor(cfg.projectId, cfg.cloudRegion, cfg.registryId, cfg.deviceId);
    r := DetectAnomaly(cfg.projectId, cfg.dataset, cfg.modelPrefix, cfg.threshold, timestamp, value, bigquery);
    if r.Failure? {
      return;
    }
    inserted := [(DestinationTable(cfg.projectId, cfg.dataset, cfg.destinationTable), r.value)];
    var flag := IsAnomaly(r.value);
    if flag.Some? && flag.value {
      feedback := processor.FeedbackToDevice(ReadingOf(r.value), reply);
    }
    calls := processor.calls;
  }

  /** An NA answer or a false one never reaches the device, whatever the
      value and bounds. */
  lemma NoFeedbackUnlessTrue(row: Row)
    ensures SendsFeedback(IsAnomaly(row)) <==> row.isAnomaly == Some(true)
  {
  }
}
