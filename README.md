# gcp-iot-platform: a verified model of the device loop and the anomaly pipeline

This project models the core of an IoT anomaly-detection platform on Google
Cloud and proves properties of it in Dafny. The platform has these parts:

- **Device telemetry client.** It publishes measurements over MQTT and
  reconnects with exponential backoff. It refreshes its JWT. It merges
  config messages into its device state and stops when the state's
  `enabled` flag turns false.
- **BigQuery events function.** It rounds each event time down onto a fixed
  grid.
- **Anomaly-detector trainer.** It has a sliding-window time-series dataset
  and a trainer with early stopping, checkpoints, checkpoint choice and
  clean-up. Its task script reads training data from Cloud Storage and
  exports the chosen model.
- **Serving handler.** It turns the detector's prediction into a verdict:
  low, normal or high.
- **Two anomaly cloud functions.** They store each verdict and send feedback
  to the device: a command for a high value, the config `{"enabled": false}`
  for a low one.

The last part is verified end to end (`FeedbackLoop`). A reading below its
band makes the cloud function write `{"enabled": false}` to the device's
resource name, which equals the MQTT client id of the same device. The
client merges that config. From then on it publishes no more telemetry and
stops at its next check of the flag.

## Modules

- **`Common`**: Python slicing and indexing, `str.find`, `split` and
  `join`, `sorted` on strings, and zero-padded number text.
- **`MqttClient`** (`platform/iot/mqtt_client/client.py`): the class `Client`.
  - Its fields are the device state, `should_backoff`,
    `minimum_backoff_time`, `jwt_iat` and a log of transport calls.
  - The paho callbacks are methods.
  - `Run` is the nested `while`/`for` loop. It is proved to follow the pure
    fold `Exec` over an environment of ticks, and the properties of the
    loop are lemmas about `Exec` (`MqttClientProperties`).
- **`MqttTimestamp`**: the default-format timestamp rewrite of `get_payload`.
- **`BigQueryEvents`** (`platform/functions/iotBigQueryEvents/main.py`):
  the bucketing expression with Python's floor division.
- **`Dataset`** (`trainer/data.py`): the class `TimeSeriesDataset`.
  - `preprocess_data` sorts an array in place (an insertion sort proved
    against a stable sort function), takes differences and normalises.
  - The windows, `__getitem__`, `split` and `denormalize` are also modelled.
- **`Trainer` / `TrainerProperties`** (`trainer/trainer.py`): the class
  `Trainer` over a folder map.
  - `train` is proved to follow the pure fold `TrainRun`.
  - The lemmas cover epoch counting, early stopping, best-epoch tracking,
    checkpoint names and choice, and `clean_models`.
- **`Task`** (`trainer/task.py`): `read_cloud_data` (a loop over the listed
  blobs), the `gs://` path split, model-file selection and the uploads.
- **`TsHandler`** (`platform/docker/vai-ad-tma/files/ts_handler.py`):
  `preprocess`, `inference` and `postprocess`.
- **`DeviceFeedback`**: the feedback decision, the device communicator and
  the lazily created communicator of a processor (the class `Processor`).
  Both cloud functions carry identical copies of this code; the model
  defines it once.
- **`DetectAnomalyVertex`** and **`AnalyzeIoT`**: the two cloud functions'
  `detect_anomaly`, `is_anomaly` and `main`.
- **`FeedbackLoop`**: the end-to-end property.

External services are parameters:

- MQTT transport, BigQuery, Vertex AI, the IoT device manager and Cloud
  Storage;
- the clock, the random jitter and the model's forward pass.

Transport and service calls are recorded in logs. The paho network thread is
not a thread: each check of `state['enabled']` consumes one tick. A tick
carries the callbacks delivered since the previous check, the clock reading
and the jitter.

Three behaviours of the code worth knowing:

- **Giving up is not terminal.** After the "Giving up" warning the `for`
  loop breaks, but the `while` loop goes on as long as the device is
  enabled. The warning is logged again at every pass, and nothing is
  published until `on_connect` resets the backoff
  (`MqttClientProperties.GivenUpStaysSilent`).
- **The backoff doubles without a cap or jitter.** The jitter only lengthens
  the sleep. Past the maximum the client gives up instead of capping the
  delay (`MqttClientProperties.BackoffDoubles`).
- **The refresh test reads `timedelta.seconds`.** That value wraps every
  day, so an expiry of a day or more never refreshes the token
  (`MqttClientProperties.LongExpiryNeverRefreshes`). The token itself always
  expires after 20 minutes, whatever `jwt_expires_minutes` says.

## Model

| member | source | states |
|---|---|---|
| MqttClient.CreateJwt | platform/iot/mqtt_client/client.py:60-67 | the token is issued now, for audience `project_id`, and expires 20 minutes later whatever `jwt_expires_minutes` says |
| MqttClient.InitialState | platform/iot/mqtt_client/client.py:54-55 | the state is exactly `{'enabled': True}` |
| MqttClient.Merged | platform/iot/mqtt_client/client.py:57-58 | `dict.update`: the keys are the union; config keys take the config's values; every other key keeps its value |
| MqttClient.GetPayload | platform/iot/mqtt_client/client.py:139-151 | the payload has exactly the keys `timestamp` and `value`; the value is copied; the timestamp is the clock text, or the rewritten input timestamp with `use_input_timestamp`; fails exactly when that rewrite fails |
| MqttClient.ExecHalted | platform/iot/mqtt_client/client.py:153-192 | once the loop has stopped or raised, further ticks change nothing |
| MqttClient.Client.constructor | platform/iot/mqtt_client/client.py:16-52 | no backoff pending, minimum backoff 1, state `{'enabled': True}` |
| MqttClient.Client.InitState | platform/iot/mqtt_client/client.py:54-55 | resets the state and changes nothing else |
| MqttClient.Client.UpdateState | platform/iot/mqtt_client/client.py:57-58 | the new state is the old one merged with the config; nothing else changes |
| MqttClient.Client.OnConnect | platform/iot/mqtt_client/client.py:81-85 | clears `should_backoff`, sets the minimum to 1, leaves state, token time and log alone |
| MqttClient.Client.OnDisconnect | platform/iot/mqtt_client/client.py:87-90 | sets `should_backoff` and changes nothing else |
| MqttClient.Client.OnConfigMessage | platform/iot/mqtt_client/client.py:96-106 | a parsed config is merged and the whole new state is published on the state topic at QoS 1; malformed JSON leaves state and log unchanged and raises nothing |
| MqttClient.Client.DispatchCallbacks | platform/iot/mqtt_client/client.py:128-133 | delivering callbacks in order is the fold `ApplyCallbacks` |
| MqttClient.Client.HandleMeasurement | platform/iot/mqtt_client/client.py:160-191 | one pass of the `for` body equals `ForStep`: break when disabled or given up; otherwise backoff wait, payload, token refresh and publish |
| MqttClient.Client.Run | platform/iot/mqtt_client/client.py:153-192 | `mqtt_device_run` ends in exactly the state and position of the pure loop `RunSpec` over the same ticks |
| MqttTimestamp.ParseInput | platform/iot/mqtt_client/client.py:143-144 | a parsed input has the `%Y-%m-%d %H:%M:%S` shape and a valid calendar date and time |
| MqttTimestamp.ParseFormatted | platform/iot/mqtt_client/client.py:143-144 | every valid date and time is parsed back, unchanged, from its zero-padded `%Y-%m-%d %H:%M:%S` text |
| MqttTimestamp.ParsedIsFormatted | platform/iot/mqtt_client/client.py:143-144 | conversely, every input that parses is exactly the zero-padded text of the date and time parsed from it, which is valid |
| MqttTimestamp.RewriteReplacesSeparator | platform/iot/mqtt_client/client.py:140-144 | for a parsed input with a four-digit year, the rewrite only replaces the space with `T` |
| MqttTimestamp.RewriteExample | platform/iot/mqtt_client/client.py:140-144 | `"2021-01-01 10:00:00"` becomes `"2021-01-01T10:00:00"` |
| MqttTimestamp.ExampleParses | platform/iot/mqtt_client/client.py:143-144 | the example parses to 2021-01-01 10:00:00 |
| MqttTimestamp.RewriteRejectsMissingDay | platform/iot/mqtt_client/client.py:143-144 | `strptime` rejects 30 February (ValueError) |
| MqttTimestamp.YearRoundTrip | platform/iot/mqtt_client/client.py:141-144 | a four-digit year without a leading zero is written back as read |
| MqttTimestamp.DigitsRoundTrip | platform/iot/mqtt_client/client.py:141-144 | fixed-width fields are written back as read |
| MqttClientProperties.GetPayloadOk | platform/iot/mqtt_client/client.py:148-151 | every payload carries a text timestamp and one of the measured values |
| MqttClientProperties.ApplyCallbackGood | platform/iot/mqtt_client/client.py:81-106 | a callback keeps the run invariant: the `enabled` key exists, the minimum is positive, every call is well formed, and `jwt_iat` is the token in use |
| MqttClientProperties.ApplyCallbacksGood | platform/iot/mqtt_client/client.py:81-106 | the same for any sequence of callbacks |
| MqttClientProperties.ForStepGood | platform/iot/mqtt_client/client.py:160-191 | one pass of the `for` body keeps the invariant |
| MqttClientProperties.StepGood | platform/iot/mqtt_client/client.py:159-191 | one check of the flag and what follows keeps the invariant |
| MqttClientProperties.ExecGood | platform/iot/mqtt_client/client.py:159-191 | the loop keeps the invariant over any ticks |
| MqttClientProperties.RunGood | platform/iot/mqtt_client/client.py:153-192 | over a whole run, connects use the client id and a 20-minute token for the project; subscriptions, state and telemetry go to the client's own topics at QoS 1 (commands at 0); every backoff wait lies in [1, max] with at most 1 s of jitter; `jwt_iat` is the issue time of the token in use |
| MqttClientProperties.CallbacksWithoutConfig | platform/iot/mqtt_client/client.py:81-90 | without config messages, callbacks change neither state, log nor token time |
| MqttClientProperties.CallbacksWithoutConnect | platform/iot/mqtt_client/client.py:87-106 | without `on_connect`, callbacks keep the minimum, never clear a pending backoff, and only publish state |
| MqttClientProperties.CallbacksKeepConnects | platform/iot/mqtt_client/client.py:81-106 | callbacks never connect or change the token time |
| MqttClientProperties.DisablingConfig | platform/iot/mqtt_client/client.py:101-104 | a config with a falsy `enabled` disables the device |
| MqttClientProperties.DisabledStops | platform/iot/mqtt_client/client.py:159-162 | once disabled, with no config message arriving: the state stays, nothing is raised or published except `loop_stop`, and the loop stops at the next `while` check, so within two ticks |
| MqttClientProperties.StepGivenUp | platform/iot/mqtt_client/client.py:164-169 | one step while given up stays given up and waits, reconnects, connects and publishes nothing |
| MqttClientProperties.GivenUpStaysSilent | platform/iot/mqtt_client/client.py:164-169 | once given up and without `on_connect`, the loop stays given up and never waits, reconnects, connects, publishes telemetry or raises |
| MqttClientProperties.ForStepBackoff | platform/iot/mqtt_client/client.py:164-177 | a pass of an enabled device that asks for backoff and has not given up waits exactly the current minimum, doubles it and reconnects once, the wait and reconnect coming first in what the pass does; any other pass leaves the waits, the minimum and the reconnect count alone |
| MqttClientProperties.StepBackoff | platform/iot/mqtt_client/client.py:164-177 | the same for one step when no `on_connect` arrives, the condition read after that tick's callbacks are applied |
| MqttClientProperties.ForStepRefresh | platform/iot/mqtt_client/client.py:180-189 | a pass of an enabled device that has not given up and whose payload is produced refreshes exactly when the token is stale: the issue time becomes now, the last token is the one created now, and it connects once more; otherwise the issue time and the connect count stay |
| MqttClientProperties.BackoffSchedule | platform/iot/mqtt_client/client.py:171-176 | without `on_connect`, the waits are `min, 2 min, 4 min, ...` and the minimum ends doubled once per wait |
| MqttClientProperties.BackoffDoubles | platform/iot/mqtt_client/client.py:171-176 | the doubling schedule exists for every run without `on_connect` |
| MqttClientProperties.WaitsBounded | platform/iot/mqtt_client/client.py:166-172 | no wait exceeds the maximum backoff time |
| MqttClientProperties.DefaultBackoffAtMostSixWaits | platform/iot/mqtt_client/client.py:164-177 | with maximum 32 and minimum 1, at most six waits (1, 2, 4, 8, 16, 32) happen before giving up, unless `on_connect` intervenes |
| MqttClientProperties.StepNoRefresh | platform/iot/mqtt_client/client.py:180-189 | with an expiry of a day or more, a step never refreshes the token |
| MqttClientProperties.LongExpiryNeverRefreshes | platform/iot/mqtt_client/client.py:180-189 | `timedelta.seconds` stays below a day, so such a token is never refreshed |
| MqttClientProperties.StepPublishes | platform/iot/mqtt_client/client.py:178-191 | enabled and connected, one pass publishes the measurement's value once and moves to the next measurement |
| MqttClientProperties.PublishesInOrder | platform/iot/mqtt_client/client.py:160-191 | enabled, connected and quiet, `j` ticks publish the next `j` values in order, one telemetry message each |
| BigQueryEvents.FloorDiv | platform/functions/iotBigQueryEvents/main.py:21 | Python's `//`: the floor of the quotient for either sign of the divisor |
| BigQueryEvents.BucketBounds | platform/functions/iotBigQueryEvents/main.py:20-21 | for a positive interval, `ts <= ts_input < ts + interval` |
| BigQueryEvents.BucketFailsOnlyOnZero | platform/functions/iotBigQueryEvents/main.py:16-21 | bucketing fails (ZeroDivisionError) exactly when the interval is 0 |
| BigQueryEvents.BucketOnGrid | platform/functions/iotBigQueryEvents/main.py:18-21 | `ts - ts_point` is a multiple of the interval |
| BigQueryEvents.BucketIdempotent | platform/functions/iotBigQueryEvents/main.py:21 | bucketing a bucket returns it |
| BigQueryEvents.BucketMonotone | platform/functions/iotBigQueryEvents/main.py:21 | `t1 <= t2` implies `bucket(t1) <= bucket(t2)` |
| BigQueryEvents.EarlyTimesMoveAway | platform/functions/iotBigQueryEvents/main.py:21 | times before `date_point` round away from it |
| BigQueryEvents.NegativeIntervalRoundsUp | platform/functions/iotBigQueryEvents/main.py:21 | a negative interval rounds up: `ts_input <= ts < ts_input - interval` |
| BigQueryEvents.OneRowPerEvent | platform/functions/iotBigQueryEvents/main.py:22-24 | exactly one row, carrying the event's value and device id unchanged |
| BigQueryEvents.ZeroIntervalRaises | platform/functions/iotBigQueryEvents/main.py:16-21 | an interval of 0 raises ZeroDivisionError |
| Dataset.InsertByTime | platform/vertex-ai/anomaly-detection/trainer/data.py:28 | one insertion adds the point and loses none |
| Dataset.InsertKeepsSorted | platform/vertex-ai/anomaly-detection/trainer/data.py:28 | inserting keeps a time-sorted series sorted |
| Dataset.SortByTime | platform/vertex-ai/anomaly-detection/trainer/data.py:28 | `sort_index`: time-sorted and a permutation of the points |
| Dataset.SortSortedIsIdentity | platform/vertex-ai/anomaly-detection/trainer/data.py:28 | a series already in order is unchanged, so the sort is stable on it |
| Dataset.InsertAt | platform/vertex-ai/anomaly-detection/trainer/data.py:28 | one in-place insertion step: the prefix becomes the insertion of `a[i]` into it, the rest unchanged |
| Dataset.SortInPlace | platform/vertex-ai/anomaly-detection/trainer/data.py:28 | the array ends as `SortByTime` of its old contents |
| Dataset.SortSeries | platform/vertex-ai/anomaly-detection/trainer/data.py:28 | sorting through an array gives `SortByTime` |
| Dataset.Diff | platform/vertex-ai/anomaly-detection/trainer/data.py:32 | `diff().dropna()`: one point fewer, each at the time of its later point |
| Dataset.DiffIntegrate | platform/vertex-ai/anomaly-detection/trainer/data.py:29-32 | the first value and the differences rebuild the series |
| Dataset.DiffKeepsSorted | platform/vertex-ai/anomaly-detection/trainer/data.py:28-32 | differencing a sorted series keeps it sorted |
| Dataset.SampleVariance | platform/vertex-ai/anomaly-detection/trainer/data.py:36 | the square of `std()` (one degree of freedom) is non-negative |
| Dataset.Normalize | platform/vertex-ai/anomaly-detection/trainer/data.py:37 | normalising keeps the length and every time |
| Dataset.DenormalizeInvertsNormalize | platform/vertex-ai/anomaly-detection/trainer/data.py:75-76 | `denormalize((x - mean) / std) == x` |
| Dataset.NormalizedMeanIsZero | platform/vertex-ai/anomaly-detection/trainer/data.py:35-37 | the normalised series has mean 0 |
| Dataset.Period | platform/vertex-ai/anomaly-detection/trainer/data.py:33 | `.seconds` of the last step lies in [0, 86400) |
| Dataset.PrepareSorted | platform/vertex-ai/anomaly-detection/trainer/data.py:29-33 | differencing drops one point and records `_first` exactly when asked |
| Dataset.Preprocessed | platform/vertex-ai/anomaly-detection/trainer/data.py:27-33 | succeeds exactly when enough points remain for the period (IndexError otherwise); the result is time-sorted, one point shorter when differenced |
| Dataset.DifferencedCanBeRebuilt | platform/vertex-ai/anomaly-detection/trainer/data.py:29-32 | `_first` and the differences rebuild the sorted series, and `_last` is its last value |
| Dataset.Windows | platform/vertex-ai/anomaly-detection/trainer/data.py:20 | `len(ts) - points_before` rows; row k is `ts[k .. k + points_before)` |
| Dataset.Labels | platform/vertex-ai/anomaly-detection/trainer/data.py:21 | as many labels as rows; label k is `ts[k + points_before]` |
| Dataset.WindowAndLabel | platform/vertex-ai/anomaly-detection/trainer/data.py:20-21 | row k and its label are consecutive values |
| Dataset.WindowsSlide | platform/vertex-ai/anomaly-detection/trainer/data.py:20-21 | the next row is this row without its first value, plus this row's label |
| Dataset.WindowPrecedesLabel | platform/vertex-ai/anomaly-detection/trainer/data.py:20-21 | in the sorted series every window value is no later than its label |
| Dataset.Built | platform/vertex-ai/anomaly-detection/trainer/data.py:10-21 | construction gives `len(rows) == len(labels) == len(ts) - points_before` |
| Dataset.GetItem | platform/vertex-ai/anomaly-detection/trainer/data.py:48-53 | `__getitem__` with Python indexing: row and label, the row wrapped in a list for recurrent models; IndexError outside range |
| Dataset.GetItemInRange | platform/vertex-ai/anomaly-detection/trainer/data.py:45-53 | each index below `__len__` yields window `idx` and the value after it |
| Dataset.Trunc | platform/vertex-ai/anomaly-detection/trainer/data.py:59 | `int(x)` truncates toward zero |
| Dataset.CountBefore | platform/vertex-ai/anomaly-detection/trainer/data.py:61 | `sum(index < t)` counts at most every point |
| Dataset.CountBeforeIsPrefix | platform/vertex-ai/anomaly-detection/trainer/data.py:61 | in a sorted series, the points before `t` form a prefix |
| Dataset.SplitSpec | platform/vertex-ai/anomaly-detection/trainer/data.py:55-73 | the halves are tagged `'train'` and `'test'` |
| Dataset.SplitPartitions | platform/vertex-ai/anomaly-detection/trainer/data.py:63-72 | `train.rows + test.rows == rows`, likewise the labels; every other field is copied |
| Dataset.SplitSizes | platform/vertex-ai/anomaly-detection/trainer/data.py:56-59 | an int n gives n training rows, a float f gives `int(len * f)` |
| Dataset.SplitHalvesAreWindows | platform/vertex-ai/anomaly-detection/trainer/data.py:63-71 | the halves keep `ts[:points + pb]` and `ts[points:]`, and each half's rows and labels are exactly the windows of its own points |
| Dataset.SplitByTimeKeepsEarlierPoints | platform/vertex-ai/anomaly-detection/trainer/data.py:60-71 | splitting at a time gives training every earlier point, and testing only points at or after it |
| Dataset.TimeSeriesDataset.constructor | platform/vertex-ai/anomaly-detection/trainer/data.py:10-21 | the new dataset is `Built` from the series |
| Dataset.TimeSeriesDataset.Copy | platform/vertex-ai/anomaly-detection/trainer/data.py:63 | `deepcopy`: a fresh object with the same state |
| Dataset.TimeSeriesDataset.PreprocessData | platform/vertex-ai/anomaly-detection/trainer/data.py:27-37 | sorts in place, differences when asked, records the period and normalises |
| Dataset.TimeSeriesDataset.SortIndex | platform/vertex-ai/anomaly-detection/trainer/data.py:28 | the points become `SortByTime` of the old ones; nothing else changes |
| Dataset.TimeSeriesDataset.DifferenceSeries | platform/vertex-ai/anomaly-detection/trainer/data.py:29-32 | records the first and last values, then keeps the differences |
| Dataset.TimeSeriesDataset.Normalise | platform/vertex-ai/anomaly-detection/trainer/data.py:35-37 | stores the mean and deviation and normalises the points |
| Dataset.TimeSeriesDataset.Len | platform/vertex-ai/anomaly-detection/trainer/data.py:45-46 | `__len__` is the number of rows |
| Dataset.TimeSeriesDataset.Split | platform/vertex-ai/anomaly-detection/trainer/data.py:55-73 | two fresh copies split as `SplitSpec`; the dataset itself is unchanged |
| TsHandler.SelectSeries | platform/docker/vai-ad-tma/files/ts_handler.py:46-54 | fails (AssertionError) exactly for a missing or empty batch, or a first item with neither `data` nor `body` |
| TsHandler.Preprocess | platform/docker/vai-ad-tma/files/ts_handler.py:44-63 | fails exactly when there is no data; otherwise one normalised value per point |
| TsHandler.PreprocessPrefersData | platform/docker/vai-ad-tma/files/ts_handler.py:52-54 | `data` wins over `body` |
| TsHandler.SortNormalizeCommute | platform/docker/vai-ad-tma/files/ts_handler.py:60-61 | normalising then sorting equals sorting then normalising |
| TsHandler.PreprocessRoundTrip | platform/docker/vai-ad-tma/files/ts_handler.py:57-63 | denormalising the output gives the request's values in time order |
| TsHandler.Inference | platform/docker/vai-ad-tma/files/ts_handler.py:65-70 | succeeds exactly when there are more than `input_size` values; the model sees the first `input_size`, and the next one is the real value |
| TsHandler.Classify | platform/docker/vai-ad-tma/files/ts_handler.py:78-83 | flag -1 iff `lower > real`; 1 iff `lower <= real` and `upper < real`; 0 iff `lower <= real <= upper` |
| TsHandler.Postprocess | platform/docker/vai-ad-tma/files/ts_handler.py:72-84 | as written: one verdict; denormalised `possible` and `real`; bounds `possible + bounds[i] * std`; the three flag cases |
| TsHandler.PostprocessReadsNegatedResidual | platform/docker/vai-ad-tma/files/ts_handler.py:76-83 | as written, the flag compares `real - possible` (the negated trained residual) with the bounds |
| TsHandler.TypicalPointFlaggedLow | platform/docker/vai-ad-tma/files/ts_handler.py:76-79 | a point whose residual equals both trained bounds is flagged low as written, normal when corrected |
| TsHandler.PostprocessCorrected | platform/docker/vai-ad-tma/files/ts_handler.py:72-84 | the band is `[possible - upper * std, possible - lower * std]`, classified as in `postprocess` |
| TsHandler.CorrectedFlagsByResidual | platform/docker/vai-ad-tma/files/ts_handler.py:76-83 | corrected, a value is normal iff its residual lies within the trained bounds |
| TsHandler.SymmetricBoundsAgree | platform/docker/vai-ad-tma/files/ts_handler.py:76-77 | for bounds symmetric around 0 the two bands coincide |
| TsHandler.CorrectedBandOrdered | platform/docker/vai-ad-tma/files/ts_handler.py:76-77 | with ordered bounds the corrected band is non-empty |
| TsHandler.Handle | platform/docker/vai-ad-tma/files/ts_handler.py:44-84 | `preprocess`, `inference` and `postprocess` as written, in turn: fails exactly without a series or with at most `input_size` points; otherwise one verdict that classifies the real value against its band |
| TsHandler.HandleCorrected | platform/docker/vai-ad-tma/files/ts_handler.py:72-84 | the same request with the corrected band: fails exactly when `Handle` does and reports the same prediction and real value |
| TsHandler.HandleReportsNewestValue | platform/docker/vai-ad-tma/files/ts_handler.py:44-84 | as written, for `input_size` points of history plus the newest one: the verdict's real value is the newest value, the prediction is over the normalised history, and the band is `possible + bounds[i] * std` |
| DeviceFeedback.Decide | platform/functions/detectAnomalyVertex/main.py:131-141 | command iff `value > upper`; turn-off iff `value <= upper` and `value < lower`; nothing iff within the band |
| DeviceFeedback.DevicePathIsClientId | platform/functions/detectAnomalyVertex/device_communicator.py:20-21 | the device path the functions write to is the MQTT client id of the same coordinates |
| DeviceFeedback.Requests | platform/functions/detectAnomalyVertex/device_communicator.py:19-39 | a decision makes at most one request |
| DeviceFeedback.FeedbackRequests | platform/functions/detectAnomalyVertex/main.py:127-141 | exactly one command above the band, exactly one `{"enabled": false}` write below it, nothing inside; all addressed to the communicator's device |
| DeviceFeedback.TurnOffDisables | platform/functions/detectAnomalyVertex/main.py:138-140 | the written config disables any device state |
| DeviceFeedback.Processor.constructor | platform/functions/detectAnomalyVertex/main.py:37-49 | no communicator, no calls yet |
| DeviceFeedback.Processor.SetDeviceCommunicator | platform/functions/detectAnomalyVertex/main.py:116-125 | creates the processor's own communicator once; a set one is never replaced |
| DeviceFeedback.Processor.SetConfig | platform/functions/detectAnomalyVertex/device_communicator.py:19-28 | one config request to the device path; FailedPrecondition is logged, not raised; any other error is raised |
| DeviceFeedback.Processor.SendCommand | platform/functions/detectAnomalyVertex/device_communicator.py:30-39 | one command request to the device path; FailedPrecondition is logged, not raised; any other error is raised |
| DeviceFeedback.Processor.FeedbackToDevice | platform/functions/detectAnomalyVertex/main.py:127-141 | sets up the communicator at most once, then makes exactly the requests `Decide` calls for; it ends in the error of a request only when that error is not FailedPrecondition (`Outcome`) |
| DeviceFeedback.Outcome | platform/functions/detectAnomalyVertex/device_communicator.py:23-28 | the feedback fails exactly when a request is made and the device manager answers with an error other than FailedPrecondition, and then with that error |
| DetectAnomalyVertex.InWindow | platform/functions/detectAnomalyVertex/main.py:20-21 | the points of the table within `[lo, hi)`, each as many times as the table holds it |
| DetectAnomalyVertex.PreviousRows | platform/functions/detectAnomalyVertex/main.py:17-23 | the query: the table's points in `[ts - interval, ts)`, duplicates included, ordered by time |
| DetectAnomalyVertex.PreviousRowsEarlier | platform/functions/detectAnomalyVertex/main.py:20-21 | every history row is strictly earlier than the event |
| DetectAnomalyVertex.NewPointLast | platform/functions/detectAnomalyVertex/main.py:68-74 | appending a later point and sorting leaves it last |
| DetectAnomalyVertex.Series | platform/functions/detectAnomalyVertex/main.py:68-75 | the series is the history plus the event (as a multiset), time-sorted |
| DetectAnomalyVertex.SeriesEndsWithEvent | platform/functions/detectAnomalyVertex/main.py:54-75 | for a queried history, the series is that history followed by the event |
| DetectAnomalyVertex.RowOf | platform/functions/detectAnomalyVertex/main.py:89-102 | `is_anomaly` iff the flag is non-zero; the row carries the last point's time, the real value and the bounds |
| DetectAnomalyVertex.DetectAnomaly | platform/functions/detectAnomalyVertex/main.py:54-76 | ValueError unless exactly `input_size` history rows; otherwise, whenever the endpoint answers with at least one prediction, the row of the first one; and only then does it succeed |
| DetectAnomalyVertex.HandlerEndpoint | platform/functions/detectAnomalyVertex/main.py:89-92 | the serving handler as written behind the endpoint: one prediction exactly when the series is longer than `input_size` |
| DetectAnomalyVertex.HandlerReportsEvent | platform/functions/detectAnomalyVertex/main.py:54-102 | with the serving handler as written behind the endpoint, detection succeeds and the row reports the event's time and value; it is an anomaly iff the value lies outside the stored band |
| DetectAnomalyVertex.AnomalyIffFeedback | platform/functions/detectAnomalyVertex/main.py:89-141 | a classified row is an anomaly iff feedback has something to send |
| DetectAnomalyVertex.SetEndpoint | platform/functions/detectAnomalyVertex/main.py:78-87 | the last listed endpoint; ValueError when none is listed |
| DetectAnomalyVertex.HandleEvent | platform/functions/detectAnomalyVertex/main.py:145-186 | detect, store the row, and send feedback only for an anomaly, to the event's device; the feedback's outcome is `Outcome` of the decision |
| AnalyzeIoT.ModelNameParts | platform/functions/analyzeIoTPopulateCallback/main.py:13 | the model name reads back as project, dataset and `model_prefix + "latest"` |
| AnalyzeIoT.IsAnomaly | platform/functions/analyzeIoTPopulateCallback/main.py:92-98 | `None` iff the field is NA, the field itself otherwise |
| AnalyzeIoT.DetectAnomaly | platform/functions/analyzeIoTPopulateCallback/main.py:77-90 | asks the model for `{prefix}latest` and keeps the first row; fails when there is none |
| AnalyzeIoT.HandleEvent | platform/functions/analyzeIoTPopulateCallback/main.py:138-171 | detect, store the row, and send feedback only when the model answered true; the feedback's outcome is `Outcome` of the decision |
| AnalyzeIoT.NoFeedbackUnlessTrue | platform/functions/analyzeIoTPopulateCallback/main.py:169-171 | feedback runs iff `is_anomaly` is exactly true; NA and false never reach the device |
| Trainer.Matching | platform/vertex-ai/anomaly-detection/trainer/trainer.py:90 | the names matching `checkpoint\d+\.pt`, each as often as listed |
| Trainer.Trained | platform/vertex-ai/anomaly-detection/trainer/trainer.py:32-47 | `train_one_epoch` raises the epoch by one and appends one train loss |
| Trainer.Validated | platform/vertex-ai/anomaly-detection/trainer/trainer.py:49-71 | one val loss is appended with the validation loader; a test loader leaves the history alone; no loader is an AssertionError |
| Trainer.Save | platform/vertex-ai/anomaly-detection/trainer/trainer.py:95-126 | rejects other stages; intermediate writes `checkpoint{epoch:04}.pt`; 'after' writes `checkpoint.pt` and, when it succeeds, `config.json` with the best epoch and its loss; counters never change |
| Trainer.NewestCheckpoint | platform/vertex-ai/anomaly-detection/trainer/trainer.py:134-135 | the greatest matching name; IndexError iff none matches |
| Trainer.Load | platform/vertex-ai/anomaly-detection/trainer/trainer.py:128-148 | a successful load never changes the folder; with a `config.json` the experiment takes the stored name, otherwise (and on failure) it keeps its own |
| Trainer.LoadRestores | platform/vertex-ai/anomaly-detection/trainer/trainer.py:128-148 | a load succeeds exactly when the chosen checkpoint unpickles and any `config.json` decodes; the history is then the checkpoint's, and `epoch`, `best_epoch` and the experiment name are those in `config.json` when it exists, the trainer's own otherwise |
| Trainer.Checkpoints | platform/vertex-ai/anomaly-detection/trainer/trainer.py:90 | one path per matching name |
| Trainer.Rejoined | platform/vertex-ai/anomaly-detection/trainer/trainer.py:93 | as written, one path per checkpoint, each joined to the folder again |
| Trainer.Trainer.constructor | platform/vertex-ai/anomaly-detection/trainer/trainer.py:13-30 | `epoch = best_epoch = -1`, empty histories |
| Trainer.Trainer.TrainOneEpoch | platform/vertex-ai/anomaly-detection/trainer/trainer.py:32-47 | the new state is `Trained`; returns the loss |
| Trainer.Trainer.Validate | platform/vertex-ai/anomaly-detection/trainer/trainer.py:49-71 | the new state and result are `Validated` |
| Trainer.Trainer.SaveCheckpoint | platform/vertex-ai/anomaly-detection/trainer/trainer.py:95-126 | the new state and result are `Save` |
| Trainer.Trainer.Train | platform/vertex-ai/anomaly-detection/trainer/trainer.py:73-86 | the `for` loop with early stopping and the final save follow `TrainRun` |
| Trainer.Trainer.LoadCheckpoint | platform/vertex-ai/anomaly-detection/trainer/trainer.py:128-148 | the new state, experiment name and result are `Load` |
| Trainer.Trainer.CleanModelsAsWritten | platform/vertex-ai/anomaly-detection/trainer/trainer.py:88-93 | as written: removes the rejoined paths of `ToDelete`; nothing but the folder changes |
| Trainer.Trainer.CleanModels | platform/vertex-ai/anomaly-detection/trainer/trainer.py:88-93 | corrected: removes the paths of `ToDelete` as listed |
| Trainer.Trainer.RemovePaths | platform/vertex-ai/anomaly-detection/trainer/trainer.py:92-93 | the `os.remove` loop: removes the paths in order and stops with FileNotFoundError at the first one that does not resolve |
| TrainerProperties.CheckpointNameMatches | platform/vertex-ai/anomaly-detection/trainer/trainer.py:97-100 | every trained epoch's checkpoint name matches `checkpoint\d+\.pt` |
| TrainerProperties.OtherNamesDoNotMatch | platform/vertex-ai/anomaly-detection/trainer/trainer.py:96-100 | `checkpoint.pt`, `config.json` and `checkpoint-001.pt` never match |
| TrainerProperties.CheckpointNameOrder | platform/vertex-ai/anomaly-detection/trainer/trainer.py:99 | below 10000, name order is epoch order |
| TrainerProperties.StepCounts | platform/vertex-ai/anomaly-detection/trainer/trainer.py:74-85 | one iteration trains one epoch; it stops only early (`best + es <= epoch`, `es != 0`) or on an error |
| TrainerProperties.LoopCounts | platform/vertex-ai/anomaly-detection/trainer/trainer.py:74-85 | at most `epochs` epochs, all of them unless stopped; early stop only when `best + es <= epoch`; one history entry per epoch |
| TrainerProperties.TrainRunsAtMostEpochs | platform/vertex-ai/anomaly-detection/trainer/trainer.py:73-86 | a fresh trainer runs at most `epochs` epochs, one history entry each |
| TrainerProperties.TrainWithoutValidationFails | platform/vertex-ai/anomaly-detection/trainer/trainer.py:73-86 | without a validation loader every epoch runs and `train` then raises AssertionError, after `checkpoint.pt` is written |
| TrainerProperties.FirstMinimumPrefix | platform/vertex-ai/anomaly-detection/trainer/trainer.py:82 | a first minimum stays one when a loss is appended beyond the range |
| TrainerProperties.StepTracksBest | platform/vertex-ai/anomaly-detection/trainer/trainer.py:76-85 | `best_epoch` stays the first minimum of the val losses, or moves to the current epoch |
| TrainerProperties.LoopTracksBest | platform/vertex-ai/anomaly-detection/trainer/trainer.py:74-85 | a validating loop raises nothing; finished, `val_loss[best_epoch]` is the minimum and `best_epoch` its first epoch |
| TrainerProperties.TrainSucceeds | platform/vertex-ai/anomaly-detection/trainer/trainer.py:73-126 | a fresh validating trainer succeeds iff it trains at least one epoch (else IndexError), and `config.json` then records the best epoch and its loss |
| TrainerProperties.StepKeepsCheckpoints | platform/vertex-ai/anomaly-detection/trainer/trainer.py:82-85 | an iteration keeps every matching entry a checkpoint of an epoch up to the best one |
| TrainerProperties.LoopKeepsCheckpoints | platform/vertex-ai/anomaly-detection/trainer/trainer.py:74-85 | the loop keeps it too |
| TrainerProperties.TrainKeepsCheckpoints | platform/vertex-ai/anomaly-detection/trainer/trainer.py:73-86 | after `train`, the matching entries are checkpoints of epochs up to the best, whose checkpoint is present |
| TrainerProperties.NewestIsBest | platform/vertex-ai/anomaly-detection/trainer/trainer.py:134-135 | on such a folder, `load_checkpoint(last=False)` picks the best epoch's checkpoint, or raises IndexError |
| TrainerProperties.NewestCheckpointIsBest | platform/vertex-ai/anomaly-detection/trainer/trainer.py:128-137 | after `train` of at most 10000 epochs, the newest checkpoint is the best epoch's |
| TrainerProperties.SaveThenLoad | platform/vertex-ai/anomaly-detection/trainer/trainer.py:128-148 | loading the final checkpoint just saved, into any trainer over the same folder, restores the saver's history, counters and experiment name |
| TrainerProperties.RemoveAllResolved | platform/vertex-ai/anomaly-detection/trainer/trainer.py:92-93 | removing distinct resolvable paths succeeds and removes exactly those entries |
| TrainerProperties.ToDeleteFromCheckpoints | platform/vertex-ai/anomaly-detection/trainer/trainer.py:90-91 | every deleted path is a checkpoint path |
| TrainerProperties.CheckpointsResolve | platform/vertex-ai/anomaly-detection/trainer/trainer.py:90 | the checkpoint paths name matching entries, none twice |
| TrainerProperties.ToDeleteResolves | platform/vertex-ai/anomaly-detection/trainer/trainer.py:90-91 | so do the paths chosen for deletion |
| TrainerProperties.CleanModelsRemovesChosen | platform/vertex-ai/anomaly-detection/trainer/trainer.py:88-93 | corrected `clean_models` succeeds, removes exactly the chosen checkpoints and leaves every other entry as it was |
| TrainerProperties.ToDeleteOldest | platform/vertex-ai/anomaly-detection/trainer/trainer.py:91 | the deleted paths sort no later than the kept ones; `number_left > 0` keeps that many (or all); `number_left == 0` deletes nothing |
| TrainerProperties.CleanModelsAsWrittenFails | platform/vertex-ai/anomaly-detection/trainer/trainer.py:92-93 | as written, in a relative folder with something to delete: FileNotFoundError and nothing removed |
| TrainerProperties.AbsoluteFolderUnaffected | platform/vertex-ai/anomaly-detection/trainer/trainer.py:93 | for an absolute folder the second join is harmless |
| TrainerProperties.TwoCheckpointsToDelete | platform/vertex-ai/anomaly-detection/trainer/trainer.py:91 | keeping one of two checkpoints deletes the older one's path |
| TrainerProperties.TwoCheckpointsAsWritten | platform/vertex-ai/anomaly-detection/trainer/trainer.py:88-93 | as written, two checkpoints in a relative folder: FileNotFoundError, nothing deleted |
| TrainerProperties.TwoCheckpointsCorrected | platform/vertex-ai/anomaly-detection/trainer/trainer.py:88-93 | corrected: the older checkpoint is deleted and the newer kept |
| TrainerProperties.CleanModelsExample | platform/vertex-ai/anomaly-detection/trainer/trainer.py:88-93 | folder `linear01_20220101`, epochs 0 and 1, keep one: as written FileNotFoundError; corrected only `checkpoint0001.pt` remains |
| Task.Location | platform/vertex-ai/anomaly-detection/trainer/task.py:87-88 | succeeds iff the path has at least three `/` fields (IndexError otherwise); the bucket has no `/` |
| Task.LocationOfFields | platform/vertex-ai/anomaly-detection/trainer/task.py:87-88 | after two fields, the third is the bucket and the rest the folder |
| Task.LocationRoundTrip | platform/vertex-ai/anomaly-detection/trainer/task.py:87-88 | `gs://<bucket>/<folder>` gives back bucket and folder |
| Task.LocationFolderIsSuffix | platform/vertex-ai/anomaly-detection/trainer/task.py:88 | the folder is a suffix of the path |
| Task.PatternLocation | platform/vertex-ai/anomaly-detection/trainer/task.py:25-28 | the location of the text before the first `*`; without a `*`, of the pattern minus its last character |
| Task.WildcardPattern | platform/vertex-ai/anomaly-detection/trainer/task.py:21-28 | `gs://<bucket>/<prefix>*...` is not a single file and lists the bucket under the prefix |
| Task.WildcardExample | platform/vertex-ai/anomaly-detection/trainer/task.py:25-28 | `"gs://b/data/part*"` gives bucket `"b"` and prefix `"data/part"` |
| Task.UnstarredPatternDropsLastCharacter | platform/vertex-ai/anomaly-detection/trainer/task.py:25 | without a `*`, `find` gives -1 and the last character is dropped |
| Task.CsvFrames | platform/vertex-ai/anomaly-detection/trainer/task.py:29-37 | at most one frame per blob |
| Task.Concat | platform/vertex-ai/anomaly-detection/trainer/task.py:40 | no frames give no rows |
| Task.DropDuplicates | platform/vertex-ai/anomaly-detection/trainer/task.py:40 | the same rows, each once |
| Task.DropDuplicatesKeepsDistinct | platform/vertex-ai/anomaly-detection/trainer/task.py:40 | rows without repeats are unchanged, so dropping twice drops nothing more |
| Task.CsvFramesRows | platform/vertex-ai/anomaly-detection/trainer/task.py:29-40 | a collected row is a row of a non-empty `.csv` blob, and every such row is collected |
| Task.CsvFramesNonEmpty | platform/vertex-ai/anomaly-detection/trainer/task.py:29-39 | some frame is collected iff some blob contributes |
| Task.FromBlobsRows | platform/vertex-ai/anomaly-detection/trainer/task.py:29-40 | data iff some `.csv` blob is non-empty (AssertionError otherwise); then every such row, once |
| Task.ReadCloudData | platform/vertex-ai/anomaly-detection/trainer/task.py:20-40 | a single `.csv` file is read directly (empty raises); otherwise the listed blobs under the pattern's bucket and prefix, as `FromBlobs` |
| Task.ExperimentName | platform/vertex-ai/anomaly-detection/trainer/task.py:60 | the name starts with the given name |
| Task.ExperimentNameIsRelative | platform/vertex-ai/anomaly-detection/trainer/task.py:47-60 | a relative name (the default `linear01`) gives a relative, non-empty folder |
| Task.ModelFile | platform/vertex-ai/anomaly-detection/trainer/task.py:82-84 | IndexError when there is no checkpoint |
| Task.CheckpointPaths | platform/vertex-ai/anomaly-detection/trainer/task.py:82-84 | the sorted paths are exactly the matching names joined to the folder |
| Task.ModelFileIsNewestCheckpoint | platform/vertex-ai/anomaly-detection/trainer/task.py:82-84 | the exported file is the checkpoint `load_checkpoint(last=False)` picks, joined to the folder |
| Task.Uploads | platform/vertex-ai/anomaly-detection/trainer/task.py:86-91 | AttributeError without `AIP_MODEL_DIR`; otherwise succeeds iff the directory splits into a bucket and a folder; uploads the model file and the experiment's `config.json` |
| Task.UploadsUnderModelDir | platform/vertex-ai/anomaly-detection/trainer/task.py:86-91 | the objects lie at the model dir's text followed by `pytorch_model.bin` and `config.json` |
| Task.ExportsBestEpoch | platform/vertex-ai/anomaly-detection/trainer/task.py:81-84 | after `train`, the exported model is the best epoch's checkpoint |
| FeedbackLoop.CallbacksPublishNoTelemetry | platform/iot/mqtt_client/client.py:81-106 | callbacks never publish telemetry |
| FeedbackLoop.DeliveryDisables | platform/iot/mqtt_client/client.py:96-106 | a delivered `{"enabled": false}` with no later config disables the client without publishing telemetry |
| FeedbackLoop.LowReadingWritesTurnOff | platform/functions/detectAnomalyVertex/main.py:138-141 | a reading below its band writes `{"enabled": false}` to the client's own id |
| FeedbackLoop.LowReadingStopsDevice | platform/iot/mqtt_client/client.py:159-162 | the low reading's config reaches the client, which publishes no more telemetry, never raises, and stops at its next flag check (at once from the `while`, one tick later from the `for`) |

## Left out

- MQTT transport, TLS, `get_client`'s host and port, `on_publish`, `on_message` and `error_str`. They only log or call paho. Connects, subscriptions, publishes, sleeps and reconnects are recorded as effects.
- The JWT signature and the private-key file read. A token is its claims.
- The paho network thread. Callbacks are delivered at the flag checks, one batch per tick.
- JSON text. A config message arrives decoded, or as malformed text. Valid JSON that is not an object is left out: `dict.update` raises inside paho's thread.
- `Value`: JSON arrays and nested objects. A config value is a boolean, a number, a string or null.
- A constant series. `Dataset.TimeSeriesDataset.constructor` requires a positive standard deviation and `TsHandler` a non-zero `std`, where pandas would divide by zero and produce NaN or infinity.
- Unicode digits. `Trainer.IsDigit` and `MqttTimestamp.IsDigit` accept ASCII `0`-`9` only, where Python's `\d` and `strptime` also accept other Unicode decimal digits.
- The order of points with equal timestamps. pandas' `sort_index` (quicksort by default) is not stable, while `Dataset.SortByTime` keeps their input order.
- `strptime`/`strftime` in other than the default formats. `MqttTimestamp.ParseInput` handles only the zero-padded 19-character input.
- The clock and `random.randint`. They are tick fields.
- Cloud Logging, the BigQuery insert errors (only logged), base64 decoding of events, and environment-variable lookup. The environment values are a `Config`.
- BigQueryEvents: text timestamps are whole seconds. The float arithmetic of the source is exact on whole seconds.
- BigQueryEvents.Event: the event's time arrives already parsed, as seconds. The model leaves out `datetime.strptime(data['timestamp'], TS_FORMAT)` and its ValueError on text that does not match the format (main.py:18-19).
- BigQueryEvents.Event: a missing `timestamp`, `value` or `deviceId` key, which raises KeyError in the source; every event carries all three.
- BigQueryEvents.Bucket: the naive local-time conversions `timestamp()` and `fromtimestamp()`. Times are taken on one uniform clock, so daylight-saving shifts do not appear.
- BigQueryEvents.Row: the `strftime(TS_FORMAT)` back to text (main.py:22). The row keeps the bucketed time in seconds.
- Dataset: `_add_date_features` (a no-op in the source), `__str__` and `pd.to_datetime`.
- Dataset.TimeSeriesDataset.constructor: the standard deviation is supplied, characterised by its square, because the model computes no square roots.
- Floating point. Values, losses and bounds are exact reals.
- Torch: the model, optimiser, loss function, `seed_all` and checkpoint serialisation. Losses per epoch and the residual bounds are inputs. `np.quantile` in `get_residuals_bounds` is not modelled.
- Trainer: loaders yielding no batch. The source then divides by zero or reads an unbound variable.
- Trainer.Load: `load_checkpoint` with a folder other than the trainer's own.
- Trainer.Trainer.LoadCheckpoint: after a load that takes another experiment name from `config.json`, the source saves and cleans in that name's folder; the model holds one folder, the one loaded from. The two agree whenever `config.json` was written by a trainer of the same folder (`TrainerProperties.SaveThenLoad`).
- TrainerProperties.NewestCheckpointIsBest and Task.ExportsBestEpoch: these assume at most 10000 epochs. Five-digit names sort before four-digit ones.
- task.py's argument parsing, the data frame column set-up, `DataLoader` and the model construction. The dataset and trainer they feed are modelled in `Dataset` and `Trainer`.
- ts_handler `initialize` (model loading) and `pd.read_json`. A request item carries the decoded series.
- The text of the high-anomaly command. The text of a float is not modelled; the command keeps the timestamp and the value.
- `serialize_pd` and the endpoint's JSON and base64 encoding. These are treated as lossless.

## Findings

| source | as written | input that shows it | evidently intended | confidence | as-written member | corrected member |
|---|---|---|---|---|---|---|
| platform/docker/vai-ad-tma/files/ts_handler.py:76-77 | the band is `possible + bounds[i] * std`, but the bounds are quantiles of `yhat - y` (trainer.py:166-168); the flag therefore tests `y - yhat` against bounds of `yhat - y` | std 1, mean 0, bounds (1, 1) (a model that over-predicts every label by one deviation), prediction 1.0, real 0.0: residual 1 lies within the bounds, yet the flag is -1 | band `[possible - bounds[1] * std, possible - bounds[0] * std]`, so a value is normal iff its residual lies within the bounds | not executed | TsHandler.TypicalPointFlaggedLow | TsHandler.CorrectedFlagsByResidual |
| platform/vertex-ai/anomaly-detection/trainer/trainer.py:93 | `os.remove(os.path.join(experiment_name, old_checkpoint))`, but each `old_checkpoint` already starts with the folder (line 90) | folder `linear01_20220101` holding `checkpoint0000.pt` and `checkpoint0001.pt`, `number_left=1`: it removes `linear01_20220101/linear01_20220101/checkpoint0000.pt`, which does not exist, so FileNotFoundError | remove each listed path as it is | not executed | TrainerProperties.CleanModelsExample | TrainerProperties.CleanModelsRemovesChosen |
