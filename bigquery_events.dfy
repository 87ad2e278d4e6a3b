/** The timestamp bucketing of `iot_events_to_bq`
    (platform/functions/iotBigQueryEvents/main.py): an event time is rounded
    down onto the grid `date_point + N * interval_sec`, and one row is built
    for BigQuery.

    Times are whole seconds since the epoch: both timestamps are read with a
    format without fractional seconds, so the float arithmetic of the source
    is exact on them. */
module BigQueryEvents {
  import opened Common
  import MqttClient

  /** Python's `//`: the floor of the exact quotient, for either sign of the
      divisor. (Dafny's `/` rounds so that the remainder is non-negative,
      which agrees only for a positive divisor.) */
  function FloorDiv(a: int, b: int): (q: int)
    requires b != 0
    ensures b > 0 ==> q * b <= a < q * b + b
    ensures b < 0 ==> q * b + b < a <= q * b
  {
    if b > 0 then a / b else (-a) / (-b)
  }

  /** `(ts_input - ts_point) // INTERVAL_SEC * INTERVAL_SEC + ts_point`;
      an interval of 0 raises ZeroDivisionError. */
  function Bucket(tsInput: int, tsPoint: int, interval: int): Result<int, string> {
    if interval == 0 then Failure("ZeroDivisionError")
    else Success(FloorDiv(tsInput - tsPoint, interval) * interval + tsPoint)
  }

  /** The decoded event: the device's telemetry and the sending device. */
  datatype Event = Event(timestamp: int, value: MqttClient.Value, deviceId: string)

  /** A row inserted into the table; `timestamp` is the bucketed time before
      it is formatted back to text. */
  datatype Row = Row(timestamp: int, value: MqttClient.Value, deviceId: string)

  /** The rows `iot_events_to_bq` inserts for one event. */
  function EventRows(e: Event, tsPoint: int, interval: int): Result<seq<Row>, string> {
    match Bucket(e.timestamp, tsPoint, interval)
    case Failure(err) => Failure(err)
    case Success(ts) => Success([Row(ts, e.value, e.deviceId)])
  }

  // ---------------------------------------------------------------------
  // Properties

  /** The bucket is the last grid point at or before the event. */
  lemma BucketBounds(tsInput: int, tsPoint: int, interval: int)
    requires interval > 0
    ensures Bucket(tsInput, tsPoint, interval).Success?
    ensures var ts := Bucket(tsInput, tsPoint, interval).value;
      ts <= tsInput < ts + interval
  {
  }

  /** Only interval 0 fails. */
  lemma BucketFailsOnlyOnZero(tsInput: int, tsPoint: int, interval: int)
    ensures Bucket(tsInput, tsPoint, interval).Failure? <==> interval == 0
  {
  }

  /** Buckets lie on the grid anchored at `date_point`. */
  lemma BucketOnGrid(tsInput: int, tsPoint: int, interval: int)
    requires interval != 0
    ensures (Bucket(tsInput, tsPoint, interval).value - tsPoint) % interval == 0
  {
    var q := FloorDiv(tsInput - tsPoint, interval);
    assert Bucket(tsInput, tsPoint, interval).value - tsPoint == q * interval;
    MultipleMod(q, interval);
  }

  lemma MultipleMod(q: int, b: int)
    requires b != 0
    ensures (q * b) % b == 0
  {
    if b > 0 {
      DivOfMultiple(q, b);
    } else {
      assert q * b == (-q) * (-b);
      DivOfMultiple(-q, -b);
      var d := (q * b) / b;
      var r := (q * b) % b;
      assert q * b == d * b + r && 0 <= r < -b;
      assert (q * b) % (-b) == 0;
      assert q * b == ((q * b) / (-b)) * (-b);
      var e := (q * b) / (-b);
      assert q * b == (-e) * b + 0;
      EuclidUnique(q * b, b, d, r, -e, 0);
    }
  }

  /** Quotient and remainder of Euclidean division are unique. */
  lemma EuclidUnique(a: int, b: int, d1: int, r1: int, d2: int, r2: int)
    requires b != 0
    requires a == d1 * b + r1 && 0 <= r1 < (if b > 0 then b else -b)
    requires a == d2 * b + r2 && 0 <= r2 < (if b > 0 then b else -b)
    ensures d1 == d2 && r1 == r2
  {
    var c := if b > 0 then b else -b;
    var e1 := if b > 0 then d1 else -d1;
    var e2 := if b > 0 then d2 else -d2;
    assert d1 * b == e1 * c && d2 * b == e2 * c;
    if e1 < e2 {
      MulMono(e1 + 1, e2, c);
    } else if e1 > e2 {
      MulMono(e2 + 1, e1, c);
    }
  }

  lemma DivOfMultiple(q: int, b: int)
    requires b > 0
    ensures (q * b) / b == q && (q * b) % b == 0
  {
    var d := (q * b) / b;
    var r := (q * b) % b;
    assert q * b == d * b + r;
    EuclidUnique(q * b, b, d, r, q, 0);
  }

  /** A grid point is its own bucket. */
  lemma GridPointIsFixed(tsPoint: int, interval: int, k: int)
    requires interval != 0
    ensures Bucket(tsPoint + k * interval, tsPoint, interval) == Success(tsPoint + k * interval)
  {
    var d := k * interval;
    assert tsPoint + d - tsPoint == d;
    FloorDivOfMultiple(k, interval);
  }

  lemma FloorDivOfMultiple(k: int, b: int)
    requires b != 0
    ensures FloorDiv(k * b, b) == k
  {
    var q := FloorDiv(k * b, b);
    if b > 0 {
      FloorUnique(q, k, b);
    } else {
      NegProducts(q, k, b);
      FloorUnique(q, k, -b);
    }
  }

  lemma NegProducts(q: int, k: int, b: int)
    ensures q * b == -(q * (-b)) && k * b == -(k * (-b))
  {
  }

  lemma FloorUnique(q: int, k: int, b: int)
    requires b > 0 && q * b <= k * b < q * b + b
    ensures q == k
  {
    if q < k {
      assert (q + 1) * b <= k * b by { MulMono(q + 1, k, b); }
    } else if q > k {
      assert (k + 1) * b <= q * b by { MulMono(k + 1, q, b); }
    }
  }

  lemma MulMono(x: int, y: int, b: int)
    requires x <= y && b > 0
    ensures x * b <= y * b
  {
    assert y * b - x * b == (y - x) * b;
  }

  /** Bucketing is idempotent. */
  lemma BucketIdempotent(tsInput: int, tsPoint: int, interval: int)
    requires interval != 0
    ensures var ts := Bucket(tsInput, tsPoint, interval).value;
      Bucket(ts, tsPoint, interval) == Success(ts)
  {
    var q := FloorDiv(tsInput - tsPoint, interval);
    GridPointIsFixed(tsPoint, interval, q);
  }

  /** For a positive interval, bucketing is monotone. */
  lemma BucketMonotone(t1: int, t2: int, tsPoint: int, interval: int)
    requires interval > 0 && t1 <= t2
    ensures Bucket(t1, tsPoint, interval).value <= Bucket(t2, tsPoint, interval).value
  {
    var q1 := FloorDiv(t1 - tsPoint, interval);
    var q2 := FloorDiv(t2 - tsPoint, interval);
    if q1 > q2 {
      MulMono(q2 + 1, q1, interval);
    }
    MulMono(q1, q2, interval);
  }

  /** Before `date_point` the floor moves a time away from it, never toward
      it: the bucket is at least as far from `date_point` as the event. */
  lemma EarlyTimesMoveAway(tsInput: int, tsPoint: int, interval: int)
    requires interval > 0 && tsInput < tsPoint
    ensures var ts := Bucket(tsInput, tsPoint, interval).value;
      ts <= tsInput && tsPoint - ts >= tsPoint - tsInput
  {
    BucketBounds(tsInput, tsPoint, interval);
  }

  /** A negative interval rounds up instead: the bucket is the first grid
      point at or after the event. */
  lemma NegativeIntervalRoundsUp(tsInput: int, tsPoint: int, interval: int)
    requires interval < 0
    ensures var ts := Bucket(tsInput, tsPoint, interval).value;
      tsInput <= ts < tsInput - interval
  {
  }

  /** Exactly one row is built, carrying the event's value and device id and
      the bucketed time. */
  lemma OneRowPerEvent(e: Event, tsPoint: int, interval: int)
    requires interval != 0
    ensures var rows := EventRows(e, tsPoint, interval);
      && rows.Success? && |rows.value| == 1
      && rows.value[0].value == e.value && rows.value[0].deviceId == e.deviceId
      && Success(rows.value[0].timestamp) == Bucket(e.timestamp, tsPoint, interval)
  {
  }

  /** An interval of 0 builds no row and raises. */
  lemma ZeroIntervalRaises(e: Event, tsPoint: int)
    ensures EventRows(e, tsPoint, 0) == Failure("ZeroDivisionError")
  {
  }
}
