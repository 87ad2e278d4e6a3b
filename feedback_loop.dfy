/** The feedback loop from a cloud function back to a device: a reading
    below its band makes the function write the config `{"enabled": false}`
    to the device whose MQTT client id has the same coordinates; once the
    client receives that config, it publishes no more telemetry and its
    loop stops at the next check of the `enabled` flag.

    The device manager delivers the written config as a config message
    (a paho callback) in some tick of the client's loop; that delivery is
    the one assumption connecting the two sides. */
module FeedbackLoop {
  import opened Common
  import opened MqttClient
  import opened MqttClientProperties
  import opened DeviceFeedback

  /** Delivering callbacks in two batches is delivering them in one. */
  lemma {:induction false} ApplyCallbacksAppend(st: Settings, m: Machine, a: seq<Callback>, b: seq<Callback>)
    ensures ApplyCallbacks(st, m, a + b) == ApplyCallbacks(st, ApplyCallbacks(st, m, a), b)
    decreases |b|
  {
    if |b| == 0 {
      assert a + b == a;
    } else {
      assert (a + b)[..|a + b| - 1] == a + b[..|b| - 1];
      ApplyCallbacksAppend(st, m, a, b[..|b| - 1]);
    }
  }

  /** Callbacks never publish telemetry. */
  lemma {:induction false} CallbacksPublishNoTelemetry(st: Settings, m: Machine, cbs: seq<Callback>)
    ensures Count(ApplyCallbacks(st, m, cbs).log, KPublishTelemetry) == Count(m.log, KPublishTelemetry)
    decreases |cbs|
  {
    if |cbs| > 0 {
      var r := ApplyCallbacks(st, m, cbs[..|cbs| - 1]);
      CallbacksPublishNoTelemetry(st, m, cbs[..|cbs| - 1]);
      var cb := cbs[|cbs| - 1];
      if cb.OnConfig? && cb.payload.JsonObject? {
        AppendLog(r.log, [PublishState(StateTopic(st), Merged(r.state, cb.payload.fields), 1)]);
      }
    }
  }

  /** Callbacks that carry no config leave the state as it is. */
  lemma CallbacksKeepState(st: Settings, m: Machine, cbs: seq<Callback>)
    requires NoConfigCallbacks(cbs)
    ensures ApplyCallbacks(st, m, cbs).state == m.state
  {
    CallbacksWithoutConfig(st, m, cbs);
  }

  /** The loop over a first tick and then others: the first tick's step,
      then the others from where it left the loop. */
  lemma {:induction false} ExecCons(st: Settings, values: seq<Measurement>, m: Machine, pc: Pc, t: Tick, ticks: seq<Tick>)
    ensures Exec(st, values, m, pc, [t] + ticks)
         == Exec(st, values, Step(st, values, m, pc, t).0, Step(st, values, m, pc, t).1, ticks)
    decreases |ticks|
  {
    if |ticks| == 0 {
      assert ([t] + ticks)[..0] == [];
    } else {
      assert ([t] + ticks)[..|ticks|] == [t] + ticks[..|ticks| - 1];
      ExecCons(st, values, m, pc, t, ticks[..|ticks| - 1]);
    }
  }

  /** The device's coordinates, as a cloud function's communicator holds
      them. */
  function CommunicatorFor(st: Settings): Communicator {
    Communicator(st.projectId, st.location, st.registryId, st.deviceId, "0")
  }

  /** A reading below its band (and not above it) writes `{"enabled":
      false}` to the client's own resource name. */
  lemma LowReadingWritesTurnOff(st: Settings, reading: Reading)
    requires reading.value < reading.lowerBound && reading.value <= reading.upperBound
    ensures Requests(CommunicatorFor(st), Decide(reading))
         == [ModifyCloudToDeviceConfig(ClientId(st), TurnOffConfig, "0")]
  {
    DevicePathIsClientId(st);
  }

  /** The tick in which the written config reaches the client, among other
      callbacks. */
  function Delivering(t: Tick, before: seq<Callback>, after: seq<Callback>): Tick {
    t.(callbacks := before + [OnConfig(JsonObject(TurnOffConfig))] + after)
  }

  /** The callbacks of the delivering tick switch the client off without
      publishing telemetry. */
  lemma DeliveryDisables(st: Settings, m: Machine, before: seq<Callback>, after: seq<Callback>)
    requires NoConfigCallbacks(after)
    ensures var a := ApplyCallbacks(st, m, before + [OnConfig(JsonObject(TurnOffConfig))] + after);
      && !Enabled(a.state)
      && Count(a.log, KPublishTelemetry) == Count(m.log, KPublishTelemetry)
  {
    var cbs := before + [OnConfig(JsonObject(TurnOffConfig))] + after;
    var b := ApplyCallbacks(st, m, before + [OnConfig(JsonObject(TurnOffConfig))]);
    ApplyCallbacksAppend(st, m, before + [OnConfig(JsonObject(TurnOffConfig))], after);
    ApplyCallbacksAppend(st, m, before, [OnConfig(JsonObject(TurnOffConfig))]);
    assert b.state == Merged(ApplyCallbacks(st, m, before).state, TurnOffConfig) by {
      assert [OnConfig(JsonObject(TurnOffConfig))][..0] == [];
    }
    TurnOffDisables(ApplyCallbacks(st, m, before).state);
    CallbacksKeepState(st, b, after);
    CallbacksPublishNoTelemetry(st, m, cbs);
  }

  /** A reading below its band switches the device off: the cloud function
      writes `{"enabled": false}` to the device's resource name, which is
      its client id; once the client receives it, with no later config
      message, the client publishes no more telemetry, never raises, and
      its loop stops at the next check of the `enabled` flag — at once when
      the config arrives while the loop waits at that check, and one tick
      later when it arrives inside the `for` loop. */
  lemma LowReadingStopsDevice(st: Settings, reading: Reading, values: seq<Measurement>, m: Machine, pc: Pc,
                              t: Tick, before: seq<Callback>, after: seq<Callback>, ticks: seq<Tick>)
    requires reading.value < reading.lowerBound && reading.value <= reading.upperBound
    requires pc == AtWhile || (pc.AtFor? && pc.i < |values|)
    requires NoConfigCallbacks(after) && NoConfig(ticks)
    ensures Requests(CommunicatorFor(st), Decide(reading))
         == [ModifyCloudToDeviceConfig(ClientId(st), TurnOffConfig, "0")]
    ensures var r := Exec(st, values, m, pc, [Delivering(t, before, after)] + ticks);
      && !Enabled(r.0.state)
      && r.1 != Raised
      && Count(r.0.log, KPublishTelemetry) == Count(m.log, KPublishTelemetry)
      && (pc == AtWhile || |ticks| >= 1 ==> r.1 == Stopped)
  {
    LowReadingWritesTurnOff(st, reading);
    var d := Delivering(t, before, after);
    var a := ApplyCallbacks(st, m, d.callbacks);
    DeliveryDisables(st, m, before, after);
    var (m1, pc1) := Step(st, values, m, pc, d);
    assert m1.state == a.state;
    assert m1.log == a.log || m1.log == a.log + [LoopStop];
    AppendLog(a.log, [LoopStop]);
    assert Count(m1.log, KPublishTelemetry) == Count(m.log, KPublishTelemetry);
    ExecCons(st, values, m, pc, d, ticks);
    if pc1 == Stopped {
      ExecHalted(st, values, m1, pc1, ticks, 0);
      assert ticks[..0] == [];
    } else {
      assert pc1 == AtWhile;
      DisabledStops(st, values, m1, pc1, ticks);
      AppendLog(m1.log, [LoopStop]);
    }
  }
}
