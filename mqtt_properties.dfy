/** What `mqtt_device_run` guarantees, stated about the pure loop `Exec` that
    `Client.Run` is proved to follow. */
module MqttClientProperties {
  import opened Common
  import opened MqttTimestamp
  import opened MqttClient

  // ---------------------------------------------------------------------
  // Reading the log

  datatype EffectKind =
    | KConnect | KSubscribe | KLoopStart | KLoopStop | KDisconnect | KReconnect
    | KPublishState | KPublishTelemetry | KBackoffWait | KSleep | KGiveUp

  function Kind(e: Effect): EffectKind {
    match e
    case Connect(_, _, _) => KConnect
    case Subscribe(_, _) => KSubscribe
    case LoopStart => KLoopStart
    case LoopStop => KLoopStop
    case Disconnect => KDisconnect
    case Reconnect => KReconnect
    case PublishState(_, _, _) => KPublishState
    case PublishTelemetry(_, _, _) => KPublishTelemetry
    case BackoffWait(_, _) => KBackoffWait
    case Sleep(_) => KSleep
    case GiveUp => KGiveUp
  }

  /** How many effects of kind `k` the log holds. */
  function Count(log: seq<Effect>, k: EffectKind): nat {
    if |log| == 0 then 0
    else Count(log[..|log| - 1], k) + (if Kind(log[|log| - 1]) == k then 1 else 0)
  }

  /** The token of the most recent connection. */
  function LastToken(log: seq<Effect>): Option<Token> {
    if |log| == 0 then None
    else if log[|log| - 1].Connect? then Some(log[|log| - 1].password)
    else LastToken(log[..|log| - 1])
  }

  /** The base delays of the backoff waits, in order. */
  function Waits(log: seq<Effect>): seq<int> {
    if |log| == 0 then []
    else Waits(log[..|log| - 1]) + (if log[|log| - 1].BackoffWait? then [log[|log| - 1].seconds] else [])
  }

  /** The measurement values published as telemetry, in order. */
  function Published(log: seq<Effect>): seq<Value> {
    if |log| == 0 then []
    else
      var e := log[|log| - 1];
      Published(log[..|log| - 1])
        + (if e.PublishTelemetry? && "value" in e.payload then [e.payload["value"]] else [])
  }

  function Readings(values: seq<Measurement>): seq<Value> {
    if |values| == 0 then [] else Readings(values[..|values| - 1]) + [values[|values| - 1].value]
  }

  lemma ReadingsAppend(a: seq<Measurement>, v: Measurement)
    ensures Readings(a + [v]) == Readings(a) + [v.value]
  {
    assert (a + [v])[..|a|] == a;
  }

  lemma {:induction false} AppendLog(a: seq<Effect>, b: seq<Effect>)
    ensures forall k :: Count(a + b, k) == Count(a, k) + Count(b, k)
    ensures LastToken(a + b) == if LastToken(b).Some? then LastToken(b) else LastToken(a)
    ensures Waits(a + b) == Waits(a) + Waits(b)
    ensures Published(a + b) == Published(a) + Published(b)
    decreases |b|
  {
    if |b| == 0 {
      assert a + b == a;
    } else {
      assert (a + b)[..|a + b| - 1] == a + b[..|b| - 1];
      AppendLog(a, b[..|b| - 1]);
    }
  }

  // ---------------------------------------------------------------------
  // The shape of every transport call

  /** What each call to the transport looks like: the client's own topics and
      QoS levels, a token for the project that lasts 20 minutes, telemetry
      carrying exactly a timestamp and one of the measured values, and a
      backoff wait of at least 1 s, never above the maximum, with at most 1 s
      of jitter. */
  predicate EffectOk(st: Settings, values: seq<Measurement>, e: Effect) {
    match e
    case Connect(id, user, token) =>
      id == ClientId(st) && user == "unused"
      && token.aud == st.projectId && token.exp == token.iat + TokenLifetime
    case Subscribe(topic, qos) =>
      (topic == ConfigTopic(st) && qos == 1) || (topic == CommandTopic(st) && qos == 0)
    case PublishState(topic, payload, qos) =>
      topic == StateTopic(st) && qos == 1 && "enabled" in payload
    case PublishTelemetry(topic, payload, qos) =>
      && topic == EventsTopic(st) && qos == 1
      && payload.Keys == {"timestamp", "value"} && payload["timestamp"].VStr?
      && exists j :: 0 <= j < |values| && payload["value"] == values[j].value
    case BackoffWait(seconds, jitter) =>
      1 <= seconds <= st.maximumBackoffTime && 0 <= jitter <= 1000
    case _ => true
  }

  predicate LogOk(st: Settings, values: seq<Measurement>, log: seq<Effect>) {
    forall i :: 0 <= i < |log| ==> EffectOk(st, values, log[i])
  }

  /** What holds of the client throughout a run: the `enabled` key exists, the
      backoff minimum is positive, every call so far is well formed, and
      `jwt_iat` is the issue time of the token in use. */
  predicate Good(st: Settings, values: seq<Measurement>, m: Machine) {
    && "enabled" in m.state
    && m.minimumBackoffTime >= 1
    && LogOk(st, values, m.log)
    && LastToken(m.log) == Some(CreateJwt(st, m.jwtIat))
  }

  /** `random.randint(0, 1000)` */
  predicate JitterOk(ticks: seq<Tick>) {
    forall i :: 0 <= i < |ticks| ==> 0 <= ticks[i].jitterMillis <= 1000
  }

  /** The telemetry payload of a measurement, as `get_payload` builds it. */
  predicate TelemetryOk(values: seq<Measurement>, p: Json) {
    && p.Keys == {"timestamp", "value"} && p["timestamp"].VStr?
    && exists j :: 0 <= j < |values| && p["value"] == values[j].value
  }

  lemma GetPayloadOk(st: Settings, values: seq<Measurement>, i: nat, clock: string)
    requires i < |values| && GetPayload(st, values[i], clock).Some?
    ensures TelemetryOk(values, GetPayload(st, values[i], clock).value)
  {
    var p := GetPayload(st, values[i], clock).value;
    assert p["value"] == values[i].value;
  }

  // ---------------------------------------------------------------------
  // What each stage of the loop adds to the log

  lemma SingleFacts(e: Effect)
    ensures forall k :: Count([e], k) == if Kind(e) == k then 1 else 0
    ensures LastToken([e]) == if e.Connect? then Some(e.password) else None
    ensures Waits([e]) == if e.BackoffWait? then [e.seconds] else []
    ensures Published([e]) == if e.PublishTelemetry? && "value" in e.payload then [e.payload["value"]] else []
  {
    assert [e][..0] == [];
  }

  lemma PairFacts(e1: Effect, e2: Effect)
    ensures forall k :: Count([e1, e2], k) == Count([e1], k) + Count([e2], k)
    ensures LastToken([e1, e2]) == if e2.Connect? then Some(e2.password) else LastToken([e1])
    ensures Waits([e1, e2]) == Waits([e1]) + Waits([e2])
    ensures Published([e1, e2]) == Published([e1]) + Published([e2])
  {
    assert [e1, e2][..1] == [e1];
    SingleFacts(e2);
  }

  lemma ClientSetupFacts(st: Settings, now: int)
    ensures var s := ClientSetup(st, now);
      && LastToken(s) == Some(CreateJwt(st, now))
      && Count(s, KConnect) == 1 && Count(s, KPublishTelemetry) == 0
      && Count(s, KReconnect) == 0 && Count(s, KBackoffWait) == 0
      && Waits(s) == [] && Published(s) == []
  {
    var connect := Connect(ClientId(st), "unused", CreateJwt(st, now));
    var sub1 := Subscribe(ConfigTopic(st), 1);
    var sub2 := Subscribe(CommandTopic(st), 0);
    SingleFacts(connect);
    SingleFacts(sub1);
    SingleFacts(sub2);
    PairFacts(connect, sub1);
    var c := ClientSetup(st, now);
    assert c[..2] == [connect, sub1] && c[2] == sub2;
  }

  lemma SetupFacts(st: Settings, now: int)
    ensures var s := RefreshEffects(st, now);
      && LastToken(s) == Some(CreateJwt(st, now))
      && Count(s, KConnect) == 1 && Count(s, KPublishTelemetry) == 0
      && Count(s, KReconnect) == 0 && Count(s, KBackoffWait) == 0
      && Waits(s) == [] && Published(s) == []
  {
    var c := ClientSetup(st, now);
    var stop: seq<Effect> := [LoopStop, Disconnect];
    var head := stop + c;
    assert RefreshEffects(st, now) == head + [LoopStart];
    assert LastToken(head) == Some(CreateJwt(st, now))
        && Count(head, KConnect) == 1 && Count(head, KPublishTelemetry) == 0
        && Count(head, KReconnect) == 0 && Count(head, KBackoffWait) == 0
        && Waits(head) == [] && Published(head) == [] by {
      ClientSetupFacts(st, now);
      StopFacts();
      AppendLog(stop, c);
    }
    SingleFacts(LoopStart);
    AppendLog(head, [LoopStart]);
  }

  lemma StopFacts()
    ensures var stop := [LoopStop, Disconnect];
      && LastToken(stop) == None && Waits(stop) == [] && Published(stop) == []
      && Count(stop, KConnect) == 0 && Count(stop, KPublishTelemetry) == 0
      && Count(stop, KReconnect) == 0 && Count(stop, KBackoffWait) == 0
  {
    PairFacts(LoopStop, Disconnect);
    SingleFacts(LoopStop);
    SingleFacts(Disconnect);
  }

  lemma StartFacts(st: Settings, now: int)
    ensures LastToken(ClientSetup(st, now) + [LoopStart, Sleep(10)]) == Some(CreateJwt(st, now))
  {
    var c := ClientSetup(st, now);
    ClientSetupFacts(st, now);
    PairFacts(LoopStart, Sleep(10));
    SingleFacts(LoopStart);
    SingleFacts(Sleep(10));
    AppendLog(c, [LoopStart, Sleep(10)]);
  }

  lemma WaitBackoffFacts(st: Settings, values: seq<Measurement>, m: Machine, jitter: int)
    ensures var m2 := WaitBackoff(m, jitter);
      && m2.state == m.state && m2.shouldBackoff == m.shouldBackoff && m2.jwtIat == m.jwtIat
      && m2.minimumBackoffTime
         == (if m.shouldBackoff then 2 * m.minimumBackoffTime else m.minimumBackoffTime)
      && Waits(m2.log) == Waits(m.log) + (if m.shouldBackoff then [m.minimumBackoffTime] else [])
      && LastToken(m2.log) == LastToken(m.log)
      && Published(m2.log) == Published(m.log)
      && Count(m2.log, KConnect) == Count(m.log, KConnect)
      && Count(m2.log, KPublishTelemetry) == Count(m.log, KPublishTelemetry)
      && Count(m2.log, KReconnect) == Count(m.log, KReconnect) + (if m.shouldBackoff then 1 else 0)
      && (LogOk(st, values, m.log) && 0 <= jitter <= 1000
          && (m.shouldBackoff ==> 1 <= m.minimumBackoffTime <= st.maximumBackoffTime)
          ==> LogOk(st, values, m2.log))
  {
    if m.shouldBackoff {
      var w := [BackoffWait(m.minimumBackoffTime, jitter)];
      AppendLog(w, [Reconnect]);
      assert w + [Reconnect] == [BackoffWait(m.minimumBackoffTime, jitter), Reconnect];
      AppendLog(m.log, w + [Reconnect]);
    }
  }

  lemma RefreshTokenFacts(st: Settings, values: seq<Measurement>, m: Machine, now: int)
    ensures var m3 := RefreshToken(st, m, now);
      && m3.state == m.state && m3.shouldBackoff == m.shouldBackoff
      && m3.minimumBackoffTime == m.minimumBackoffTime
      && Waits(m3.log) == Waits(m.log) && Published(m3.log) == Published(m.log)
      && Count(m3.log, KPublishTelemetry) == Count(m.log, KPublishTelemetry)
      && Count(m3.log, KReconnect) == Count(m.log, KReconnect)
      && Count(m3.log, KBackoffWait) == Count(m.log, KBackoffWait)
      && (TokenStale(st, m.jwtIat, now) ==>
            && m3.jwtIat == now && LastToken(m3.log) == Some(CreateJwt(st, now))
            && Count(m3.log, KConnect) == Count(m.log, KConnect) + 1)
      && (!TokenStale(st, m.jwtIat, now) ==> m3 == m)
      && (LogOk(st, values, m.log) ==> LogOk(st, values, m3.log))
  {
    if TokenStale(st, m.jwtIat, now) {
      SetupFacts(st, now);
      AppendLog(m.log, RefreshEffects(st, now));
      if LogOk(st, values, m.log) {
        RefreshEffectsOk(st, values, now);
        LogOkAppend(st, values, m.log, RefreshEffects(st, now));
      }
    }
  }

  lemma RefreshEffectsOk(st: Settings, values: seq<Measurement>, now: int)
    ensures LogOk(st, values, RefreshEffects(st, now))
  {
  }

  lemma LogOkAppend(st: Settings, values: seq<Measurement>, a: seq<Effect>, b: seq<Effect>)
    requires LogOk(st, values, a) && LogOk(st, values, b)
    ensures LogOk(st, values, a + b)
  {
    forall i | 0 <= i < |a + b| ensures EffectOk(st, values, (a + b)[i]) {
      if i >= |a| { assert (a + b)[i] == b[i - |a|]; }
    }
  }

  lemma PublishFacts(st: Settings, values: seq<Measurement>, m: Machine, p: Json)
    ensures var m4 := Publish(st, m, p);
      && m4.state == m.state && m4.shouldBackoff == m.shouldBackoff
      && m4.minimumBackoffTime == m.minimumBackoffTime && m4.jwtIat == m.jwtIat
      && Waits(m4.log) == Waits(m.log) && LastToken(m4.log) == LastToken(m.log)
      && Published(m4.log) == Published(m.log) + (if "value" in p then [p["value"]] else [])
      && Count(m4.log, KPublishTelemetry) == Count(m.log, KPublishTelemetry) + 1
      && Count(m4.log, KConnect) == Count(m.log, KConnect)
      && Count(m4.log, KReconnect) == Count(m.log, KReconnect)
      && (LogOk(st, values, m.log) && TelemetryOk(values, p) ==> LogOk(st, values, m4.log))
  {
    var e := PublishTelemetry(EventsTopic(st), p, 1);
    AppendLog([e], [Sleep(60)]);
    assert [e] + [Sleep(60)] == [e, Sleep(60)];
    AppendLog(m.log, [e, Sleep(60)]);
  }

  lemma AppendOneFacts(st: Settings, values: seq<Measurement>, log: seq<Effect>, e: Effect)
    requires e == GiveUp || e == LoopStop
    ensures Waits(log + [e]) == Waits(log) && LastToken(log + [e]) == LastToken(log)
    ensures Published(log + [e]) == Published(log)
    ensures forall k :: k != Kind(e) ==> Count(log + [e], k) == Count(log, k)
    ensures LogOk(st, values, log) ==> LogOk(st, values, log + [e])
  {
    AppendLog(log, [e]);
  }

  lemma ApplyCallbackGood(st: Settings, values: seq<Measurement>, m: Machine, cb: Callback)
    requires Good(st, values, m)
    ensures Good(st, values, ApplyCallback(st, m, cb))
  {
    if cb.OnConfig? && cb.payload.JsonObject? {
      var s := Merged(m.state, cb.payload.fields);
      AppendLog(m.log, [PublishState(StateTopic(st), s, 1)]);
    }
  }

  lemma {:induction false} ApplyCallbacksGood(st: Settings, values: seq<Measurement>, m: Machine, cbs: seq<Callback>)
    requires Good(st, values, m)
    ensures Good(st, values, ApplyCallbacks(st, m, cbs))
    decreases |cbs|
  {
    if |cbs| > 0 {
      ApplyCallbacksGood(st, values, m, cbs[..|cbs| - 1]);
      ApplyCallbackGood(st, values, ApplyCallbacks(st, m, cbs[..|cbs| - 1]), cbs[|cbs| - 1]);
    }
  }

  lemma ForStepGood(st: Settings, values: seq<Measurement>, i: nat, m: Machine, t: Tick)
    requires i < |values| && Good(st, values, m) && 0 <= t.jitterMillis <= 1000
    ensures Good(st, values, ForStep(st, values, i, m, t).0)
  {
    if !Enabled(m.state) {
    } else if GivenUp(st, m) {
      AppendOneFacts(st, values, m.log, GiveUp);
    } else {
      var m2 := WaitBackoff(m, t.jitterMillis);
      WaitBackoffFacts(st, values, m, t.jitterMillis);
      var p := GetPayload(st, values[i], t.clock);
      if p.Some? {
        GetPayloadOk(st, values, i, t.clock);
        var m3 := RefreshToken(st, m2, t.now);
        RefreshTokenFacts(st, values, m2, t.now);
        PublishFacts(st, values, m3, p.value);
      }
    }
  }

  lemma StepGood(st: Settings, values: seq<Measurement>, m: Machine, pc: Pc, t: Tick)
    requires Good(st, values, m) && 0 <= t.jitterMillis <= 1000
    ensures Good(st, values, Step(st, values, m, pc, t).0)
  {
    if pc.AtWhile? || pc.AtFor? {
      var m1 := ApplyCallbacks(st, m, t.callbacks);
      ApplyCallbacksGood(st, values, m, t.callbacks);
      AppendOneFacts(st, values, m1.log, LoopStop);
      if pc.AtFor? && pc.i < |values| {
        ForStepGood(st, values, pc.i, m1, t);
      }
    }
  }

  lemma {:induction false} ExecGood(st: Settings, values: seq<Measurement>, m: Machine, pc: Pc, ticks: seq<Tick>)
    requires Good(st, values, m) && JitterOk(ticks)
    ensures Good(st, values, Exec(st, values, m, pc, ticks).0)
    decreases |ticks|
  {
    if |ticks| > 0 {
      var prefix := ticks[..|ticks| - 1];
      ExecGood(st, values, m, pc, prefix);
      var r := Exec(st, values, m, pc, prefix);
      StepGood(st, values, r.0, r.1, ticks[|ticks| - 1]);
    }
  }

  /** Over a whole run every transport call is well formed, and the refresh
      test always measures from the issue time of the token in use. */
  lemma RunGood(st: Settings, values: seq<Measurement>, m: Machine, start: int, env: seq<Tick>)
    requires "enabled" in m.state && m.minimumBackoffTime >= 1 && LogOk(st, values, m.log)
    requires JitterOk(env)
    ensures Good(st, values, RunSpec(st, values, m, start, env).0)
  {
    var setup := ClientSetup(st, start) + [LoopStart, Sleep(10)];
    StartFacts(st, start);
    AppendLog(m.log, setup);
    assert forall j :: 0 <= j < |setup| ==> EffectOk(st, values, setup[j]);
    assert Start(st, m, start).log == m.log + setup;
    ExecGood(st, values, Start(st, m, start), AtWhile, env);
  }

  // ---------------------------------------------------------------------
  // Callbacks that the environment may withhold

  predicate NoConfigCallbacks(cbs: seq<Callback>) {
    forall j :: 0 <= j < |cbs| ==> !cbs[j].OnConfig?
  }

  predicate NoConnectCallbacks(cbs: seq<Callback>) {
    forall j :: 0 <= j < |cbs| ==> !cbs[j].OnConnect?
  }

  predicate NoConfig(ticks: seq<Tick>) {
    forall i :: 0 <= i < |ticks| ==> NoConfigCallbacks(ticks[i].callbacks)
  }

  predicate NoConnect(ticks: seq<Tick>) {
    forall i :: 0 <= i < |ticks| ==> NoConnectCallbacks(ticks[i].callbacks)
  }

  lemma {:induction false} CallbacksWithoutConfig(st: Settings, m: Machine, cbs: seq<Callback>)
    requires NoConfigCallbacks(cbs)
    ensures var r := ApplyCallbacks(st, m, cbs);
      r.state == m.state && r.log == m.log && r.jwtIat == m.jwtIat
    decreases |cbs|
  {
    if |cbs| > 0 {
      CallbacksWithoutConfig(st, m, cbs[..|cbs| - 1]);
    }
  }

  /** Without `on_connect`, callbacks leave the backoff minimum alone, never
      clear a pending backoff, and only publish state. */
  lemma {:induction false} CallbacksWithoutConnect(st: Settings, m: Machine, cbs: seq<Callback>)
    requires NoConnectCallbacks(cbs)
    ensures var r := ApplyCallbacks(st, m, cbs);
      && r.minimumBackoffTime == m.minimumBackoffTime
      && (m.shouldBackoff ==> r.shouldBackoff)
      && r.jwtIat == m.jwtIat
      && (forall k :: k != KPublishState ==> Count(r.log, k) == Count(m.log, k))
      && Waits(r.log) == Waits(m.log)
    decreases |cbs|
  {
    if |cbs| > 0 {
      CallbacksWithoutConnect(st, m, cbs[..|cbs| - 1]);
      var r := ApplyCallbacks(st, m, cbs[..|cbs| - 1]);
      if cbs[|cbs| - 1].OnConfig? && cbs[|cbs| - 1].payload.JsonObject? {
        var s := Merged(r.state, cbs[|cbs| - 1].payload.fields);
        AppendLog(r.log, [PublishState(StateTopic(st), s, 1)]);
      }
    }
  }

  // ---------------------------------------------------------------------
  // Stopping

  /** A config message whose `enabled` is falsy disables the device. */
  lemma DisablingConfig(st: Settings, m: Machine, config: Json)
    requires "enabled" in config && !Truthy(config["enabled"])
    ensures !Enabled(ApplyCallback(st, m, OnConfig(JsonObject(config))).state)
  {
  }

  /** Once the state is disabled, and no config message enables it again, the
      loop publishes nothing more: the only call left is `loop_stop`. It ends
      `Stopped` at the next check of the `while` condition, so within two
      ticks. */
  lemma {:induction false} DisabledStops(st: Settings, values: seq<Measurement>, m: Machine, pc: Pc, ticks: seq<Tick>)
    requires !Enabled(m.state) && !Halted(pc) && NoConfig(ticks)
    ensures var r := Exec(st, values, m, pc, ticks);
      && r.0.state == m.state
      && r.1 != Raised
      && (r.1 == Stopped <==> r.0.log == m.log + [LoopStop])
      && (r.1 != Stopped <==> r.0.log == m.log)
      && (|ticks| >= 1 ==> r.1 == AtWhile || r.1 == Stopped)
      && (|ticks| >= 1 && pc == AtWhile ==> r.1 == Stopped)
      && (|ticks| >= 2 ==> r.1 == Stopped)
    decreases |ticks|
  {
    if |ticks| > 0 {
      var prefix := ticks[..|ticks| - 1];
      var t := ticks[|ticks| - 1];
      DisabledStops(st, values, m, pc, prefix);
      var r := Exec(st, values, m, pc, prefix);
      CallbacksWithoutConfig(st, r.0, t.callbacks);
      assert m.log + [LoopStop] != m.log;
    }
  }

  // ---------------------------------------------------------------------
  // Backoff

  function Pow2(n: nat): (r: nat)
    ensures r >= 1
  {
    if n == 0 then 1 else 2 * Pow2(n - 1)
  }

  /** The waits `[b, 2b, 4b, ...]` of `n` reconnect attempts from base `b`. */
  function Schedule(b: int, n: nat): (r: seq<int>)
    ensures |r| == n
  {
    if n == 0 then [] else Schedule(b, n - 1) + [b * Pow2(n - 1)]
  }

  lemma {:induction false} ScheduleAt(b: int, n: nat, j: nat)
    requires j < n
    ensures Schedule(b, n)[j] == b * Pow2(j)
    decreases n
  {
    if j < n - 1 {
      ScheduleAt(b, n - 1, j);
    }
  }

  lemma StepGivenUp(st: Settings, values: seq<Measurement>, m: Machine, pc: Pc, t: Tick)
    requires GivenUp(st, m) && pc != Raised && NoConnectCallbacks(t.callbacks)
    ensures var r := Step(st, values, m, pc, t);
      && GivenUp(st, r.0) && r.0.minimumBackoffTime == m.minimumBackoffTime
      && r.0.jwtIat == m.jwtIat && r.1 != Raised
      && Count(r.0.log, KPublishTelemetry) == Count(m.log, KPublishTelemetry)
      && Count(r.0.log, KConnect) == Count(m.log, KConnect)
      && Count(r.0.log, KReconnect) == Count(m.log, KReconnect)
      && Count(r.0.log, KBackoffWait) == Count(m.log, KBackoffWait)
  {
    if pc.AtWhile? || pc.AtFor? {
      var m1 := ApplyCallbacks(st, m, t.callbacks);
      CallbacksWithoutConnect(st, m, t.callbacks);
      var r := Step(st, values, m, pc, t);
      if pc.AtWhile? {
        assert r == WhileStep(values, m1);
        if !Enabled(m1.state) {
          assert r.0 == m1.(log := m1.log + [LoopStop]);
          QuietAppend(st, m, m1, LoopStop);
        }
      } else if pc.i < |values| {
        assert r == ForStep(st, values, pc.i, m1, t);
        if Enabled(m1.state) {
          assert r.0 == m1.(log := m1.log + [GiveUp]);
          QuietAppend(st, m, m1, GiveUp);
        }
      }
    }
  }

  /** Logging a stop or the give-up warning keeps a given-up machine
      quiet. */
  lemma QuietAppend(st: Settings, m: Machine, m1: Machine, e: Effect)
    requires e == GiveUp || e == LoopStop
    requires GivenUp(st, m1) && m1.minimumBackoffTime == m.minimumBackoffTime && m1.jwtIat == m.jwtIat
    requires forall k :: k != KPublishState ==> Count(m1.log, k) == Count(m.log, k)
    ensures var r := m1.(log := m1.log + [e]);
      && GivenUp(st, r) && r.minimumBackoffTime == m.minimumBackoffTime && r.jwtIat == m.jwtIat
      && Count(r.log, KPublishTelemetry) == Count(m.log, KPublishTelemetry)
      && Count(r.log, KConnect) == Count(m.log, KConnect)
      && Count(r.log, KReconnect) == Count(m.log, KReconnect)
      && Count(r.log, KBackoffWait) == Count(m.log, KBackoffWait)
  {
    SingleFacts(e);
    AppendLog(m1.log, [e]);
  }

  /** Once `should_backoff` is set and the minimum exceeds the maximum, and the
      network thread does not report a new connection, the loop stays in
      place: it neither waits, reconnects, connects nor publishes telemetry,
      and never raises. It does not end either: each tick logs the warning
      again. */
  lemma {:induction false} GivenUpStaysSilent(st: Settings, values: seq<Measurement>, m: Machine, pc: Pc, ticks: seq<Tick>)
    requires GivenUp(st, m) && pc != Raised && NoConnect(ticks)
    ensures var r := Exec(st, values, m, pc, ticks);
      && GivenUp(st, r.0) && r.0.minimumBackoffTime == m.minimumBackoffTime
      && r.0.jwtIat == m.jwtIat && r.1 != Raised
      && Count(r.0.log, KPublishTelemetry) == Count(m.log, KPublishTelemetry)
      && Count(r.0.log, KConnect) == Count(m.log, KConnect)
      && Count(r.0.log, KReconnect) == Count(m.log, KReconnect)
      && Count(r.0.log, KBackoffWait) == Count(m.log, KBackoffWait)
    decreases |ticks|
  {
    if |ticks| > 0 {
      var prefix := ticks[..|ticks| - 1];
      GivenUpStaysSilent(st, values, m, pc, prefix);
      var r := Exec(st, values, m, pc, prefix);
      StepGivenUp(st, values, r.0, r.1, ticks[|ticks| - 1]);
    }
  }

  /** One pass of the `for` body waits exactly when the device is enabled,
      a backoff is pending and its minimum is within the maximum: it then
      waits the current minimum, doubles it and calls `reconnect()` right
      after the wait. Otherwise it neither waits, nor reconnects, nor moves
      the minimum. */
  lemma ForStepBackoff(st: Settings, values: seq<Measurement>, i: nat, m: Machine, t: Tick)
    requires i < |values|
    ensures var r := ForStep(st, values, i, m, t);
      if Enabled(m.state) && m.shouldBackoff && !GivenUp(st, m) then
        && Waits(r.0.log) == Waits(m.log) + [m.minimumBackoffTime]
        && r.0.minimumBackoffTime == 2 * m.minimumBackoffTime
        && Count(r.0.log, KReconnect) == Count(m.log, KReconnect) + 1
        && Prefix(m.log + [BackoffWait(m.minimumBackoffTime, t.jitterMillis), Reconnect], r.0.log)
      else
        && Waits(r.0.log) == Waits(m.log)
        && r.0.minimumBackoffTime == m.minimumBackoffTime
        && Count(r.0.log, KReconnect) == Count(m.log, KReconnect)
  {
    if !Enabled(m.state) {
    } else if GivenUp(st, m) {
      AppendOneFacts(st, values, m.log, GiveUp);
    } else {
      var m2 := WaitBackoff(m, t.jitterMillis);
      WaitBackoffFacts(st, values, m, t.jitterMillis);
      var p := GetPayload(st, values[i], t.clock);
      if p.Some? {
        AfterWaitFacts(st, values, m2, t.now, p.value);
      } else {
        PrefixSelf(m2.log);
      }
    }
  }

  /** `a` is where `b` starts. */
  predicate Prefix(a: seq<Effect>, b: seq<Effect>) {
    |a| <= |b| && b[..|a|] == a
  }

  lemma PrefixSelf(a: seq<Effect>)
    ensures Prefix(a, a)
  {
  }

  /** After the wait, the refresh and the publish only append to the log,
      and neither waits, reconnects nor moves the minimum. */
  lemma AfterWaitFacts(st: Settings, values: seq<Measurement>, m2: Machine, now: int, p: Json)
    ensures var m4 := Publish(st, RefreshToken(st, m2, now), p);
      && Waits(m4.log) == Waits(m2.log)
      && m4.minimumBackoffTime == m2.minimumBackoffTime
      && Count(m4.log, KReconnect) == Count(m2.log, KReconnect)
      && Prefix(m2.log, m4.log)
  {
    var m3 := RefreshToken(st, m2, now);
    RefreshTokenFacts(st, values, m2, now);
    PublishFacts(st, values, m3, p);
    AfterWaitAppends(st, m2, now, p);
  }

  lemma AfterWaitAppends(st: Settings, m2: Machine, now: int, p: Json)
    ensures Prefix(m2.log, Publish(st, RefreshToken(st, m2, now), p).log)
  {
    var m3 := RefreshToken(st, m2, now);
    var m4 := Publish(st, m3, p);
    assert m4.log[..|m3.log|] == m3.log;
    assert m3.log[..|m2.log|] == m2.log;
    assert m4.log[..|m2.log|] == m4.log[..|m3.log|][..|m2.log|];
  }

  /** The same for one check of the flag, the tick's callbacks delivered
      first: without `on_connect` among them, a step waits, doubles the
      minimum and reconnects exactly when it handles a measurement with the
      device enabled and a backoff pending within the maximum. */
  lemma StepBackoff(st: Settings, values: seq<Measurement>, m: Machine, pc: Pc, t: Tick)
    requires NoConnectCallbacks(t.callbacks)
    ensures var m1, r := ApplyCallbacks(st, m, t.callbacks), Step(st, values, m, pc, t);
      if pc.AtFor? && pc.i < |values| && Enabled(m1.state) && m1.shouldBackoff && !GivenUp(st, m1) then
        && Waits(r.0.log) == Waits(m.log) + [m.minimumBackoffTime]
        && r.0.minimumBackoffTime == 2 * m.minimumBackoffTime
        && Count(r.0.log, KReconnect) == Count(m.log, KReconnect) + 1
      else
        && Waits(r.0.log) == Waits(m.log)
        && r.0.minimumBackoffTime == m.minimumBackoffTime
        && Count(r.0.log, KReconnect) == Count(m.log, KReconnect)
  {
    if pc.AtWhile? || pc.AtFor? {
      var m1 := ApplyCallbacks(st, m, t.callbacks);
      CallbacksWithoutConnect(st, m, t.callbacks);
      AppendOneFacts(st, values, m1.log, LoopStop);
      if pc.AtFor? && pc.i < |values| {
        ForStepBackoff(st, values, pc.i, m1, t);
      }
    }
  }

  lemma DoubleStep(b: int, n: nat)
    ensures Schedule(b, n + 1) == Schedule(b, n) + [b * Pow2(n)]
    ensures 2 * (b * Pow2(n)) == b * Pow2(n + 1)
  {
  }

  lemma {:induction false} BackoffSchedule(st: Settings, values: seq<Measurement>, m: Machine, pc: Pc, ticks: seq<Tick>)
    returns (n: nat)
    requires NoConnect(ticks)
    ensures var r := Exec(st, values, m, pc, ticks);
      && Waits(r.0.log) == Waits(m.log) + Schedule(m.minimumBackoffTime, n)
      && r.0.minimumBackoffTime == m.minimumBackoffTime * Pow2(n)
    decreases |ticks|
  {
    var b := m.minimumBackoffTime;
    if |ticks| == 0 {
      n := 0;
      assert Waits(m.log) == Waits(m.log) + Schedule(b, 0);
    } else {
      var prefix := ticks[..|ticks| - 1];
      var k := BackoffSchedule(st, values, m, pc, prefix);
      var r := Exec(st, values, m, pc, prefix);
      var r2 := Step(st, values, r.0, r.1, ticks[|ticks| - 1]);
      assert || (Waits(r2.0.log) == Waits(r.0.log) && r2.0.minimumBackoffTime == r.0.minimumBackoffTime)
             || (Waits(r2.0.log) == Waits(r.0.log) + [r.0.minimumBackoffTime]
                 && r2.0.minimumBackoffTime == 2 * r.0.minimumBackoffTime) by {
        StepBackoff(st, values, r.0, r.1, ticks[|ticks| - 1]);
      }
      if Waits(r2.0.log) == Waits(r.0.log) && r2.0.minimumBackoffTime == r.0.minimumBackoffTime {
        n := k;
      } else {
        ScheduleExtend(Waits(m.log), Waits(r.0.log), Waits(r2.0.log), b, k,
                       r.0.minimumBackoffTime, r2.0.minimumBackoffTime);
        n := k + 1;
      }
    }
  }

  /** One more doubling wait extends the schedule by one entry. */
  lemma ScheduleExtend(w0: seq<int>, w: seq<int>, w2: seq<int>, b: int, k: nat, mn: int, mn2: int)
    requires w == w0 + Schedule(b, k) && mn == b * Pow2(k)
    requires w2 == w + [mn] && mn2 == 2 * mn
    ensures w2 == w0 + Schedule(b, k + 1) && mn2 == b * Pow2(k + 1)
  {
    DoubleStep(b, k);
  }

  /** Without `on_connect`, the reconnect waits double from the current
      minimum: `[min, 2 min, 4 min, ...]`, and the minimum ends doubled once
      per wait. */
  lemma BackoffDoubles(st: Settings, values: seq<Measurement>, m: Machine, pc: Pc, ticks: seq<Tick>)
    requires NoConnect(ticks)
    ensures var r := Exec(st, values, m, pc, ticks);
      exists n: nat :: Waits(r.0.log) == Waits(m.log) + Schedule(m.minimumBackoffTime, n)
                       && r.0.minimumBackoffTime == m.minimumBackoffTime * Pow2(n)
  {
    var n := BackoffSchedule(st, values, m, pc, ticks);
  }

  lemma WaitsBounded(st: Settings, values: seq<Measurement>, log: seq<Effect>)
    requires LogOk(st, values, log)
    ensures forall j :: 0 <= j < |Waits(log)| ==> Waits(log)[j] <= st.maximumBackoffTime
    decreases |log|
  {
    if |log| > 0 {
      WaitsBounded(st, values, log[..|log| - 1]);
    }
  }

  /** With the default maximum of 32 s and the minimum reset to 1 s, at most
      six reconnect waits (1, 2, 4, 8, 16 and 32 s) happen before the client
      gives up, unless the connection is re-established. */
  lemma ScheduleWithin(pre: seq<int>, w: seq<int>, b: int, n: nat, max: int)
    requires w == pre + Schedule(b, n)
    requires forall j :: 0 <= j < |w| ==> w[j] <= max
    ensures forall j :: 0 <= j < n ==> b * Pow2(j) <= max
  {
    forall j | 0 <= j < n
      ensures b * Pow2(j) <= max
    {
      ScheduleAt(b, n, j);
      assert w[|pre| + j] == Schedule(b, n)[j];
    }
  }

  lemma Pow2Six()
    ensures Pow2(6) == 64
  {
  }

  /** With the default maximum of 32 s and the minimum reset to 1 s, at most
      six reconnect waits (1, 2, 4, 8, 16 and 32 s) happen before the client
      gives up, unless the connection is re-established. */
  lemma DefaultBackoffAtMostSixWaits(st: Settings, values: seq<Measurement>, m: Machine, pc: Pc, ticks: seq<Tick>)
    requires st.maximumBackoffTime == 32 && m.minimumBackoffTime == 1
    requires Good(st, values, m) && JitterOk(ticks) && NoConnect(ticks)
    ensures |Waits(Exec(st, values, m, pc, ticks).0.log)| <= |Waits(m.log)| + 6
  {
    var r := Exec(st, values, m, pc, ticks);
    var n := BackoffSchedule(st, values, m, pc, ticks);
    ExecGood(st, values, m, pc, ticks);
    WaitsBounded(st, values, r.0.log);
    ScheduleWithin(Waits(m.log), Waits(r.0.log), 1, n, 32);
    if n > 6 {
      Pow2Six();
      assert false;
    }
  }

  // ---------------------------------------------------------------------
  // Token refresh

  lemma StepNoRefresh(st: Settings, values: seq<Measurement>, m: Machine, pc: Pc, t: Tick)
    requires st.jwtExpiresMinutes >= 24 * 60
    ensures var r := Step(st, values, m, pc, t);
      r.0.jwtIat == m.jwtIat && Count(r.0.log, KConnect) == Count(m.log, KConnect)
  {
    if pc.AtWhile? || (pc.AtFor? && pc.i < |values|) {
      var m1 := ApplyCallbacks(st, m, t.callbacks);
      CallbacksKeepConnects(st, m, t.callbacks);
      if pc.AtWhile? {
        AppendOneFacts(st, values, m1.log, LoopStop);
      } else {
        ForStepNoRefresh(st, values, pc.i, m1, t);
      }
    }
  }

  lemma ForStepNoRefresh(st: Settings, values: seq<Measurement>, i: nat, m: Machine, t: Tick)
    requires st.jwtExpiresMinutes >= 24 * 60 && i < |values|
    ensures var r := ForStep(st, values, i, m, t);
      r.0.jwtIat == m.jwtIat && Count(r.0.log, KConnect) == Count(m.log, KConnect)
  {
    if !Enabled(m.state) {
    } else if GivenUp(st, m) {
      AppendOneFacts(st, values, m.log, GiveUp);
    } else {
      var m2 := WaitBackoff(m, t.jitterMillis);
      assert m2.jwtIat == m.jwtIat && Count(m2.log, KConnect) == Count(m.log, KConnect) by {
        WaitBackoffFacts(st, values, m, t.jitterMillis);
      }
      NeverStale(st, m2.jwtIat, t.now);
      var p := GetPayload(st, values[i], t.clock);
      if p.Some? {
        PublishFacts(st, values, m2, p.value);
      }
    }
  }

  /** One pass of the `for` body that gets as far as publishing renews the
      token exactly when the seconds part of its age exceeds the expiry:
      it then connects once more, with a token issued now, and resets
      `jwt_iat`, so the value goes out on the new connection. Otherwise, and
      in a pass that stops earlier, the connection and `jwt_iat` stay. */
  lemma ForStepRefresh(st: Settings, values: seq<Measurement>, i: nat, m: Machine, t: Tick)
    requires i < |values|
    ensures var r := ForStep(st, values, i, m, t);
      if Enabled(m.state) && !GivenUp(st, m) && GetPayload(st, values[i], t.clock).Some?
         && TokenStale(st, m.jwtIat, t.now)
      then
        && r.0.jwtIat == t.now
        && LastToken(r.0.log) == Some(CreateJwt(st, t.now))
        && Count(r.0.log, KConnect) == Count(m.log, KConnect) + 1
      else
        && r.0.jwtIat == m.jwtIat
        && Count(r.0.log, KConnect) == Count(m.log, KConnect)
  {
    if !Enabled(m.state) {
    } else if GivenUp(st, m) {
      AppendOneFacts(st, values, m.log, GiveUp);
    } else {
      var m2 := WaitBackoff(m, t.jitterMillis);
      assert m2.jwtIat == m.jwtIat && Count(m2.log, KConnect) == Count(m.log, KConnect) by {
        WaitBackoffFacts(st, values, m, t.jitterMillis);
      }
      var p := GetPayload(st, values[i], t.clock);
      if p.Some? {
        RefreshThenPublish(st, values, m2, t.now, p.value);
      }
    }
  }

  /** The refresh and publish of one pass, as far as the token goes. */
  lemma RefreshThenPublish(st: Settings, values: seq<Measurement>, m2: Machine, now: int, p: Json)
    ensures var m4 := Publish(st, RefreshToken(st, m2, now), p);
      if TokenStale(st, m2.jwtIat, now) then
        && m4.jwtIat == now
        && LastToken(m4.log) == Some(CreateJwt(st, now))
        && Count(m4.log, KConnect) == Count(m2.log, KConnect) + 1
      else
        && m4.jwtIat == m2.jwtIat
        && Count(m4.log, KConnect) == Count(m2.log, KConnect)
  {
    RefreshTokenFacts(st, values, m2, now);
    PublishFacts(st, values, RefreshToken(st, m2, now), p);
  }

  /** The seconds part of a time difference stays below a day. */
  lemma NeverStale(st: Settings, iat: int, now: int)
    requires st.jwtExpiresMinutes >= 24 * 60
    ensures !TokenStale(st, iat, now)
  {
  }

  /** `timedelta.seconds` never reaches a day, so with an expiry of a day or
      more the token is never refreshed. */
  lemma {:induction false} LongExpiryNeverRefreshes(st: Settings, values: seq<Measurement>, m: Machine, pc: Pc, ticks: seq<Tick>)
    requires st.jwtExpiresMinutes >= 24 * 60
    ensures var r := Exec(st, values, m, pc, ticks);
      r.0.jwtIat == m.jwtIat && Count(r.0.log, KConnect) == Count(m.log, KConnect)
    decreases |ticks|
  {
    if |ticks| > 0 {
      var prefix := ticks[..|ticks| - 1];
      LongExpiryNeverRefreshes(st, values, m, pc, prefix);
      var r := Exec(st, values, m, pc, prefix);
      StepNoRefresh(st, values, r.0, r.1, ticks[|ticks| - 1]);
    }
  }

  lemma {:induction false} CallbacksKeepConnects(st: Settings, m: Machine, cbs: seq<Callback>)
    ensures var r := ApplyCallbacks(st, m, cbs);
      r.jwtIat == m.jwtIat && Count(r.log, KConnect) == Count(m.log, KConnect)
    decreases |cbs|
  {
    if |cbs| > 0 {
      CallbacksKeepConnects(st, m, cbs[..|cbs| - 1]);
      var r := ApplyCallbacks(st, m, cbs[..|cbs| - 1]);
      if cbs[|cbs| - 1].OnConfig? && cbs[|cbs| - 1].payload.JsonObject? {
        var s := Merged(r.state, cbs[|cbs| - 1].payload.fields);
        AppendLog(r.log, [PublishState(StateTopic(st), s, 1)]);
      }
    }
  }

  // ---------------------------------------------------------------------
  // Publishing

  predicate Publishable(st: Settings, v: Measurement) {
    !st.useInputTimestamp || RewriteTimestamp(v.timestamp).Some?
  }

  predicate Quiet(ticks: seq<Tick>) {
    forall i :: 0 <= i < |ticks| ==> ticks[i].callbacks == []
  }

  lemma StepPublishes(st: Settings, values: seq<Measurement>, m: Machine, i: nat, t: Tick)
    requires i < |values| && Enabled(m.state) && !m.shouldBackoff && t.callbacks == []
    requires Publishable(st, values[i])
    ensures var r := Step(st, values, m, AtFor(i), t);
      && r.0.state == m.state && !r.0.shouldBackoff
      && Published(r.0.log) == Published(m.log) + [values[i].value]
      && Count(r.0.log, KPublishTelemetry) == Count(m.log, KPublishTelemetry) + 1
      && r.1 == if i + 1 < |values| then AtFor(i + 1) else AtWhile
  {
    assert ApplyCallbacks(st, m, t.callbacks) == m;
    assert WaitBackoff(m, t.jitterMillis) == m;
    var p := GetPayload(st, values[i], t.clock);
    RefreshTokenFacts(st, values, m, t.now);
    PublishFacts(st, values, RefreshToken(st, m, t.now), p.value);
  }

  lemma ReadingsSnoc(values: seq<Measurement>, i: nat, j: nat)
    requires i <= j < |values|
    ensures Readings(values[i..j + 1]) == Readings(values[i..j]) + [values[j].value]
  {
    assert values[i..j + 1] == values[i..j] + [values[j]];
    ReadingsAppend(values[i..j], values[j]);
  }

  /** After `n` ticks from measurement `i`, machine `r` still has the
      state of `m`, no pending backoff, has published the values of
      measurements `i .. i + n - 1` in order, one telemetry message each,
      and is at the next measurement or back at the `while` test. */
  ghost predicate PublishedAfter(st: Settings, values: seq<Measurement>, m: Machine, i: nat, n: nat, r: (Machine, Pc))
    requires i + n <= |values|
  {
    && r.0.state == m.state && !r.0.shouldBackoff
    && Published(r.0.log) == Published(m.log) + Readings(values[i..i + n])
    && Count(r.0.log, KPublishTelemetry) == Count(m.log, KPublishTelemetry) + n
    && r.1 == if n == 0 then AtFor(i) else if i + n < |values| then AtFor(i + n) else AtWhile
  }

  /** While the device stays enabled and connected, every tick inside the
      `for` loop publishes the next measurement's value, in order: after `j`
      ticks from measurement `i`, the values of measurements `i .. i + j - 1`
      have been published, one telemetry message each. */
  lemma {:induction false} PublishesInOrder(st: Settings, values: seq<Measurement>, m: Machine, i: nat, ticks: seq<Tick>)
    requires i + |ticks| <= |values| && Enabled(m.state) && !m.shouldBackoff && Quiet(ticks)
    requires forall k :: i <= k < |values| ==> Publishable(st, values[k])
    ensures PublishedAfter(st, values, m, i, |ticks|, Exec(st, values, m, AtFor(i), ticks))
    decreases |ticks|
  {
    if |ticks| == 0 {
      assert values[i..i] == [];
    } else {
      var n := |ticks|;
      assert Quiet(ticks[..n - 1]);
      PublishesInOrder(st, values, m, i, ticks[..n - 1]);
      var r := Exec(st, values, m, AtFor(i), ticks[..n - 1]);
      assert Exec(st, values, m, AtFor(i), ticks) == Step(st, values, r.0, r.1, ticks[n - 1]);
      PublishStepAfter(st, values, m, i, n, r.0, r.1, ticks[n - 1]);
    }
  }

  /** One more quiet tick publishes one more value. */
  lemma PublishStepAfter(st: Settings, values: seq<Measurement>, m: Machine, i: nat, n: nat, m1: Machine, pc: Pc, t: Tick)
    requires 0 < n && i + n <= |values| && Enabled(m.state) && t.callbacks == []
    requires Publishable(st, values[i + n - 1])
    requires PublishedAfter(st, values, m, i, n - 1, (m1, pc))
    ensures PublishedAfter(st, values, m, i, n, Step(st, values, m1, pc, t))
  {
    assert pc == AtFor(i + n - 1);
    StepPublishes(st, values, m1, i + n - 1, t);
    var r := Step(st, values, m1, AtFor(i + n - 1), t);
    PublishedCombine(values, i, n, m, m1, r.0);
  }

  /** The published values and telemetry count after `n - 1` ticks and
      after one tick more. */
  lemma PublishedCombine(values: seq<Measurement>, i: nat, n: nat, m: Machine, m1: Machine, m2: Machine)
    requires 0 < n && i + n <= |values|
    requires Published(m1.log) == Published(m.log) + Readings(values[i..i + n - 1])
    requires Count(m1.log, KPublishTelemetry) == Count(m.log, KPublishTelemetry) + n - 1
    requires Published(m2.log) == Published(m1.log) + [values[i + n - 1].value]
    requires Count(m2.log, KPublishTelemetry) == Count(m1.log, KPublishTelemetry) + 1
    ensures Published(m2.log) == Published(m.log) + Readings(values[i..i + n])
    ensures Count(m2.log, KPublishTelemetry) == Count(m.log, KPublishTelemetry) + n
  {
    var j := i + n - 1;
    ReadingsSnoc(values, i, j);
    assert j + 1 == i + n;
    AppendAfter(Published(m2.log), Published(m1.log), Published(m.log), Readings(values[i..j]), values[j].value, Readings(values[i..i + n]));
  }

  /** Appending to a log that extends `before` by `read` extends `before`
      by `read` and the appended value. */
  lemma AppendAfter(after: seq<Value>, mid: seq<Value>, before: seq<Value>, read: seq<Value>, last: Value, whole: seq<Value>)
    requires mid == before + read && after == mid + [last] && whole == read + [last]
    ensures after == before + whole
  {
  }
}
