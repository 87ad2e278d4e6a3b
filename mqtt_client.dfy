/** The device telemetry client of platform/iot/mqtt_client/client.py.

    The object keeps the device state, the reconnect backoff and the time the
    current token was issued. The paho callbacks are methods that change
    them. `Run` is `mqtt_device_run`: the outer `while` over the `enabled`
    flag and the inner `for` over the measurements.

    The paho network thread is not modelled as a thread. The environment is a
    sequence of `Tick`s, and each check of `state['enabled']` consumes one. A
    tick carries the callbacks the network thread delivered since the
    previous check, the clock reading, the formatted clock text and the
    random jitter. The run ends when it stops, when it raises, or when the
    environment has no more ticks.

    Transport calls are recorded as `Effect`s appended to `log`. `Run` is
    proved to produce exactly the state that the pure fold `Exec` over the
    ticks produces; the properties of the loop are lemmas about `Exec`
    (module MqttClientProperties). */
module MqttClient {
  import opened Common
  import opened MqttTimestamp

  /** A JSON value of the device state, as `json.loads` produces it. */
  datatype Value = VBool(b: bool) | VInt(i: int) | VReal(r: real) | VStr(s: string) | VNull

  type Json = map<string, Value>

  /** Python truthiness, which is how `while self.state['enabled']` reads the flag. */
  predicate Truthy(v: Value) {
    match v
    case VBool(b) => b
    case VInt(i) => i != 0
    case VReal(r) => r != 0.0
    case VStr(s) => |s| > 0
    case VNull => false
  }

  /** An inbound config message after `json.loads`: an object, or text that
      raises JSONDecodeError. */
  datatype ConfigPayload = JsonObject(fields: Json) | Malformed

  /** One record of the measurement source: `{'timestamp': ..., 'value': ...}`. */
  datatype Measurement = Measurement(timestamp: string, value: Value)

  /** The claims `create_jwt` signs; the signature is not modelled. */
  datatype Token = Token(iat: int, exp: int, aud: string)

  /** The constructor's keyword arguments that the core reads. */
  datatype Settings = Settings(
    projectId: string,
    location: string,
    registryId: string,
    deviceId: string,
    maximumBackoffTime: int,
    eventsSubTopic: string,
    jwtExpiresMinutes: int,
    useInputTimestamp: bool)

  function EventsTopic(st: Settings): string {
    "/devices/" + st.deviceId + "/" + st.eventsSubTopic
  }

  function StateTopic(st: Settings): string {
    "/devices/" + st.deviceId + "/state"
  }

  function ConfigTopic(st: Settings): string {
    "/devices/" + st.deviceId + "/config"
  }

  function CommandTopic(st: Settings): string {
    "/devices/" + st.deviceId + "/commands/#"
  }

  function ClientId(st: Settings): string {
    "projects/" + st.projectId + "/locations/" + st.location
      + "/registries/" + st.registryId + "/devices/" + st.deviceId
  }

  /** Seconds between a token's issue and its expiry: 20 minutes, fixed. */
  const TokenLifetime: int := 20 * 60

  /** `create_jwt` at clock reading `now` (seconds). */
  function CreateJwt(st: Settings, now: int): (t: Token)
    ensures t.iat == now && t.exp == now + TokenLifetime && t.aud == st.projectId
  {
    Token(now, now + TokenLifetime, st.projectId)
  }

  /** What the client asks of the transport. */
  datatype Effect =
    | Connect(clientId: string, username: string, password: Token)
    | Subscribe(topic: string, qos: nat)
    | LoopStart
    | LoopStop
    | Disconnect
    | Reconnect
    | PublishState(topic: string, payload: Json, qos: nat)
    | PublishTelemetry(topic: string, payload: Json, qos: nat)
    | BackoffWait(seconds: int, jitterMillis: int)  // time.sleep(seconds + jitterMillis / 1000)
    | Sleep(seconds: int)
    | GiveUp                                        // the "Giving up" warning

  /** `get_client`: a new transport authenticated with a fresh token, then the
      two subscriptions. */
  function ClientSetup(st: Settings, now: int): seq<Effect> {
    [Connect(ClientId(st), "unused", CreateJwt(st, now)),
     Subscribe(ConfigTopic(st), 1),
     Subscribe(CommandTopic(st), 0)]
  }

  datatype Callback = OnConnect | OnDisconnect | OnConfig(payload: ConfigPayload)

  /** What the environment supplies between two checks of the `enabled` flag. */
  datatype Tick = Tick(callbacks: seq<Callback>, now: int, clock: string, jitterMillis: int)

  /** The client's state, as the pure specification sees it. */
  datatype Machine = Machine(
    state: Json,
    shouldBackoff: bool,
    minimumBackoffTime: int,
    jwtIat: int,
    log: seq<Effect>)

  /** Where the loop of `mqtt_device_run` is: about to test the `while`
      condition, about to handle measurement `i`, ended normally, or ended by
      an exception. */
  datatype Pc = AtWhile | AtFor(i: nat) | Stopped | Raised

  // ---------------------------------------------------------------------
  // Device state

  /** `init_state` */
  function InitialState(): (s: Json)
    ensures s.Keys == {"enabled"} && s["enabled"] == VBool(true)
  {
    map["enabled" := VBool(true)]
  }

  /** `update_state`: `dict.update` overwrites the keys present in the config
      and keeps every other key. */
  function Merged(state: Json, config: Json): (r: Json)
    ensures r.Keys == state.Keys + config.Keys
    ensures forall k :: k in config ==> r[k] == config[k]
    ensures forall k :: k in state && k !in config ==> r[k] == state[k]
  {
    state + config
  }

  predicate Enabled(state: Json) {
    "enabled" in state && Truthy(state["enabled"])
  }

  // ---------------------------------------------------------------------
  // The callbacks and the loop, as functions

  function ApplyCallback(st: Settings, m: Machine, cb: Callback): Machine {
    match cb
    case OnConnect => m.(shouldBackoff := false, minimumBackoffTime := 1)
    case OnDisconnect => m.(shouldBackoff := true)
    case OnConfig(JsonObject(config)) =>
      var s := Merged(m.state, config);
      m.(state := s, log := m.log + [PublishState(StateTopic(st), s, 1)])
    case OnConfig(Malformed) => m
  }

  function ApplyCallbacks(st: Settings, m: Machine, cbs: seq<Callback>): Machine {
    if |cbs| == 0 then m
    else ApplyCallback(st, ApplyCallbacks(st, m, cbs[..|cbs| - 1]), cbs[|cbs| - 1])
  }

  /** `get_payload`; `None` is the ValueError `strptime` raises. `clock` is the
      current UTC time already formatted with the output format. */
  function GetPayload(st: Settings, v: Measurement, clock: string): (r: Option<Json>)
    ensures r.Some? <==> !st.useInputTimestamp || RewriteTimestamp(v.timestamp).Some?
    ensures r.Some? ==> r.value.Keys == {"timestamp", "value"} && r.value["value"] == v.value
    ensures r.Some? && !st.useInputTimestamp ==> r.value["timestamp"] == VStr(clock)
    ensures r.Some? && st.useInputTimestamp ==>
      r.value["timestamp"] == VStr(RewriteTimestamp(v.timestamp).value)
  {
    if st.useInputTimestamp then
      match RewriteTimestamp(v.timestamp)
      case None => None
      case Some(ts) => Some(map["timestamp" := VStr(ts), "value" := v.value])
    else Some(map["timestamp" := VStr(clock), "value" := v.value])
  }

  /** The refresh test: `timedelta.seconds` is the seconds part of the
      difference, which wraps every day. */
  predicate TokenStale(st: Settings, jwtIat: int, now: int) {
    (now - jwtIat) % 86400 > 60 * st.jwtExpiresMinutes
  }

  /** What `mqtt_device_run` does before its loop: take the clock for
      `jwt_iat`, create the client, start its network loop, sleep 10 s. */
  function Start(st: Settings, m: Machine, now: int): Machine {
    m.(jwtIat := now, log := m.log + ClientSetup(st, now) + [LoopStart, Sleep(10)])
  }

  /** The give-up test: a backoff is pending and its minimum is already
      above the maximum. */
  predicate GivenUp(st: Settings, m: Machine) {
    m.shouldBackoff && m.minimumBackoffTime > st.maximumBackoffTime
  }

  /** The wait before reconnecting, when a backoff is pending. */
  function WaitBackoff(m: Machine, jitterMillis: int): Machine {
    if m.shouldBackoff then
      m.(minimumBackoffTime := 2 * m.minimumBackoffTime,
         log := m.log + [BackoffWait(m.minimumBackoffTime, jitterMillis), Reconnect])
    else m
  }

  /** The transport calls of a token refresh. */
  function RefreshEffects(st: Settings, now: int): seq<Effect> {
    [LoopStop, Disconnect] + ClientSetup(st, now) + [LoopStart]
  }

  /** A new connection with a fresh token, when the current one is stale. */
  function RefreshToken(st: Settings, m: Machine, now: int): Machine {
    if TokenStale(st, m.jwtIat, now) then
      m.(jwtIat := now, log := m.log + RefreshEffects(st, now))
    else m
  }

  /** The publish of one payload at QoS 1, then the minute's sleep. */
  function Publish(st: Settings, m: Machine, payload: Json): Machine {
    m.(log := m.log + [PublishTelemetry(EventsTopic(st), payload, 1), Sleep(60)])
  }

  /** One pass of the `for` body for measurement `i`, after the callbacks of
      the tick have been delivered to `m`. */
  function ForStep(st: Settings, values: seq<Measurement>, i: nat, m: Machine, t: Tick): (Machine, Pc)
    requires i < |values|
  {
    if !Enabled(m.state) then (m, AtWhile)
    else if GivenUp(st, m) then (m.(log := m.log + [GiveUp]), AtWhile)
    else
      var m2 := WaitBackoff(m, t.jitterMillis);
      match GetPayload(st, values[i], t.clock)
      case None => (m2, Raised)
      case Some(p) =>
        (Publish(st, RefreshToken(st, m2, t.now), p),
         if i + 1 < |values| then AtFor(i + 1) else AtWhile)
  }

  /** The test of the `while` condition, once the callbacks of the tick have
      been delivered to `m`. */
  function WhileStep(values: seq<Measurement>, m: Machine): (Machine, Pc) {
    if !Enabled(m.state) then (m.(log := m.log + [LoopStop]), Stopped)
    else if |values| == 0 then (m, AtWhile)
    else (m, AtFor(0))
  }

  /** One check of the `enabled` flag and what follows it, up to the next check. */
  function Step(st: Settings, values: seq<Measurement>, m: Machine, pc: Pc, t: Tick): (Machine, Pc) {
    match pc
    case Stopped => (m, pc)
    case Raised => (m, pc)
    case AtWhile => WhileStep(values, ApplyCallbacks(st, m, t.callbacks))
    case AtFor(i) =>
      if i < |values| then ForStep(st, values, i, ApplyCallbacks(st, m, t.callbacks), t)
      else (m, AtWhile)
  }

  /** The loop after the given ticks. */
  function Exec(st: Settings, values: seq<Measurement>, m: Machine, pc: Pc, ticks: seq<Tick>): (Machine, Pc) {
    if |ticks| == 0 then (m, pc)
    else
      var r := Exec(st, values, m, pc, ticks[..|ticks| - 1]);
      Step(st, values, r.0, r.1, ticks[|ticks| - 1])
  }

  /** `mqtt_device_run(values)` started at clock `start` from machine `m`. */
  function RunSpec(st: Settings, values: seq<Measurement>, m: Machine, start: int, env: seq<Tick>): (Machine, Pc) {
    Exec(st, values, Start(st, m, start), AtWhile, env)
  }

  predicate Halted(pc: Pc) { pc == Stopped || pc == Raised }

  /** Once the loop has stopped or raised, further ticks change nothing. */
  lemma {:induction false} ExecHalted(st: Settings, values: seq<Measurement>, m: Machine, pc: Pc, env: seq<Tick>, k: nat)
    requires k <= |env| && Halted(Exec(st, values, m, pc, env[..k]).1)
    ensures Exec(st, values, m, pc, env) == Exec(st, values, m, pc, env[..k])
    decreases |env| - k
  {
    if k < |env| {
      assert env[..k + 1][..k] == env[..k];
      ExecHalted(st, values, m, pc, env, k + 1);
    } else {
      assert env[..k] == env;
    }
  }

  lemma ExecWhile(st: Settings, values: seq<Measurement>, m0: Machine, env: seq<Tick>, k: nat, m: Machine)
    requires k < |env| && Exec(st, values, m0, AtWhile, env[..k]) == (m, AtWhile)
    ensures Exec(st, values, m0, AtWhile, env[..k + 1])
         == WhileStep(values, ApplyCallbacks(st, m, env[k].callbacks))
  {
    assert env[..k + 1][..k] == env[..k];
  }

  lemma ExecFor(st: Settings, values: seq<Measurement>, m0: Machine, env: seq<Tick>, k: nat, m: Machine, i: nat)
    requires k < |env| && i < |values| && Exec(st, values, m0, AtWhile, env[..k]) == (m, AtFor(i))
    ensures Exec(st, values, m0, AtWhile, env[..k + 1])
         == ForStep(st, values, i, ApplyCallbacks(st, m, env[k].callbacks), env[k])
  {
    assert env[..k + 1][..k] == env[..k];
  }

  // ---------------------------------------------------------------------
  // The client object

  class Client {
    const settings: Settings
    var state: Json
    var shouldBackoff: bool
    var minimumBackoffTime: int
    /** `jwt_iat`, a local of `mqtt_device_run`, kept on the object. */
    var jwtIat: int
    /** The transport calls made so far. */
    var log: seq<Effect>

    function Snapshot(): Machine
      reads this
    {
      Machine(state, shouldBackoff, minimumBackoffTime, jwtIat, log)
    }

    ghost predicate Valid()
      reads this
    {
      "enabled" in state && minimumBackoffTime >= 1
    }

    /** `__init__`: no backoff, a minimum backoff of 1 s, the initial state. */
    constructor (settings: Settings)
      ensures this.settings == settings && Valid()
      ensures state == InitialState()
      ensures !shouldBackoff && minimumBackoffTime == 1
      ensures log == []
    {
      this.settings := settings;
      state := map["enabled" := VBool(true)];
      shouldBackoff := false;
      minimumBackoffTime := 1;
      jwtIat := 0;
      log := [];
    }

    /** `init_state` */
    method InitState()
      modifies this
      ensures state == InitialState()
      ensures shouldBackoff == old(shouldBackoff) && minimumBackoffTime == old(minimumBackoffTime)
      ensures jwtIat == old(jwtIat) && log == old(log)
    {
      state := map["enabled" := VBool(true)];
    }

    /** `update_state` */
    method UpdateState(config: Json)
      modifies this
      ensures state == Merged(old(state), config)
      ensures shouldBackoff == old(shouldBackoff) && minimumBackoffTime == old(minimumBackoffTime)
      ensures jwtIat == old(jwtIat) && log == old(log)
    {
      state := state + config;
    }

    /** `on_connect`: clears the backoff and resets its minimum to 1 s. */
    method OnConnect()
      requires Valid()
      modifies this
      ensures Valid()
      ensures !shouldBackoff && minimumBackoffTime == 1
      ensures state == old(state) && jwtIat == old(jwtIat) && log == old(log)
      ensures Snapshot() == ApplyCallback(settings, old(Snapshot()), Callback.OnConnect)
    {
      shouldBackoff := false;
      minimumBackoffTime := 1;
    }

    /** `on_disconnect`: asks for a backoff and changes nothing else. */
    method OnDisconnect()
      requires Valid()
      modifies this
      ensures Valid()
      ensures shouldBackoff && minimumBackoffTime == old(minimumBackoffTime)
      ensures state == old(state) && jwtIat == old(jwtIat) && log == old(log)
      ensures Snapshot() == ApplyCallback(settings, old(Snapshot()), Callback.OnDisconnect)
    {
      shouldBackoff := true;
    }

    /** `on_config_message`: a payload that parses is merged and the whole new
        state is published on the state topic at QoS 1; one that does not
        parse is logged and dropped. */
    method OnConfigMessage(payload: ConfigPayload)
      requires Valid()
      modifies this
      ensures Valid()
      ensures payload.JsonObject? ==>
        && state == Merged(old(state), payload.fields)
        && log == old(log) + [PublishState(StateTopic(settings), state, 1)]
      ensures payload.Malformed? ==> state == old(state) && log == old(log)
      ensures shouldBackoff == old(shouldBackoff) && minimumBackoffTime == old(minimumBackoffTime)
      ensures jwtIat == old(jwtIat)
      ensures Snapshot() == ApplyCallback(settings, old(Snapshot()), OnConfig(payload))
    {
      match payload
      case JsonObject(config) =>
        UpdateState(config);
        log := log + [PublishState(StateTopic(settings), state, 1)];
      case Malformed =>
    }

    /** The network thread delivering callbacks, in order. */
    method DispatchCallbacks(cbs: seq<Callback>)
      requires Valid()
      modifies this
      ensures Valid()
      ensures Snapshot() == ApplyCallbacks(settings, old(Snapshot()), cbs)
    {
      var j := 0;
      while j < |cbs|
        invariant 0 <= j <= |cbs| && Valid()
        invariant Snapshot() == ApplyCallbacks(settings, old(Snapshot()), cbs[..j])
      {
        assert cbs[..j + 1][..j] == cbs[..j];
        match cbs[j] {
          case OnConnect => this.OnConnect();
          case OnDisconnect => OnDisconnect();
          case OnConfig(p) => OnConfigMessage(p);
        }
        j := j + 1;
      }
      assert cbs[..j] == cbs;
    }

    /** The body of the `for` loop for measurement `i`, once the callbacks of
        `tick` have been delivered. `AtWhile` means the loop is left, by
        `break` or because `i` was the last measurement. */
    method HandleMeasurement(values: seq<Measurement>, i: nat, tick: Tick) returns (next: Pc)
      requires Valid() && i < |values|
      modifies this
      ensures Valid()
      ensures (Snapshot(), next) == ForStep(settings, values, i, old(Snapshot()), tick)
    {
      ghost var m := Snapshot();
      if !Enabled(state) {
        return AtWhile;
      }
      // Wait if backoff is required.
      if shouldBackoff {
        if minimumBackoffTime > settings.maximumBackoffTime {
          log := log + [GiveUp];
          return AtWhile;
        }
        log := log + [BackoffWait(minimumBackoffTime, tick.jitterMillis)];
        minimumBackoffTime := minimumBackoffTime * 2;
        log := log + [Reconnect];
      }
      assert Snapshot() == WaitBackoff(m, tick.jitterMillis);
      var payload := GetPayload(settings, values[i], tick.clock);
      if payload.None? {
        return Raised;
      }
      if TokenStale(settings, jwtIat, tick.now) {
        jwtIat := tick.now;
        log := log + [LoopStop, Disconnect] + ClientSetup(settings, tick.now) + [LoopStart];
      }
      assert Snapshot() == RefreshToken(settings, WaitBackoff(m, tick.jitterMillis), tick.now);
      log := log + [PublishTelemetry(EventsTopic(settings), payload.value, 1), Sleep(60)];
      next := if i + 1 < |values| then AtFor(i + 1) else AtWhile;
    }

    /** `mqtt_device_run(values)`, started at clock reading `start`, under the
        environment `env`. The result tells where the loop was when the run
        ended. */
    method Run(values: seq<Measurement>, start: int, env: seq<Tick>) returns (pc: Pc)
      requires Valid()
      modifies this
      ensures Valid()
      ensures (Snapshot(), pc) == RunSpec(settings, values, old(Snapshot()), start, env)
    {
      ghost var m0 := Start(settings, Snapshot(), start);
      jwtIat := start;
      log := log + ClientSetup(settings, start) + [LoopStart, Sleep(10)];
      var k := 0;
      while true
        invariant 0 <= k <= |env| && Valid()
        invariant Exec(settings, values, m0, AtWhile, env[..k]) == (Snapshot(), AtWhile)
        decreases |env| - k
      {
        if k == |env| {
          assert env[..k] == env;
          return AtWhile;
        }
        ghost var kOuter := k;
        ExecWhile(settings, values, m0, env, k, Snapshot());
        DispatchCallbacks(env[k].callbacks);
        k := k + 1;
        if !Enabled(state) {
          log := log + [LoopStop];
          ExecHalted(settings, values, m0, AtWhile, env, k);
          return Stopped;
        }
        var i := 0;
        while i < |values|
          invariant kOuter < k <= |env| && Valid()
          invariant Exec(settings, values, m0, AtWhile, env[..k])
                 == (Snapshot(), if i < |values| then AtFor(i) else AtWhile)
          decreases |values| - i
        {
          if k == |env| {
            assert env[..k] == env;
            return AtFor(i);
          }
          ExecFor(settings, values, m0, env, k, Snapshot(), i);
          DispatchCallbacks(env[k].callbacks);
          var next := HandleMeasurement(values, i, env[k]);
          k := k + 1;
          if next == Raised {
            ExecHalted(settings, values, m0, AtWhile, env, k);
            return Raised;
          }
          if next == AtWhile {
            break;
          }
          i := i + 1;
        }
      }
    }
  }
}
