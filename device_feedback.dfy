/** The feedback both anomaly cloud functions send to a device
    (platform/functions/detectAnomalyVertex/main.py and
    platform/functions/analyzeIoTPopulateCallback/main.py, which repeat the
    same code, with the `DeviceCommunicator` of
    platform/functions/detectAnomalyVertex/device_communicator.py).

    A processor creates its device communicator lazily, at most once. A
    reading above its band sends the device a command; a reading below it
    writes the config `{"enabled": false}`; a reading inside it sends
    nothing. The device manager is an external service: each call is
    recorded with the reply it got. A FailedPrecondition reply is logged
    and swallowed; any other error propagates out of the function.

    The config travels as JSON text (`json.dumps` here, `json.loads` on the
    device); the model passes the decoded object, treating the encoding as
    lossless. */
module DeviceFeedback {
  import opened Common
  import MqttClient

  /** `dumps({'enabled': False})`, as the device decodes it. */
  const TurnOffConfig: MqttClient.Json := map["enabled" := MqttClient.VBool(false)]

  /** The fields of an anomaly row that the feedback reads. */
  datatype Reading = Reading(timestamp: string, value: real, lowerBound: real, upperBound: real)

  /** What `feedback_to_device` decides to do. `HighAnomaly` is the command
      text `"Found high anomaly at {timestamp}: {value}"`; the text of a
      float is not modelled, so the command keeps the two fields. */
  datatype Feedback = HighAnomaly(timestamp: string, value: real) | TurnOff | Silent

  /** The `if`/`elif` of `feedback_to_device`. */
  function Decide(r: Reading): (f: Feedback)
    ensures f.HighAnomaly? <==> r.value > r.upperBound
    ensures f.TurnOff? <==> r.value <= r.upperBound && r.value < r.lowerBound
    ensures f.Silent? <==> r.lowerBound <= r.value <= r.upperBound
  {
    if r.value > r.upperBound then HighAnomaly(r.timestamp, r.value)
    else if r.value < r.lowerBound then TurnOff
    else Silent
  }

  /** The device's resource name, as `DeviceManagerClient.device_path`
      builds it. */
  function DevicePath(projectId: string, cloudRegion: string, registryId: string, deviceId: string): string {
    "projects/" + projectId + "/locations/" + cloudRegion + "/registries/" + registryId + "/devices/" + deviceId
  }

  /** The resource name the functions write to is the MQTT client id of
      the device with the same coordinates. */
  lemma DevicePathIsClientId(st: MqttClient.Settings)
    ensures DevicePath(st.projectId, st.location, st.registryId, st.deviceId) == MqttClient.ClientId(st)
  {
  }

  /** A `DeviceCommunicator`: the device's coordinates and the config
      version it updates (`"0"`, which means any version). */
  datatype Communicator = Communicator(
    projectId: string, cloudRegion: string, registryId: string, deviceId: string, version: string)

  function Path(c: Communicator): string {
    DevicePath(c.projectId, c.cloudRegion, c.registryId, c.deviceId)
  }

  /** The two requests a communicator makes of the device manager. */
  datatype Request =
    | ModifyCloudToDeviceConfig(name: string, data: MqttClient.Json, versionToUpdate: string)
    | SendCommandToDevice(name: string, command: Feedback)

  /** The device manager's answer to a request: accepted, a
      FailedPrecondition error, or an error of any other kind. */
  datatype Reply = Accepted | FailedPrecondition | OtherError(error: string)

  /** A request and the reply the device manager gave it. */
  datatype Call = Call(request: Request, reply: Reply)

  /** The requests that carry out a decision. */
  function Requests(c: Communicator, f: Feedback): (rs: seq<Request>)
    ensures |rs| <= 1
  {
    match f
    case HighAnomaly(_, _) => [SendCommandToDevice(Path(c), f)]
    case TurnOff => [ModifyCloudToDeviceConfig(Path(c), TurnOffConfig, c.version)]
    case Silent => []
  }

  /** The feedback's effect on the device: one command for a reading above
      the band, one config write of `{"enabled": false}` for one below it,
      nothing for one inside it; always addressed to the communicator's
      device. */
  lemma FeedbackRequests(c: Communicator, r: Reading)
    ensures var rs := Requests(c, Decide(r));
      && (r.value > r.upperBound <==> rs == [SendCommandToDevice(Path(c), HighAnomaly(r.timestamp, r.value))])
      && (r.value <= r.upperBound && r.value < r.lowerBound
          <==> rs == [ModifyCloudToDeviceConfig(Path(c), TurnOffConfig, c.version)])
      && (r.lowerBound <= r.value <= r.upperBound <==> rs == [])
  {
  }

  /** The written config switches the device off, whatever its state held. */
  lemma TurnOffDisables(state: MqttClient.Json)
    ensures !MqttClient.Enabled(MqttClient.Merged(state, TurnOffConfig))
    ensures MqttClient.Merged(state, TurnOffConfig)["enabled"] == MqttClient.VBool(false)
  {
  }

  /** How carrying out a decision ends when the device manager answers
      `reply`: only an error other than FailedPrecondition, to a request
      actually made, escapes. */
  function Outcome(f: Feedback, reply: Reply): (r: Result<(), string>)
    ensures r.Failure? <==> !f.Silent? && reply.OtherError?
    ensures r.Failure? ==> r.error == reply.error
  {
    if f.Silent? then Success(())
    else match reply
      case OtherError(e) => Failure(e)
      case _ => Success(())
  }

  /** The calls a sequence of requests makes when every one gets `reply`. */
  function CallsWith(rs: seq<Request>, reply: Reply): (cs: seq<Call>)
    ensures |cs| == |rs|
    ensures forall i :: 0 <= i < |rs| ==> cs[i] == Call(rs[i], reply)
  {
    if |rs| == 0 then [] else [Call(rs[0], reply)] + CallsWith(rs[1..], reply)
  }

  /** The cloud function's processor, as far as feedback goes. */
  class Processor {
    const projectId: string
    const cloudRegion: string
    const registryId: string
    const deviceId: string
    /** `device_com` */
    var deviceCom: Option<Communicator>
    /** How many `DeviceManagerClient`s the processor has created. */
    var clientsCreated: nat
    /** The device manager calls made so far, with their replies. */
    var calls: seq<Call>
    /** How many FailedPrecondition errors were logged and swallowed. */
    var errorsLogged: nat

    /** The communicator `set_device_communicator` creates. */
    function OwnCommunicator(): Communicator
      reads this
    {
      Communicator(projectId, cloudRegion, registryId, deviceId, "0")
    }

    /** A communicator, once set, is the processor's own, and exactly one
        client was created for it. */
    ghost predicate Valid()
      reads this
    {
      && (deviceCom.None? ==> clientsCreated == 0)
      && (deviceCom.Some? ==> deviceCom.value == OwnCommunicator() && clientsCreated == 1)
    }

    constructor (projectId: string, cloudRegion: string, registryId: string, deviceId: string)
      ensures Valid()
      ensures this.projectId == projectId && this.cloudRegion == cloudRegion
      ensures this.registryId == registryId && this.deviceId == deviceId
      ensures deviceCom == None && calls == [] && errorsLogged == 0
    {
      this.projectId := projectId;
      this.cloudRegion := cloudRegion;
      this.registryId := registryId;
      this.deviceId := deviceId;
      deviceCom := None;
      clientsCreated := 0;
      calls := [];
      errorsLogged := 0;
    }

    /** `set_device_communicator`: creates the client and the communicator
        when there is none yet, and otherwise does nothing. */
    method SetDeviceCommunicator()
      requires Valid()
      modifies this
      ensures Valid()
      ensures deviceCom == Some(OwnCommunicator()) && clientsCreated == 1
      ensures old(deviceCom).Some? ==> deviceCom == old(deviceCom) && clientsCreated == old(clientsCreated)
      ensures calls == old(calls) && errorsLogged == old(errorsLogged)
    {
      if deviceCom.None? {
        clientsCreated := clientsCreated + 1;
        deviceCom := Some(Communicator(projectId, cloudRegion, registryId, deviceId, "0"));
      }
    }

    /** `DeviceCommunicator.set_config`: one request; a FailedPrecondition
        reply is logged, not raised, and any other error is raised. */
    method SetConfig(config: MqttClient.Json, reply: Reply) returns (r: Result<(), string>)
      requires Valid() && deviceCom.Some?
      modifies this
      ensures reply.OtherError? ==> r == Failure(reply.error)
      ensures !reply.OtherError? ==> r == Success(())
      ensures Valid() && deviceCom == old(deviceCom) && clientsCreated == old(clientsCreated)
      ensures calls == old(calls)
        + [Call(ModifyCloudToDeviceConfig(Path(deviceCom.value), config, deviceCom.value.version), reply)]
      ensures errorsLogged == old(errorsLogged) + (if reply == FailedPrecondition then 1 else 0)
    {
      var c := deviceCom.value;
      calls := calls + [Call(ModifyCloudToDeviceConfig(Path(c), config, c.version), reply)];
      if reply == FailedPrecondition {
        errorsLogged := errorsLogged + 1;
      }
      r := if reply.OtherError? then Failure(reply.error) else Success(());
    }

    /** `DeviceCommunicator.send_command`: one request; a FailedPrecondition
        reply is logged, not raised, and any other error is raised. */
    method SendCommand(command: Feedback, reply: Reply) returns (r: Result<(), string>)
      requires Valid() && deviceCom.Some?
      modifies this
      ensures reply.OtherError? ==> r == Failure(reply.error)
      ensures !reply.OtherError? ==> r == Success(())
      ensures Valid() && deviceCom == old(deviceCom) && clientsCreated == old(clientsCreated)
      ensures calls == old(calls) + [Call(SendCommandToDevice(Path(deviceCom.value), command), reply)]
      ensures errorsLogged == old(errorsLogged) + (if reply == FailedPrecondition then 1 else 0)
    {
      calls := calls + [Call(SendCommandToDevice(Path(deviceCom.value), command), reply)];
      if reply == FailedPrecondition {
        errorsLogged := errorsLogged + 1;
      }
      r := if reply.OtherError? then Failure(reply.error) else Success(());
    }

    /** `feedback_to_device`: sets the communicator up if needed, then
        carries out the decision for the reading; an error the request
        raises ends it. */
    method FeedbackToDevice(r: Reading, reply: Reply) returns (outcome: Result<(), string>)
      requires Valid()
      modifies this
      ensures outcome == Outcome(Decide(r), reply)
      ensures Valid() && deviceCom == Some(OwnCommunicator()) && clientsCreated == 1
      ensures calls == old(calls) + CallsWith(Requests(OwnCommunicator(), Decide(r)), reply)
      ensures errorsLogged == old(errorsLogged)
        + (if reply == FailedPrecondition && !Decide(r).Silent? then 1 else 0)
    {
      if deviceCom.None? {
        SetDeviceCommunicator();
      }
      outcome := Success(());
      if r.value > r.upperBound {
        outcome := SendCommand(HighAnomaly(r.timestamp, r.value), reply);
      } else if r.value < r.lowerBound {
        outcome := SetConfig(TurnOffConfig, reply);
      }
    }
  }
}
