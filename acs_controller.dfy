/**
 * The access-control endpoint that doors and equipment call. A message
 * names the device, an optional key fob, what happened (`boot`,
 * `heartbeat`, `lookup`) and the kind of device (`door`, `equipment`).
 * The device repository, the key-fob lookup, the debug log and the clock
 * are collaborators: their calls are returned as effects, and the outcome
 * of the validator, of the lookup and the clock reading are parameters.
 */
module ACS {
  import opened Wrappers

  /** The request fields `device`, `key_fob`, `message` and `type`. */
  datatype Message = Message(device: string, keyFob: Option<string>, message: string, kind: string)

  /** A key fob found by the lookup service. */
  datatype KeyFob = KeyFob(userId: nat)

  /** A call to a collaborator, in the order the controller makes it. */
  datatype Effect =
    | DebugLog(data: Message)
    | GetDeviceByName(device: string)
    | LogBoot(device: string)
    | LogHeartbeat(device: string)
    | LookupKeyFob(keyFob: Option<string>)

  /** The `member` field: the empty string, or the key fob's user id. */
  datatype MemberField = Blank | Member(userId: nat)

  /** The JSON body a handler builds. */
  datatype Response =
    | DoorResponse(device: string, time: int, member: MemberField)
    | DeviceResponse(device: string, time: int, deviceStatus: string)

  /** What a handler does and the response it builds. */
  datatype Handled = Handled(effects: seq<Effect>, response: Response)

  /** What `update()` does: either validation throws, or it completes with some effects and returns a body (or none). */
  datatype UpdateOutcome =
    | ValidationFailed
    | Completed(effects: seq<Effect>, response: Option<Response>)

  /**
   * A door message. `lookup` is what the key-fob lookup gives for this
   * message's fob, None when it throws; it is used only for a `lookup`.
   */
  function HandleDoor(data: Message, lookup: Option<KeyFob>, now: int): (r: Handled)
    ensures r.response.DoorResponse? && r.response.device == data.device && r.response.time == now
    ensures r.response.member != Blank <==> data.message == "lookup" && lookup.Some?
    ensures r.response.member != Blank ==> r.response.member.userId == lookup.value.userId
    ensures |r.effects| <= 1
    ensures multiset(r.effects)[LogBoot(data.device)] == (if data.message == "boot" then 1 else 0)
    ensures multiset(r.effects)[LogHeartbeat(data.device)] == (if data.message == "heartbeat" then 1 else 0)
    ensures multiset(r.effects)[LookupKeyFob(data.keyFob)] == (if data.message == "lookup" then 1 else 0)
    ensures data.message != "boot" && data.message != "heartbeat" && data.message != "lookup" ==> r.effects == []
  {
    var effects :=
      if data.message == "boot" then [LogBoot(data.device)]
      else if data.message == "heartbeat" then [LogHeartbeat(data.device)]
      else if data.message == "lookup" then [LookupKeyFob(data.keyFob)]
      else [];
    var keyFob: Option<KeyFob> := if data.message == "lookup" then lookup else None;
    var member := if keyFob.Some? then Member(keyFob.value.userId) else Blank;
    Handled(effects, DoorResponse(data.device, now, member))
  }

  /** An equipment message: the device is fetched by name, boots and heartbeats are logged. */
  function HandleDevice(data: Message, now: int): (r: Handled)
    ensures r.response == DeviceResponse(data.device, now, "ok")
    ensures 1 <= |r.effects| <= 2 && r.effects[0] == GetDeviceByName(data.device)
    ensures multiset(r.effects)[LogBoot(data.device)] == (if data.message == "boot" then 1 else 0)
    ensures multiset(r.effects)[LogHeartbeat(data.device)] == (if data.message == "heartbeat" then 1 else 0)
    ensures forall e | e in r.effects :: !e.LookupKeyFob?
    ensures data.message != "boot" && data.message != "heartbeat" ==> r.effects == [GetDeviceByName(data.device)]
  {
    var logged :=
      if data.message == "boot" then [LogBoot(data.device)]
      else if data.message == "heartbeat" then [LogHeartbeat(data.device)]
      else [];
    Handled([GetDeviceByName(data.device)] + logged, DeviceResponse(data.device, now, "ok"))
  }

  /**
   * The endpoint. `valid` is whether the validator accepts `data`. The
   * handler's response is built but not returned.
   */
  function Update(data: Message, valid: bool, lookup: Option<KeyFob>, now: int): (r: UpdateOutcome)
    ensures !valid <==> r == ValidationFailed
    ensures r.Completed? ==> r.response.None? && |r.effects| >= 1 && r.effects[0] == DebugLog(data)
    ensures r.Completed? && data.kind == "door" ==> r.effects == [DebugLog(data)] + HandleDoor(data, lookup, now).effects
    ensures r.Completed? && data.kind == "equipment" ==> r.effects == [DebugLog(data)] + HandleDevice(data, now).effects
    ensures r.Completed? && data.kind != "door" && data.kind != "equipment" ==> r.effects == [DebugLog(data)]
  {
    if !valid then ValidationFailed
    else
      var routed :=
        if data.kind == "door" then HandleDoor(data, lookup, now).effects
        else if data.kind == "equipment" then HandleDevice(data, now).effects
        else [];
      Completed([DebugLog(data)] + routed, None)
  }
}
