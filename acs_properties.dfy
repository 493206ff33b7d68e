/** Properties of the access-control endpoint over all messages. */
module ACSProperties {
  import opened Wrappers
  import opened ACS

  /** The effects `update()` has beyond the debug log. */
  function Routed(data: Message, valid: bool, lookup: Option<KeyFob>, now: int): seq<Effect>
    requires valid
  {
    Update(data, valid, lookup, now).effects[1..]
  }

  /** For doors and equipment alike, a boot logs exactly one boot and no heartbeat. */
  lemma BootLoggedOnce(data: Message, lookup: Option<KeyFob>, now: int)
    requires data.kind == "door" || data.kind == "equipment"
    requires data.message == "boot"
    ensures multiset(Routed(data, true, lookup, now))[LogBoot(data.device)] == 1
    ensures multiset(Routed(data, true, lookup, now))[LogHeartbeat(data.device)] == 0
  {
  }

  /** For doors and equipment alike, a heartbeat logs exactly one heartbeat and no boot. */
  lemma HeartbeatLoggedOnce(data: Message, lookup: Option<KeyFob>, now: int)
    requires data.kind == "door" || data.kind == "equipment"
    requires data.message == "heartbeat"
    ensures multiset(Routed(data, true, lookup, now))[LogHeartbeat(data.device)] == 1
    ensures multiset(Routed(data, true, lookup, now))[LogBoot(data.device)] == 0
  {
  }

  /** A door lookup whose key-fob lookup throws still answers, with an empty member. */
  lemma FailedLookupDegrades(data: Message, now: int)
    requires data.message == "lookup"
    ensures HandleDoor(data, None, now).response == DoorResponse(data.device, now, Blank)
    ensures HandleDoor(data, None, now).effects == [LookupKeyFob(data.keyFob)]
  {
  }

  /** A door lookup that finds the fob answers with its user id. */
  lemma SuccessfulLookupAnswersMember(data: Message, fob: KeyFob, now: int)
    requires data.message == "lookup"
    ensures HandleDoor(data, Some(fob), now).response == DoorResponse(data.device, now, Member(fob.userId))
  {
  }

  /** Equipment never looks up a key fob and a `lookup` from equipment logs nothing. */
  lemma EquipmentLookupDoesNothing(data: Message, lookup: Option<KeyFob>, now: int)
    requires data.kind == "equipment" && data.message == "lookup"
    ensures Routed(data, true, lookup, now) == [GetDeviceByName(data.device)]
  {
  }

  /** An equipment boot fetches the device, then logs the boot, and does nothing else. */
  lemma EquipmentBootFetchesThenLogs(data: Message, lookup: Option<KeyFob>, now: int)
    requires data.kind == "equipment" && data.message == "boot"
    ensures Routed(data, true, lookup, now) == [GetDeviceByName(data.device), LogBoot(data.device)]
  {
  }
}
