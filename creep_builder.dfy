/**
 * The creep-builder module of src/modules/creepBuilder.ts: it checks that a
 * payload carries the four properties it needs, takes a guid from the
 * memory manager, names the creep "room - role#guid" and normalises the
 * spawn's string results to OK.
 */
module CreepBuilder {
  import opened Base
  import opened GameMemory
  import opened Creeps

  /** A value of the module payload. */
  datatype PayloadValue =
    | SpawnValue(spawn: SpawnState)
    | TextValue(text: string)
    | PartsValue(parts: seq<string>)
    | OtherValue

  /** A module payload: an object with arbitrary keys. */
  type Payload = map<string, PayloadValue>

  /** The properties `checkPayload` requires. */
  const RequiredProps: set<string> := {"spawn", "room", "role", "bodyParts"}

  /** `ModuleStatus.ERROR`; `ModuleStatus.OK` is the `OK` of the spawn codes, 0. */
  const ModuleError: int := 1

  /**
   * `checkPayload(payload)`: the keys the payload shares with the required
   * properties are counted (lodash's intersection has no repeats, so its
   * length is the size of the common key set) and compared with four. It
   * holds exactly when all four are keys of the payload; other keys do not matter.
   */
  function CheckPayload(payload: Payload): (ok: bool)
    ensures ok <==> RequiredProps <= payload.Keys
  {
    CommonKeysCount(payload.Keys);
    |payload.Keys * RequiredProps| == 4
  }

  /** The required properties among `keys` number four exactly when all are there. */
  lemma CommonKeysCount(keys: set<string>)
    ensures |keys * RequiredProps| == 4 <==> RequiredProps <= keys
  {
    var common := keys * RequiredProps;
    assert |RequiredProps| == 4;
    if RequiredProps <= keys {
      assert common == RequiredProps;
    } else {
      assert common != RequiredProps;
      ProperSubsetCardinality(common, RequiredProps);
    }
  }

  /** Extra keys never change the verdict of `checkPayload`. */
  lemma ExtraKeysIrrelevant(payload: Payload, key: string, v: PayloadValue)
    requires key !in RequiredProps
    ensures CheckPayload(payload[key := v]) == CheckPayload(payload)
  {
  }

  /**
   * The payload values have the types the module reads them as: a spawn,
   * two strings and a list of body parts.
   */
  predicate WellTyped(payload: Payload) {
    ("spawn" in payload ==> payload["spawn"].SpawnValue?)
    && ("room" in payload ==> payload["room"].TextValue?)
    && ("role" in payload ==> payload["role"].TextValue?)
    && ("bodyParts" in payload ==> payload["bodyParts"].PartsValue?)
  }

  /** The name of a creep built by the module: "room - role#guid". */
  function ModuleCreepName(room: string, role: string, guid: int): string {
    room + " - " + role + "#" + IntToString(guid)
  }

  /** For one room and role, different non-negative guids give different names. */
  lemma ModuleCreepNamesDistinct(room: string, role: string, g1: nat, g2: nat)
    requires g1 != g2
    ensures ModuleCreepName(room, role, g1) != ModuleCreepName(room, role, g2)
  {
    var prefix := room + " - " + role + "#";
    assert ModuleCreepName(room, role, g1) == prefix + IntToString(g1);
    assert ModuleCreepName(room, role, g2) == prefix + IntToString(g2);
    if IntToString(g1) == IntToString(g2) {
      IntToStringInjective(g1, g2);
    } else {
      assert (prefix + IntToString(g1))[|prefix|..] == IntToString(g1);
      assert (prefix + IntToString(g2))[|prefix|..] == IntToString(g2);
    }
  }

  /** The data a successful build reports, also the new creep's memory: `{guid, role, room}`. */
  function BuildProperties(guid: int, role: string, room: string): (m: CreepMemory)
    ensures m.Keys == {"guid", "role", "room"}
    ensures m["guid"] == Num(guid) && m["role"] == Str(role) && m["room"] == Str(room)
  {
    map["guid" := Num(guid), "role" := Str(role), "room" := Str(room)]
  }

  /** A module response: its status and, for a creep that was created, its `data`. */
  datatype Response = Response(status: int, data: Option<CreepMemory>)

  /**
   * `run(payload)`. An invalid payload yields ERROR and touches neither the
   * guid nor the spawn. Otherwise a guid is drawn from the memory manager,
   * and if `canCreateCreep` yields OK or a string the creep is created as
   * "room - role#guid" with memory {guid, role, room}, whose string result
   * is normalised to OK; any other code from `canCreateCreep` is returned as is.
   */
  method Run(memory: Memory, payload: Payload, world: World) returns (response: Response)
    requires WellTyped(payload)
    modifies memory
    ensures !CheckPayload(payload) ==> response == Response(ModuleError, None) && memory.guid == old(memory.guid)
    ensures CheckPayload(payload) ==>
      var guid := NextModuleGuid(old(memory.guid));
      var spawn := payload["spawn"].spawn;
      var body := payload["bodyParts"].parts;
      var room := payload["room"].text;
      var role := payload["role"].text;
      memory.guid == Some(guid)
      && (Normalize(world.canCreate(spawn, body)) == OK ==>
            response == Response(Normalize(world.create(spawn, body, ModuleCreepName(room, role, guid),
                                                        BuildProperties(guid, role, room))),
                                 Some(BuildProperties(guid, role, room))))
      && (Normalize(world.canCreate(spawn, body)) != OK ==>
            response == Response(Normalize(world.canCreate(spawn, body)), None))
    ensures memory.creeps == old(memory.creeps) && memory.rooms == old(memory.rooms)
    ensures memory.flags == old(memory.flags) && memory.spawns == old(memory.spawns) && memory.modules == old(memory.modules)
  {
    if !CheckPayload(payload) {
      return Response(ModuleError, None);
    }
    var guid := memory.GetGuid();
    var spawn := payload["spawn"].spawn;
    var name := ModuleCreepName(payload["room"].text, payload["role"].text, guid);
    var body := payload["bodyParts"].parts;
    var status := Normalize(world.canCreate(spawn, body));
    if status == OK {
      var properties := BuildProperties(guid, payload["role"].text, payload["room"].text);
      var created := Normalize(world.create(spawn, body, name, properties));
      response := Response(created, Some(properties));
    } else {
      response := Response(status, None);
    }
  }
}
