/**
 * The creep manager of src/room/creep/creepManager.ts: the role partition of
 * the room's creeps (`loadCreeps`), the choice of the role to spawn next,
 * the loop over idle spawns in `buildMissingCreeps`, and `spawnCreep` with
 * its guid and name handling. The spawn's game calls
 * (`getLargestBuildableBodyFromTemplate`, `canCreateCreep`, `createCreep`)
 * are inputs, gathered in a `World`.
 */
module Creeps {
  import opened Base
  import opened GameMemory

  /** A creep: its name and the `role` string stored in its memory, if any. */
  datatype Creep = Creep(name: string, role: Option<string>)

  /**
   * `creeps.filter(c => c.memory.role === role)`: exactly the creeps with
   * that role, in their original order, each occurrence kept once.
   */
  function WithRole(creeps: seq<Creep>, role: string): (l: seq<Creep>)
    ensures forall c :: c in l <==> c in creeps && c.role == Some(role)
    ensures forall c :: multiset(l)[c] == if c.role == Some(role) then multiset(creeps)[c] else 0
    ensures SubsequenceOf(l, creeps)
    decreases |creeps|
  {
    if creeps == [] then []
    else
      var rest := WithRole(creeps[1..], role);
      assert creeps == [creeps[0]] + creeps[1..];
      if creeps[0].role == Some(role) then [creeps[0]] + rest else rest
  }

  /** The nine role lists of a creep manager. */
  datatype RoleLists = RoleLists(
    harvesters: seq<Creep>,
    haulers: seq<Creep>,
    builders: seq<Creep>,
    upgraders: seq<Creep>,
    wallMaintainers: seq<Creep>,
    rampartMaintainers: seq<Creep>,
    roadMaintainers: seq<Creep>,
    defenders: seq<Creep>,
    mineralMiners: seq<Creep>)

  /** `loadCreeps()`: one `WithRole` list per role. */
  function LoadCreeps(creeps: seq<Creep>): (r: RoleLists)
    ensures r.harvesters == WithRole(creeps, "harvester") && r.haulers == WithRole(creeps, "hauler")
    ensures r.builders == WithRole(creeps, "builder") && r.upgraders == WithRole(creeps, "upgrader")
    ensures r.wallMaintainers == WithRole(creeps, "wallMaintainer")
    ensures r.rampartMaintainers == WithRole(creeps, "rampartMaintainer")
    ensures r.roadMaintainers == WithRole(creeps, "roadMaintainer")
    ensures r.defenders == WithRole(creeps, "defender") && r.mineralMiners == WithRole(creeps, "mineralMiner")
  {
    RoleLists(
      WithRole(creeps, "harvester"),
      WithRole(creeps, "hauler"),
      WithRole(creeps, "builder"),
      WithRole(creeps, "upgrader"),
      WithRole(creeps, "wallMaintainer"),
      WithRole(creeps, "rampartMaintainer"),
      WithRole(creeps, "roadMaintainer"),
      WithRole(creeps, "defender"),
      WithRole(creeps, "mineralMiner"))
  }

  /** No creep is in the lists of two different roles. */
  lemma RoleListsDisjoint(creeps: seq<Creep>, a: string, b: string, c: Creep)
    requires a != b
    ensures !(c in WithRole(creeps, a) && c in WithRole(creeps, b))
  {
  }

  /**
   * `n < Memory.rooms[room].jobs[role]`: false when the quota is missing,
   * since a comparison with `undefined` is false.
   */
  predicate Below(n: nat, jobs: map<string, int>, role: string) {
    role in jobs && n < jobs[role]
  }

  /** The number of creeps the manager counts for a role it may spawn. */
  function Count(lists: RoleLists, role: string): nat {
    match role
    case "hauler" => |lists.haulers|
    case "harvester" => |lists.harvesters|
    case "upgrader" => |lists.upgraders|
    case "builder" => |lists.builders|
    case _ => 0
  }

  /** The order in which roles are tried once there is a harvester. */
  function SpawnRank(role: string): nat {
    match role
    case "hauler" => 0
    case "harvester" => 1
    case "upgrader" => 2
    case "builder" => 3
    case _ => 4
  }

  /** True iff `role` is one of the four roles the manager spawns. */
  predicate Spawnable(role: string) {
    role == "hauler" || role == "harvester" || role == "upgrader" || role == "builder"
  }

  /**
   * The role-choice rule of `buildMissingCreeps`. With no harvester only a
   * harvester is ever chosen, and only below its quota. With at least one
   * harvester the first role below its quota in the order hauler,
   * harvester, upgrader, builder is chosen; every role tried before it is
   * at or above its quota.
   */
  function ChooseRole(lists: RoleLists, jobs: map<string, int>): (r: Option<string>)
    ensures r.Some? ==> Spawnable(r.value) && Below(Count(lists, r.value), jobs, r.value)
    ensures |lists.harvesters| == 0 ==>
      (r.Some? <==> Below(0, jobs, "harvester")) && (r.Some? ==> r.value == "harvester")
    ensures |lists.harvesters| >= 1 ==>
      (r.None? <==> forall role :: Spawnable(role) ==> !Below(Count(lists, role), jobs, role))
    ensures |lists.harvesters| >= 1 && r.Some? ==>
      forall role :: Spawnable(role) && SpawnRank(role) < SpawnRank(r.value) ==> !Below(Count(lists, role), jobs, role)
  {
    var harvesters := |lists.harvesters|;
    if harvesters >= 1 then
      if |lists.haulers| < GetQuota(jobs, "hauler") then Some("hauler")
      else if harvesters < GetQuota(jobs, "harvester") then Some("harvester")
      else if |lists.upgraders| < GetQuota(jobs, "upgrader") then Some("upgrader")
      else if |lists.builders| < GetQuota(jobs, "builder") then Some("builder")
      else None
    else if harvesters < GetQuota(jobs, "harvester") then Some("harvester")
    else None
  }

  /** The quota of a role, with a missing quota treated as one no count is below. */
  function GetQuota(jobs: map<string, int>, role: string): (q: int)
    ensures forall n: nat :: n < q <==> Below(n, jobs, role)
  {
    if role in jobs then jobs[role] else 0
  }

  /** `OK` of the game API. */
  const OK: int := 0

  /** What `canCreateCreep` and `createCreep` return: an error code, or the new creep's name. */
  datatype SpawnStatus = Code(code: int) | Name(name: string)

  /** `_.isString(status) ? OK : status`. */
  function Normalize(s: SpawnStatus): (code: int)
    ensures s.Name? ==> code == OK
    ensures s.Code? ==> code == s.code
  {
    match s
    case Name(_) => OK
    case Code(c) => c
  }

  /** A spawn: its name, its room's name and what it is spawning (`null` when idle). */
  datatype SpawnState = SpawnState(name: string, roomName: string, spawning: Option<string>)

  /** The game calls the creep manager makes on a spawn. */
  datatype World = World(
    largest: (SpawnState, BodyTemplate) -> seq<string>,
    canCreate: (SpawnState, seq<string>) -> SpawnStatus,
    create: (SpawnState, seq<string>, string, CreepMemory) -> SpawnStatus)

  /** The name of a new creep: "(guid) room - role". */
  function CreepName(guid: int, room: string, role: string): string {
    "(" + IntToString(guid) + ") " + room + " - " + role
  }

  /** A creep name starts with "(", the guid's digits and ")". */
  lemma CreepNameLayout(g: nat, room: string, role: string)
    ensures var d := IntToString(g); var n := CreepName(g, room, role);
      |n| > |d| + 1 && n[1..|d| + 1] == d && n[|d| + 1] == ')'
      && forall i :: 1 <= i <= |d| ==> n[i] in "0123456789"
  {
    var d := IntToString(g);
    var n := CreepName(g, room, role);
    assert n == "(" + d + ")" + " " + room + " - " + role;
    IntToStringDigits(g);
    assert forall i :: 1 <= i <= |d| ==> n[i] == d[i - 1];
  }

  /** Different non-negative guids give different creep names, whatever the rooms and roles. */
  lemma CreepNamesDistinct(g1: nat, g2: nat, room1: string, role1: string, room2: string, role2: string)
    requires g1 != g2
    ensures CreepName(g1, room1, role1) != CreepName(g2, room2, role2)
  {
    var d1, d2 := IntToString(g1), IntToString(g2);
    var n1, n2 := CreepName(g1, room1, role1), CreepName(g2, room2, role2);
    CreepNameLayout(g1, room1, role1);
    CreepNameLayout(g2, room2, role2);
    if |d1| < |d2| {
      assert n1[|d1| + 1] != n2[|d1| + 1];
    } else if |d2| < |d1| {
      assert n1[|d2| + 1] != n2[|d2| + 1];
    } else if d1 == d2 {
      IntToStringInjective(g1, g2);
    } else {
      assert n1[1..|d1| + 1] != n2[1..|d2| + 1];
    }
  }

  /** The memory a new creep is created with: `{role, room}`. */
  function CreepProperties(role: string, room: string): (m: CreepMemory)
    ensures m.Keys == {"role", "room"}
    ensures m["role"] == Str(role) && m["room"] == Str(room)
  {
    map["role" := Str(role), "room" := Str(room)]
  }

  /** The outcome of one `spawnCreep`: the stored guid after it and the status returned. */
  datatype SpawnResult = SpawnResult(guid: Option<int>, status: int)

  /**
   * `spawnCreep(spawn, bodyParts, role)` on the stored guid: the old
   * orchestrator's `getGuid` may reset it; when `canCreateCreep` yields OK
   * or a name, the guid is advanced past the one used and the creep is
   * created as "(guid) room - role" with memory {role, room}; otherwise
   * the error code is returned and the guid stays as `getGuid` left it.
   */
  function SpawnOutcome(stored: Option<int>, spawn: SpawnState, bodyParts: seq<string>, role: string, world: World)
    : (r: SpawnResult)
    ensures var g := OrchestratorGuid(stored);
      (r.guid == Some(g + 1) <==> Normalize(world.canCreate(spawn, bodyParts)) == OK)
      && (Normalize(world.canCreate(spawn, bodyParts)) == OK ==>
            r.status == Normalize(world.create(spawn, bodyParts, CreepName(g, spawn.roomName, role),
                                               CreepProperties(role, spawn.roomName))))
      && (Normalize(world.canCreate(spawn, bodyParts)) != OK ==>
            r.guid == OrchestratorStore(stored) && r.status == Normalize(world.canCreate(spawn, bodyParts)))
  {
    var g := OrchestratorGuid(stored);
    var status := Normalize(world.canCreate(spawn, bodyParts));
    if status == OK then
      var name := CreepName(g, spawn.roomName, role);
      SpawnResult(Some(g + 1), Normalize(world.create(spawn, bodyParts, name, CreepProperties(role, spawn.roomName))))
    else
      SpawnResult(OrchestratorStore(stored), status)
  }

  /**
   * The names of two creeps spawned one after the other differ, as long as
   * the first guid is below the orchestrator's reset bound.
   */
  lemma SuccessiveSpawnsDistinct(stored: Option<int>, s1: SpawnState, b1: seq<string>, role1: string,
                                 s2: SpawnState, role2: string, world: World)
    requires stored.None? || 0 <= stored.value
    requires OrchestratorGuid(stored) < 10000
    requires Normalize(world.canCreate(s1, b1)) == OK
    ensures var g1 := OrchestratorGuid(stored);
      var g2 := OrchestratorGuid(SpawnOutcome(stored, s1, b1, role1, world).guid);
      g2 == g1 + 1 && CreepName(g1, s1.roomName, role1) != CreepName(g2, s2.roomName, role2)
  {
    var g1 := OrchestratorGuid(stored);
    var after := SpawnOutcome(stored, s1, b1, role1, world).guid;
    assert after == Some(g1 + 1);
    CreepNamesDistinct(g1, g1 + 1, s1.roomName, role1, s2.roomName, role2);
  }

  /** `spawnCreep(spawn, bodyParts, role)` on the game's `Memory`. */
  method SpawnCreep(memory: Memory, spawn: SpawnState, bodyParts: seq<string>, role: string, world: World)
    returns (status: int)
    modifies memory
    ensures var r := SpawnOutcome(old(memory.guid), spawn, bodyParts, role, world);
      memory.guid == r.guid && status == r.status
    ensures memory.creeps == old(memory.creeps) && memory.rooms == old(memory.rooms)
    ensures memory.flags == old(memory.flags) && memory.spawns == old(memory.spawns) && memory.modules == old(memory.modules)
  {
    var guid := memory.OrchestratorGetGuid();
    status := Normalize(world.canCreate(spawn, bodyParts));
    var properties := CreepProperties(role, spawn.roomName);
    if status == OK {
      memory.guid := Some(guid + 1);
      var creepName := CreepName(guid, spawn.roomName, role);
      status := Normalize(world.create(spawn, bodyParts, creepName, properties));
    }
  }

  /** The room-spawn search filter `spawn.spawning === null`. */
  predicate Idle(s: SpawnState) {
    s.spawning.None?
  }

  /** A spawn attempt: the spawn used, the role spawned and the status returned. */
  datatype Attempt = Attempt(spawn: SpawnState, role: string, status: int)

  /**
   * `buildMissingCreeps()`: walks the idle spawns of the room and, at the
   * first one for which a role is chosen, spawns that role and stops. The
   * choice depends only on the role counts and quotas, so at most one
   * attempt is made, on the first idle spawn, and only when some role is chosen.
   */
  method BuildMissingCreeps(memory: Memory, lists: RoleLists, jobs: map<string, int>,
                            roomSpawns: seq<SpawnState>, world: World)
    returns (attempt: Option<Attempt>)
    modifies memory
    ensures var idle := Filter(roomSpawns, Idle);
      (attempt.Some? <==> idle != [] && ChooseRole(lists, jobs).Some?)
      && (attempt.Some? ==> attempt.value.spawn == idle[0] && attempt.value.role == ChooseRole(lists, jobs).value)
    ensures attempt.None? ==> memory.guid == old(memory.guid)
    ensures attempt.Some? ==>
      var a := attempt.value;
      var r := SpawnOutcome(old(memory.guid), a.spawn, GetBodyParts(a.role, s => world.largest(a.spawn, s)), a.role, world);
      memory.guid == r.guid && a.status == r.status
    ensures memory.creeps == old(memory.creeps) && memory.rooms == old(memory.rooms)
    ensures memory.flags == old(memory.flags) && memory.spawns == old(memory.spawns) && memory.modules == old(memory.modules)
  {
    var spawns := Filter(roomSpawns, Idle);
    attempt := None;
    var i := 0;
    while i < |spawns|
      invariant 0 <= i <= |spawns|
      invariant attempt.None? && memory.guid == old(memory.guid)
      invariant memory.creeps == old(memory.creeps) && memory.rooms == old(memory.rooms)
      invariant memory.flags == old(memory.flags) && memory.spawns == old(memory.spawns) && memory.modules == old(memory.modules)
      invariant i > 0 ==> ChooseRole(lists, jobs).None?
    {
      var spawn := spawns[i];
      var role := ChooseRole(lists, jobs);
      if role.Some? {
        var bodyParts := GetBodyParts(role.value, s => world.largest(spawn, s));
        var status := SpawnCreep(memory, spawn, bodyParts, role.value, world);
        attempt := Some(Attempt(spawn, role.value, status));
        break;
      }
      i := i + 1;
    }
  }
}
