/**
 * What the room orchestrator (src/room/roomOrchestrator.ts) and the room
 * manager (src/room/roomManager.ts) share: defaulting a falsy field of the
 * room memory, and the clean-up of `Memory.creeps` that deletes the
 * entries of this room's dead creeps and the empty entries of other rooms,
 * handing a dead source miner's claim back to a list in the room memory.
 */
module CreepCleanup {
  import opened Base
  import opened GameMemory

  /** `if (!m[key]) m[key] = v`: a falsy (or missing) field takes the default, a truthy one stays. */
  function DefaultField(m: map<string, Value>, key: string, v: Value): (r: map<string, Value>)
    ensures r.Keys == m.Keys + {key}
    ensures Truthy(Get(m, key)) ==> r == m
    ensures !Truthy(Get(m, key)) ==> r[key] == v
    ensures forall k :: k in m && k != key ==> r[k] == m[k]
  {
    if Truthy(Get(m, key)) then m else m[key := v]
  }

  /** Defaulting a field to a truthy value a second time changes nothing. */
  lemma DefaultFieldIdempotent(m: map<string, Value>, key: string, v: Value)
    requires Truthy(v)
    ensures DefaultField(DefaultField(m, key, v), key, v) == DefaultField(m, key, v)
  {
  }

  /** A field `push` can be called on once defaulted: falsy (it is replaced by `[]`) or already an array. */
  predicate ListOrFalsy(v: Value) {
    !Truthy(v) || v.Arr?
  }

  /** This entry belongs to the room named `roomName`: `creep.room === this.room.name`. */
  predicate OfRoom(c: CreepMemory, roomName: string) {
    Get(c, "room") == Str(roomName)
  }

  /**
   * The clean-up deletes an entry of this room exactly when its creep is
   * no longer in `Game.creeps`, and an entry of any other room exactly when
   * it has no keys.
   */
  predicate Doomed(c: CreepMemory, name: string, roomName: string, alive: set<string>) {
    if OfRoom(c, roomName) then name !in alive else |c| == 0
  }

  /** A deleted entry that hands its claim back: a dead source miner of this room. */
  predicate Hands(c: CreepMemory, name: string, roomName: string, alive: set<string>) {
    OfRoom(c, roomName) && name !in alive && Get(c, "role") == Str("sourceMiner")
  }

  /** The entries the clean-up keeps, unchanged. */
  function Survivors(creeps: map<string, CreepMemory>, roomName: string, alive: set<string>): map<string, CreepMemory> {
    map name | name in creeps && !Doomed(creeps[name], name, roomName, alive) :: creeps[name]
  }

  /** The names whose entries hand a claim back. */
  function Handing(creeps: map<string, CreepMemory>, roomName: string, alive: set<string>): set<string> {
    set name | name in creeps && Hands(creeps[name], name, roomName, alive)
  }

  /** The claims handed back by the entries named in `order`, in that order. */
  function Claims(creeps: map<string, CreepMemory>, order: seq<string>, claimKey: string): (r: seq<Value>)
    ensures |r| == |order|
    ensures forall i :: 0 <= i < |order| && order[i] in creeps ==> r[i] == Get(creeps[order[i]], claimKey)
    decreases |order|
  {
    if order == [] then []
    else
      var last := order[|order| - 1];
      Claims(creeps, order[..|order| - 1], claimKey)
        + [if last in creeps then Get(creeps[last], claimKey) else Undefined]
  }

  /** After the clean-up, every entry left that belongs to this room names a live creep. */
  lemma SurvivorsOfRoomAreAlive(creeps: map<string, CreepMemory>, roomName: string, alive: set<string>)
    ensures forall name :: name in Survivors(creeps, roomName, alive) && OfRoom(creeps[name], roomName) ==>
      name in alive
  {
  }

  /**
   * The entries the clean-up keeps: exactly the live creeps of this room and
   * the non-empty entries of other rooms, each with its memory unchanged.
   */
  lemma SurvivorsKept(creeps: map<string, CreepMemory>, roomName: string, alive: set<string>, name: string)
    requires name in creeps
    ensures name in Survivors(creeps, roomName, alive) <==>
      (OfRoom(creeps[name], roomName) && name in alive) || (!OfRoom(creeps[name], roomName) && |creeps[name]| > 0)
    ensures name in Survivors(creeps, roomName, alive) ==> Survivors(creeps, roomName, alive)[name] == creeps[name]
  {
  }

  /** A second clean-up with the same live creeps deletes nothing more. */
  lemma SurvivorsIdempotent(creeps: map<string, CreepMemory>, roomName: string, alive: set<string>)
    ensures Survivors(Survivors(creeps, roomName, alive), roomName, alive) == Survivors(creeps, roomName, alive)
  {
  }

  /** A handing entry is always one the clean-up deletes. */
  lemma HandingAreDeleted(creeps: map<string, CreepMemory>, roomName: string, alive: set<string>)
    ensures Handing(creeps, roomName, alive) !! Survivors(creeps, roomName, alive).Keys
  {
  }

  /** One more handed name appends its claim to the list the claims are pushed onto. */
  lemma ClaimsSnoc(creeps: map<string, CreepMemory>, order: seq<string>, name: string, claimKey: string, list: seq<Value>)
    requires name in creeps
    ensures Claims(creeps, order + [name], claimKey) == Claims(creeps, order, claimKey) + [Get(creeps[name], claimKey)]
    ensures list + Claims(creeps, order + [name], claimKey) == (list + Claims(creeps, order, claimKey)) + [Get(creeps[name], claimKey)]
  {
    assert (order + [name])[..|order + [name]| - 1] == order;
  }

  /**
   * The names still to visit are `todo`; `cur` is the dictionary so far:
   * every visited entry that is doomed is gone, everything else is there
   * with its old memory.
   */
  ghost predicate CleanedSoFar(cur: map<string, CreepMemory>, start: map<string, CreepMemory>, todo: set<string>,
                               roomName: string, alive: set<string>) {
    todo <= start.Keys
    && (forall name :: name in cur <==> name in start && (name in todo || !Doomed(start[name], name, roomName, alive)))
    && (forall name :: name in cur ==> cur[name] == start[name])
  }

  /** The names visited so far whose entries handed a claim back, each once. */
  ghost predicate HandedSoFar(order: seq<string>, start: map<string, CreepMemory>, todo: set<string>,
                              roomName: string, alive: set<string>) {
    Distinct(order)
    && forall name :: name in order <==> name in start && name !in todo && Hands(start[name], name, roomName, alive)
  }

  /** Visiting a doomed name deletes its entry. */
  lemma DeleteStep(cur: map<string, CreepMemory>, start: map<string, CreepMemory>, todo: set<string>,
                   roomName: string, alive: set<string>, name: string)
    requires CleanedSoFar(cur, start, todo, roomName, alive) && name in todo
    requires Doomed(start[name], name, roomName, alive)
    ensures CleanedSoFar(cur - {name}, start, todo - {name}, roomName, alive)
  {
  }

  /** Visiting a name that is not doomed keeps its entry. */
  lemma KeepStep(cur: map<string, CreepMemory>, start: map<string, CreepMemory>, todo: set<string>,
                 roomName: string, alive: set<string>, name: string)
    requires CleanedSoFar(cur, start, todo, roomName, alive) && name in todo
    requires !Doomed(start[name], name, roomName, alive)
    ensures CleanedSoFar(cur, start, todo - {name}, roomName, alive)
  {
  }

  /** Visiting a name records it exactly when it hands its claim back. */
  lemma HandStep(order: seq<string>, start: map<string, CreepMemory>, todo: set<string>,
                 roomName: string, alive: set<string>, name: string)
    requires HandedSoFar(order, start, todo, roomName, alive) && name in todo && name in start
    ensures Hands(start[name], name, roomName, alive) ==> HandedSoFar(order + [name], start, todo - {name}, roomName, alive)
    ensures !Hands(start[name], name, roomName, alive) ==> HandedSoFar(order, start, todo - {name}, roomName, alive)
  {
    if Hands(start[name], name, roomName, alive) {
      assert name !in order;
      forall i, j | 0 <= i < j < |order + [name]|
        ensures (order + [name])[i] != (order + [name])[j]
      {
        if j == |order| {
          assert (order + [name])[i] == order[i];
        } else {
          assert (order + [name])[i] == order[i] && (order + [name])[j] == order[j];
        }
      }
    }
  }

  /** When no name is left to visit, the dictionary holds exactly the survivors. */
  lemma CleanedAll(cur: map<string, CreepMemory>, start: map<string, CreepMemory>, roomName: string, alive: set<string>)
    requires CleanedSoFar(cur, start, {}, roomName, alive)
    ensures cur == Survivors(start, roomName, alive)
  {
  }

  /**
   * The `cleanupCreepMemory` loop shared by the room orchestrator and the
   * room manager, over the names of `start`, the dictionary when it begins
   * (the order of `for ... in` is not modelled; `order` is the order the
   * loop took). The doomed entries are deleted, the rest are kept as they
   * were, and the claim under `claimKey` of every dead source miner of this
   * room is appended, once, to `list`.
   */
  method CleanupLoop(start: map<string, CreepMemory>, roomName: string, alive: set<string>, list: seq<Value>,
                     claimKey: string)
    returns (creeps: map<string, CreepMemory>, newList: seq<Value>, ghost order: seq<string>)
    ensures creeps == Survivors(start, roomName, alive)
    ensures Distinct(order)
    ensures forall name :: name in order <==> name in Handing(start, roomName, alive)
    ensures newList == list + Claims(start, order, claimKey)
  {
    newList := list;
    order := [];
    creeps := start;
    var todo := start.Keys;
    while todo != {}
      invariant CleanedSoFar(creeps, start, todo, roomName, alive)
      invariant HandedSoFar(order, start, todo, roomName, alive)
      invariant newList == list + Claims(start, order, claimKey)
      decreases |todo|
    {
      var name :| name in todo;
      var creep := creeps[name];
      assert creep == start[name];
      HandStep(order, start, todo, roomName, alive, name);
      if OfRoom(creep, roomName) {
        if name !in alive {
          if Get(creep, "role") == Str("sourceMiner") {
            ClaimsSnoc(start, order, name, claimKey, list);
            newList := newList + [Get(creep, claimKey)];
            order := order + [name];
          }
          DeleteStep(creeps, start, todo, roomName, alive, name);
          creeps := creeps - {name};
        } else {
          KeepStep(creeps, start, todo, roomName, alive, name);
        }
      } else if |creep| == 0 {
        DeleteStep(creeps, start, todo, roomName, alive, name);
        creeps := creeps - {name};
      } else {
        KeepStep(creeps, start, todo, roomName, alive, name);
      }
      todo := todo - {name};
    }
    CleanedAll(creeps, start, roomName, alive);
  }

  /**
   * `cleanupCreepMemory()` on the global memory: with `Memory.creeps`
   * undefined nothing happens; otherwise the loop runs on the dictionary.
   * The loop deletes from its own copy, stored back at the end; as every
   * name is visited once and only the visited entry is deleted, this is the
   * same as deleting in place.
   */
  method CleanupCreeps(memory: Memory, roomName: string, alive: set<string>, list: seq<Value>, claimKey: string)
    returns (newList: seq<Value>, ghost order: seq<string>)
    modifies memory
    ensures old(memory.creeps).None? ==> memory.creeps == None && newList == list && order == []
    ensures old(memory.creeps).Some? ==>
      memory.creeps == Some(Survivors(old(memory.creeps).value, roomName, alive))
      && Distinct(order)
      && (forall name :: name in order <==> name in Handing(old(memory.creeps).value, roomName, alive))
      && newList == list + Claims(old(memory.creeps).value, order, claimKey)
    ensures memory.guid == old(memory.guid) && memory.flags == old(memory.flags) && memory.rooms == old(memory.rooms)
    ensures memory.spawns == old(memory.spawns) && memory.modules == old(memory.modules)
  {
    if memory.creeps.None? {
      newList := list;
      order := [];
    } else {
      var kept;
      kept, newList, order := CleanupLoop(memory.creeps.value, roomName, alive, list, claimKey);
      memory.creeps := Some(kept);
    }
  }
}
