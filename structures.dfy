/**
 * The structure queries of src/shared/structureManager.ts and the
 * `needEnergy` predicate of src/prototypes/Structure.prototype.ts. Game
 * structures are plain records: a type tag, the energy fields and the total
 * and capacity of the general store. Every query is a chain of `filter`
 * calls over the structures found at construction, where a later filter is
 * consulted only when the earlier ones found nothing.
 */
module Structures {
  import opened Base

  /** The `structureType` tags the game layer distinguishes. */
  datatype StructureType =
    | Spawn | Extension | Road | ConstructedWall | Rampart | Container | Tower | Storage
    | OtherType(name: string)

  /**
   * A structure as the queries see it. `storeTotal` is `_.sum(store)`. The
   * `instanceof Spawn` and `instanceof StructureExtension` tests of the
   * source coincide with the type tag, so only the tag is kept.
   */
  datatype Structure = Structure(
    kind: StructureType,
    energy: int,
    energyCapacity: int,
    storeTotal: int,
    storeCapacity: int)

  /** A container whose store is not full. */
  predicate OpenContainer(s: Structure) {
    s.kind == Container && s.storeTotal < s.storeCapacity
  }

  /** An extension or spawn holding less energy than it can. */
  predicate RefillableSpawnOrExtension(s: Structure) {
    (s.kind == Extension || s.kind == Spawn) && s.energy < s.energyCapacity
  }

  /** A storage holding more than 500 units. */
  predicate StockedStorage(s: Structure) {
    s.kind == Storage && s.storeTotal > 500
  }

  /** A container holding more than 500 units. */
  predicate StockedContainer(s: Structure) {
    s.kind == Container && s.storeTotal > 500
  }

  predicate RefillableSpawn(s: Structure) {
    s.kind == Spawn && s.energy < s.energyCapacity
  }

  predicate RefillableExtension(s: Structure) {
    s.kind == Extension && s.energy < s.energyCapacity
  }

  /**
   * A tower below half its capacity: `energy < energyCapacity -
   * energyCapacity * 0.5`, which for whole numbers is `2 * energy < energyCapacity`.
   */
  predicate HungryTower(s: Structure) {
    s.kind == Tower && 2 * s.energy < s.energyCapacity
  }

  /** A storage whose store is not full. */
  predicate OpenStorage(s: Structure) {
    s.kind == Storage && s.storeTotal < s.storeCapacity
  }

  /** `r` lists exactly the elements of `s` that satisfy `p`, in the order of `s`. */
  ghost predicate Selects(r: seq<Structure>, s: seq<Structure>, p: Structure -> bool) {
    (forall x :: x in r <==> x in s && p(x))
    && (forall x :: multiset(r)[x] == if p(x) then multiset(s)[x] else 0)
    && SubsequenceOf(r, s)
  }

  /** True iff some structure in `s` satisfies `p`. */
  ghost predicate AnyOf(s: seq<Structure>, p: Structure -> bool) {
    exists x :: x in s && p(x)
  }

  /** The state of a StructureManager: the structures found and their number. */
  datatype StructureManager = StructureManager(structures: seq<Structure>, structureCount: int)
  {
    /**
     * `getStorageObjects()`: the non-full containers; only when there are
     * none, the extensions and spawns that can take more energy.
     */
    function GetStorageObjects(): (r: seq<Structure>)
      ensures AnyOf(structures, OpenContainer) ==> Selects(r, structures, OpenContainer)
      ensures !AnyOf(structures, OpenContainer) ==> Selects(r, structures, RefillableSpawnOrExtension)
      ensures r == [] <==> !AnyOf(structures, OpenContainer) && !AnyOf(structures, RefillableSpawnOrExtension)
    {
      var containers := Filter(structures, OpenContainer);
      if |containers| == 0 then Filter(structures, RefillableSpawnOrExtension) else containers
    }

    /**
     * `getSourceWithdrawalPoints()`: the storages holding more than 500; only
     * when there are none, the containers holding more than 500. The
     * declared result may be `undefined`, but `targets || undefined` on an
     * array always yields the array, so the result is always present.
     */
    function GetSourceWithdrawalPoints(): (r: Option<seq<Structure>>)
      ensures r.Some?
      ensures AnyOf(structures, StockedStorage) ==> Selects(r.value, structures, StockedStorage)
      ensures !AnyOf(structures, StockedStorage) ==> Selects(r.value, structures, StockedContainer)
      ensures r.value == [] <==> !AnyOf(structures, StockedStorage) && !AnyOf(structures, StockedContainer)
    {
      var storages := Filter(structures, StockedStorage);
      var targets := if |storages| == 0 then Filter(structures, StockedContainer) else storages;
      Some(targets)
    }

    /**
     * `getDropOffPoints()`: four tiers tried in order (non-full spawns,
     * non-full extensions, towers below half capacity, non-full storages); a
     * tier is consulted only when every earlier tier came up empty.
     */
    function GetDropOffPoints(): (r: seq<Structure>)
      ensures AnyOf(structures, RefillableSpawn) ==> Selects(r, structures, RefillableSpawn)
      ensures !AnyOf(structures, RefillableSpawn) && AnyOf(structures, RefillableExtension) ==>
        Selects(r, structures, RefillableExtension)
      ensures (!AnyOf(structures, RefillableSpawn) && !AnyOf(structures, RefillableExtension)
               && AnyOf(structures, HungryTower)) ==> Selects(r, structures, HungryTower)
      ensures (!AnyOf(structures, RefillableSpawn) && !AnyOf(structures, RefillableExtension)
               && !AnyOf(structures, HungryTower)) ==> Selects(r, structures, OpenStorage)
    {
      var spawns := Filter(structures, RefillableSpawn);
      if |spawns| != 0 then spawns
      else
        var extensions := Filter(structures, RefillableExtension);
        if |extensions| != 0 then extensions
        else
          var towers := Filter(structures, HungryTower);
          if |towers| != 0 then towers
          else Filter(structures, OpenStorage)
    }
  }

  /** The constructor: keeps the structures found and counts them. */
  function NewStructureManager(found: seq<Structure>): (m: StructureManager)
    ensures m.structures == found && m.structureCount == |found|
  {
    StructureManager(found, |found|)
  }

  /** Every query result is an order-preserving selection from the structures. */
  lemma QueriesSelectFromStructures(m: StructureManager)
    ensures SubsequenceOf(m.GetStorageObjects(), m.structures)
    ensures SubsequenceOf(m.GetSourceWithdrawalPoints().value, m.structures)
    ensures SubsequenceOf(m.GetDropOffPoints(), m.structures)
  {
  }

  /**
   * `needEnergy()`: only extensions and towers ever need energy; a tower
   * needs it below 100 units whatever its capacity, an extension below its capacity.
   */
  function NeedEnergy(s: Structure): (b: bool)
    ensures s.kind != Extension && s.kind != Tower ==> !b
    ensures s.kind == Tower ==> (b <==> s.energy < 100)
    ensures s.kind == Extension ==> (b <==> s.energy < s.energyCapacity)
  {
    if s.kind != Extension && s.kind != Tower then false
    else if s.kind == Tower then s.energy < 100
    else s.energy < s.energyCapacity
  }

  /** Whether a tower needs energy does not depend on its capacity. */
  lemma TowerNeedIgnoresCapacity(s: Structure, capacity: int)
    requires s.kind == Tower
    ensures NeedEnergy(s) == NeedEnergy(s.(energyCapacity := capacity))
  {
  }

  /** A tower holding 100 or more never needs energy, even when it is not full. */
  lemma StockedTowerNeedsNothing(s: Structure)
    requires s.kind == Tower && 100 <= s.energy < s.energyCapacity
    ensures !NeedEnergy(s)
  {
  }
}
