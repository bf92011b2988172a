/**
 * The construction-site partition of src/shared/constructionSiteManager.ts
 * and the builder role of src/colony/role/type/builder.ts: its priority pick
 * of a site and the idle/building state rule of its `run`.
 */
module ConstructionSites {
  import opened Base
  import opened Structures

  /** A construction site: its game object id and the type of structure it will become. */
  datatype Site = Site(id: string, kind: StructureType)

  /** The seven structure types the manager sorts sites into. */
  predicate Listed(kind: StructureType) {
    kind == Road || kind == Extension || kind == Container || kind == ConstructedWall
    || kind == Rampart || kind == Tower || kind == Storage
  }

  /**
   * The position of a type in the builder's order road, extension,
   * container, wall, rampart, tower, storage; 7 for any other type.
   */
  function Rank(kind: StructureType): (n: nat)
    ensures n <= 7
    ensures n < 7 <==> Listed(kind)
  {
    if kind == Road then 0
    else if kind == Extension then 1
    else if kind == Container then 2
    else if kind == ConstructedWall then 3
    else if kind == Rampart then 4
    else if kind == Tower then 5
    else if kind == Storage then 6
    else 7
  }

  /** Types of equal rank below 7 are the same type. */
  lemma RankInjective(a: StructureType, b: StructureType)
    requires Listed(a) && Rank(a) == Rank(b)
    ensures a == b
  {
  }

  /** The manager's state: the sites found, their number and the seven per-type lists. */
  datatype ConstructionSiteManager = ConstructionSiteManager(
    constructionSites: seq<Site>,
    constructionSiteCount: int,
    roads: seq<Site>,
    extensions: seq<Site>,
    containers: seq<Site>,
    walls: seq<Site>,
    ramparts: seq<Site>,
    towers: seq<Site>,
    storages: seq<Site>)
  {
    /** The list the manager keeps for a type; no list for an unlisted type. */
    function ListFor(kind: StructureType): seq<Site> {
      match kind
      case Road => roads
      case Extension => extensions
      case Container => containers
      case ConstructedWall => walls
      case Rampart => ramparts
      case Tower => towers
      case Storage => storages
      case _ => []
    }
  }

  /**
   * `sites.filter(s => s.structureType === kind)`: exactly the sites of that
   * type, in their original order, each occurrence kept once.
   */
  function SitesOfKind(sites: seq<Site>, kind: StructureType): (l: seq<Site>)
    ensures forall x :: x in l <==> x in sites && x.kind == kind
    ensures forall x :: multiset(l)[x] == if x.kind == kind then multiset(sites)[x] else 0
    ensures SubsequenceOf(l, sites)
    decreases |sites|
  {
    if sites == [] then []
    else
      var rest := SitesOfKind(sites[1..], kind);
      assert sites == [sites[0]] + sites[1..];
      if sites[0].kind == kind then [sites[0]] + rest else rest
  }

  /**
   * The constructor followed by `getConstructionSites()`: counts the sites
   * and fills each of the seven lists by its type.
   */
  function NewConstructionSiteManager(sites: seq<Site>): (m: ConstructionSiteManager)
    ensures m.constructionSites == sites && m.constructionSiteCount == |sites|
    ensures m.roads == SitesOfKind(sites, Road) && m.extensions == SitesOfKind(sites, Extension)
    ensures m.containers == SitesOfKind(sites, Container) && m.walls == SitesOfKind(sites, ConstructedWall)
    ensures m.ramparts == SitesOfKind(sites, Rampart) && m.towers == SitesOfKind(sites, Tower)
    ensures m.storages == SitesOfKind(sites, Storage)
  {
    ConstructionSiteManager(
      sites, |sites|,
      SitesOfKind(sites, Road),
      SitesOfKind(sites, Extension),
      SitesOfKind(sites, Container),
      SitesOfKind(sites, ConstructedWall),
      SitesOfKind(sites, Rampart),
      SitesOfKind(sites, Tower),
      SitesOfKind(sites, Storage))
  }

  /** Each list of a constructed manager holds exactly the sites of its type. */
  lemma ListForIsFilter(sites: seq<Site>, kind: StructureType)
    requires Listed(kind)
    ensures NewConstructionSiteManager(sites).ListFor(kind) == SitesOfKind(sites, kind)
  {
  }

  /** No site is in the lists of two different types. */
  lemma CategoriesDisjoint(sites: seq<Site>, a: StructureType, b: StructureType, x: Site)
    requires Listed(a) && Listed(b) && a != b
    ensures var m := NewConstructionSiteManager(sites); !(x in m.ListFor(a) && x in m.ListFor(b))
  {
    ListForIsFilter(sites, a);
    ListForIsFilter(sites, b);
  }

  /** The sum of the lengths of the seven lists built from `s`. */
  function CategorizedCount(s: seq<Site>): int {
    |SitesOfKind(s, Road)| + |SitesOfKind(s, Extension)| + |SitesOfKind(s, Container)|
    + |SitesOfKind(s, ConstructedWall)| + |SitesOfKind(s, Rampart)| + |SitesOfKind(s, Tower)|
    + |SitesOfKind(s, Storage)|
  }

  /** Filtering a non-empty list keeps or drops its head and filters the rest. */
  lemma SitesOfKindHead(s: seq<Site>, kind: StructureType)
    requires s != []
    ensures |SitesOfKind(s, kind)| == |SitesOfKind(s[1..], kind)| + if s[0].kind == kind then 1 else 0
  {
  }

  /** A site counts once if its type is listed, and not at all otherwise. */
  lemma CategorizedHead(s: seq<Site>)
    requires s != []
    ensures CategorizedCount(s) == CategorizedCount(s[1..]) + if Listed(s[0].kind) then 1 else 0
  {
    SitesOfKindHead(s, Road);
    SitesOfKindHead(s, Extension);
    SitesOfKindHead(s, Container);
    SitesOfKindHead(s, ConstructedWall);
    SitesOfKindHead(s, Rampart);
    SitesOfKindHead(s, Tower);
    SitesOfKindHead(s, Storage);
  }

  /** The number of sites whose type is one of the seven listed types. */
  function ListedCount(s: seq<Site>): (n: nat)
    ensures n <= |s|
    ensures n == |s| <==> forall i :: 0 <= i < |s| ==> Listed(s[i].kind)
  {
    if s == [] then 0
    else
      var rest := ListedCount(s[1..]);
      assert forall i :: 1 <= i < |s| ==> s[i] == s[1..][i - 1];
      rest + if Listed(s[0].kind) then 1 else 0
  }

  /**
   * Each site lands in at most one list and sites of other types in none,
   * so the seven lengths add up to the number of sites of a listed type.
   */
  lemma {:induction false} CategorizedIsListedCount(s: seq<Site>)
    ensures CategorizedCount(s) == ListedCount(s)
  {
    if s != [] {
      CategorizedIsListedCount(s[1..]);
      CategorizedHead(s);
    }
  }

  /**
   * The seven list lengths of a manager add up to the number of its sites
   * of a listed type, and so to at most `constructionSiteCount`.
   */
  lemma ManagerListsFitCount(sites: seq<Site>)
    ensures var m := NewConstructionSiteManager(sites);
      |m.roads| + |m.extensions| + |m.containers| + |m.walls| + |m.ramparts| + |m.towers| + |m.storages|
      == ListedCount(sites) <= m.constructionSiteCount
  {
    CategorizedIsListedCount(sites);
  }

  /**
   * The builder's `getConstructionSite`: the first site of the first
   * non-empty list in the order road, extension, container, wall, rampart,
   * tower, storage; when all are empty, the first of `constructionSites`,
   * which is `undefined` for an empty list.
   */
  function GetConstructionSite(m: ConstructionSiteManager, constructionSites: seq<Site>): (r: Option<Site>)
    ensures r.None? <==> (forall k :: Listed(k) ==> m.ListFor(k) == []) && constructionSites == []
    ensures (forall k :: Listed(k) ==> m.ListFor(k) == []) && constructionSites != [] ==>
      r == Some(constructionSites[0])
  {
    assert m.ListFor(Road) == m.roads && m.ListFor(Extension) == m.extensions
      && m.ListFor(Container) == m.containers && m.ListFor(ConstructedWall) == m.walls
      && m.ListFor(Rampart) == m.ramparts && m.ListFor(Tower) == m.towers && m.ListFor(Storage) == m.storages;
    if |m.roads| > 0 then Some(m.roads[0])
    else if |m.extensions| > 0 then Some(m.extensions[0])
    else if |m.containers| > 0 then Some(m.containers[0])
    else if |m.walls| > 0 then Some(m.walls[0])
    else if |m.ramparts| > 0 then Some(m.ramparts[0])
    else if |m.towers| > 0 then Some(m.towers[0])
    else if |m.storages| > 0 then Some(m.storages[0])
    else if |constructionSites| > 0 then Some(constructionSites[0])
    else None
  }

  /** The listed type of rank `n`. */
  function KindAt(n: nat): (kind: StructureType)
    requires n < 7
    ensures Listed(kind) && Rank(kind) == n
  {
    [Road, Extension, Container, ConstructedWall, Rampart, Tower, Storage][n]
  }

  /**
   * When the list of type `kind` is non-empty and the lists of every type
   * ranked before it are empty, the pick is the first site of that list.
   */
  lemma PickIsFirstNonEmpty(m: ConstructionSiteManager, constructionSites: seq<Site>, kind: StructureType)
    requires Listed(kind) && m.ListFor(kind) != []
    requires forall j :: Listed(j) && Rank(j) < Rank(kind) ==> m.ListFor(j) == []
    ensures GetConstructionSite(m, constructionSites) == Some(m.ListFor(kind)[0])
  {
    var earlier := [m.ListFor(Road), m.ListFor(Extension), m.ListFor(Container), m.ListFor(ConstructedWall),
                    m.ListFor(Rampart), m.ListFor(Tower)];
    assert Rank(Road) == 0 && Rank(Extension) == 1 && Rank(Container) == 2 && Rank(ConstructedWall) == 3
      && Rank(Rampart) == 4 && Rank(Tower) == 5 && Rank(Storage) == 6;
  }

  /** The smallest rank at or after `from` whose list is non-empty, or 7 when there is none. */
  function FirstNonEmptyRank(m: ConstructionSiteManager, from: nat): (i: nat)
    requires from <= 7
    ensures from <= i <= 7
    ensures i < 7 ==> m.ListFor(KindAt(i)) != []
    ensures forall k :: from <= k < i ==> m.ListFor(KindAt(k)) == []
    decreases 7 - from
  {
    if from == 7 then 7
    else if m.ListFor(KindAt(from)) != [] then from
    else FirstNonEmptyRank(m, from + 1)
  }

  /**
   * On a constructed manager, the pick is undefined exactly when there are
   * no sites; otherwise it is one of the sites, and no site has a type
   * ranked before the pick's type.
   */
  lemma PickHasPriority(sites: seq<Site>)
    ensures var r := GetConstructionSite(NewConstructionSiteManager(sites), sites);
      (r.None? <==> sites == [])
      && (r.Some? ==> r.value in sites && forall x :: x in sites ==> Rank(r.value.kind) <= Rank(x.kind))
  {
    var m := NewConstructionSiteManager(sites);
    var r := GetConstructionSite(m, sites);
    var i := FirstNonEmptyRank(m, 0);
    if i < 7 {
      var kind := KindAt(i);
      forall j | Listed(j) && Rank(j) < Rank(kind)
        ensures m.ListFor(j) == []
      {
        RankInjective(j, KindAt(Rank(j)));
      }
      PickIsFirstNonEmpty(m, sites, kind);
      ListForIsFilter(sites, kind);
      assert r.value in m.ListFor(kind);
      forall x | x in sites
        ensures Rank(kind) <= Rank(x.kind)
      {
        if Rank(x.kind) < Rank(kind) {
          ListForIsFilter(sites, x.kind);
        }
      }
    } else {
      forall k | Listed(k)
        ensures m.ListFor(k) == []
      {
        RankInjective(k, KindAt(Rank(k)));
      }
      forall x | x in sites
        ensures Rank(x.kind) == 7
      {
        if Listed(x.kind) {
          ListForIsFilter(sites, x.kind);
        }
      }
    }
  }

  /** What a builder does in one `run`. */
  datatype BuilderAction =
    | RetrieveEnergy      // `tryRetrieveEnergy()`
    | BuildAt(site: Site) // next to the target: `creep.build(target)`
    | MoveTo(site: Site)  // elsewhere: `moveTo(target)`
    | NoTarget            // building, but no site to work on

  /** A state string is present when it is neither `undefined` nor the empty string. */
  predicate Truthy(state: Option<string>) {
    state.Some? && state.value != ""
  }

  /**
   * The state rule: an unset state or an empty carry makes the builder idle;
   * a builder that is not full and not building fetches energy with its
   * state left as it is; every other builder is building.
   */
  function NextState(state: Option<string>, carry: int, carryCapacity: int): (s: string)
    ensures !Truthy(state) || carry == 0 ==> (carry < carryCapacity ==> s == "idle")
    ensures carry < carryCapacity && Truthy(state) && carry != 0 && state.value != "building" ==> s == state.value
    ensures s != "building" <==> carry < carryCapacity && (!Truthy(state) || carry == 0 || state.value != "building")
  {
    var s1 := if !Truthy(state) then "idle" else state.value;
    var s2 := if carry == 0 then "idle" else s1;
    if carry < carryCapacity && s2 != "building" then s2 else "building"
  }

  /** The creep memory a builder reads and writes. */
  class BuilderMemory {
    var state: Option<string>

    constructor (state: Option<string>)
      ensures this.state == state
    {
      this.state := state;
    }
  }

  /**
   * The builder's `run`: updates `memory.state` and chooses one action. The
   * creep's carried total and capacity, whether it stands next to a site,
   * and the room's construction sites are inputs.
   */
  method BuilderRun(memory: BuilderMemory, carry: int, carryCapacity: int,
                    manager: ConstructionSiteManager, nearTo: Site -> bool)
    returns (action: BuilderAction)
    modifies memory
    ensures memory.state == Some(NextState(old(memory.state), carry, carryCapacity))
    ensures memory.state.value != "building" <==> action == RetrieveEnergy
    ensures memory.state.value == "building" ==>
      match GetConstructionSite(manager, manager.constructionSites)
      case None => action == NoTarget
      case Some(t) => action == (if nearTo(t) then BuildAt(t) else MoveTo(t))
  {
    if !Truthy(memory.state) {
      memory.state := Some("idle");
    }
    if carry == 0 {
      memory.state := Some("idle");
    }
    if carry < carryCapacity && memory.state != Some("building") {
      action := RetrieveEnergy;
    } else {
      memory.state := Some("building");
      var target := GetConstructionSite(manager, manager.constructionSites);
      if target.Some? {
        if nearTo(target.value) {
          action := BuildAt(target.value);
        } else {
          action := MoveTo(target.value);
        }
      } else {
        action := NoTarget;
      }
    }
  }
}
