/** The records the client mirrors from server snapshots
    (Scripts/EntityModels.cs), each with the defaults a freshly constructed
    C# object carries. Floating-point coordinates are exact reals. */
module EntityModels {
  import opened Json

  /** A unit. `kind`: 0 villager, 1 militia, 2 animal. `owner` 0 is neutral.
      `carryType`: 0 wood, 1 gold, 2 stone, 3 food. */
  datatype Unit = Unit(
    id: int, owner: int, kind: int, x: real, y: real, hp: int, maxHp: int,
    speed: real, carrying: int, carryType: int, visible: bool)

  /** A building. `kind`: 0 town centre, 1 barracks, 2 house. `state`: 0 under
      construction, 1 completed. `occupiedTiles` is only drawn, never used for
      collision. */
  datatype Building = Building(
    id: int, owner: int, kind: int, x: real, y: real, state: int, progress: int,
    hp: int, maxHp: int, visible: bool, occupiedTiles: seq<Tile>)

  /** A resource node. `kind`: 0 wood, 1 gold, 2 stone, 3 food. */
  datatype Resource = Resource(id: int, kind: int, amount: int, x: real, y: real, visible: bool)

  /** The player's stockpile and population counters. */
  datatype PlayerResources = PlayerResources(food: int, gold: int, stone: int, wood: int, pop: int, popCap: int)

  /** An out-of-band event record; `kind` is one of the codes below. The payload
      keeps the decoded JSON values under their keys. */
  datatype GameEvent = GameEvent(kind: int, tick: int, entityId: int, data: map<string, Json>)

  /** An integer grid coordinate, used for the fog-of-war tile lists. */
  datatype Tile = Tile(x: int, y: int)

  /** The training queue of one building; `items` are unit-type codes in order. */
  datatype TrainingQueue = TrainingQueue(
    buildingId: int, buildingType: int, items: seq<int>, currentTime: int, currentMax: int)

  /** One tick's authoritative payload. */
  datatype Snapshot = Snapshot(
    tick: int, mapWidth: int, mapHeight: int,
    units: seq<Unit>, buildings: seq<Building>,
    enemyUnitsInView: seq<Unit>, enemyBuildingsInView: seq<Building>,
    resources: seq<Resource>, events: seq<GameEvent>,
    playerResources: PlayerResources,
    visibleTiles: seq<Tile>, seenTiles: seq<Tile>,
    trainingQueues: seq<TrainingQueue>)

  // Event codes carried in GameEvent.kind.
  const EventCreate := 0
  const EventUpdate := 1
  const EventDestroy := 2
  const EventHidden := 3
  const EventFogUpdate := 4
  const EventQueueProgress := 5
  const EventResourceUpdate := 6
  const EventOverflow := 999

  /** The default map side, used by fresh snapshots and by the decoder. */
  const DefaultMapSize := 256

  /** `new Unit()`: every unset number is zero, except the maximum hit points
      (100) and the speed (0.1); the unit starts visible and carries nothing. */
  function NewUnit(): (u: Unit)
    ensures u.maxHp == 100 && u.speed == 0.1
    ensures u.carrying == 0 && u.carryType == 0
    ensures u.visible
  {
    Unit(0, 0, 0, 0.0, 0.0, 0, 100, 0.1, 0, 0, true)
  }

  /** `new Building()`: maximum hit points 1500, visible, no occupied tiles. */
  function NewBuilding(): (b: Building)
    ensures b.maxHp == 1500 && b.visible && b.occupiedTiles == []
  {
    Building(0, 0, 0, 0.0, 0.0, 0, 0, 0, 1500, true, [])
  }

  /** `new Resource()`: visible. */
  function NewResource(): (r: Resource)
    ensures r.visible
  {
    Resource(0, 0, 0, 0.0, 0.0, true)
  }

  /** `new PlayerResources()`: empty stockpiles, no population, cap of 10. */
  function NewPlayerResources(): (p: PlayerResources)
    ensures p.food == 0 && p.gold == 0 && p.stone == 0 && p.wood == 0
    ensures p.pop == 0 && p.popCap == 10
  {
    PlayerResources(0, 0, 0, 0, 0, 10)
  }

  /** `new TrainingQueue()`: an empty item list. */
  function NewTrainingQueue(): (q: TrainingQueue)
    ensures q.items == []
  {
    TrainingQueue(0, 0, [], 0, 0)
  }

  /** `new Snapshot()`: tick 0 on a 256 by 256 map, every list empty and the
      default player resources. */
  function NewSnapshot(): (s: Snapshot)
    ensures s.mapWidth == 256 && s.mapHeight == 256
    ensures s.units == [] && s.buildings == [] && s.enemyUnitsInView == []
    ensures s.enemyBuildingsInView == [] && s.resources == [] && s.events == []
    ensures s.visibleTiles == [] && s.seenTiles == [] && s.trainingQueues == []
    ensures s.playerResources == NewPlayerResources()
  {
    Snapshot(0, DefaultMapSize, DefaultMapSize, [], [], [], [], [], [],
             NewPlayerResources(), [], [], [])
  }

  /** Id accessors, used to key the mirror's collections. */
  function UnitKey(u: Unit): int { u.id }
  function BuildingKey(b: Building): int { b.id }
  function ResourceKey(r: Resource): int { r.id }
  function QueueKey(q: TrainingQueue): int { q.buildingId }
}
