/** The client's mirror of the authoritative world (Scripts/GameState.cs):
    five id-keyed entity collections, the fog-of-war tile sets, the training
    queues and the scalars of the latest snapshot. */
module GameState {
  import opened Wrappers
  import opened Json
  import opened Numeric
  import opened EntityModels
  import IdMap

  datatype State = State(
    currentTick: int,
    mapWidth: int,
    mapHeight: int,
    playerResources: PlayerResources,
    units: map<int, Unit>,
    enemyUnits: map<int, Unit>,
    buildings: map<int, Building>,
    enemyBuildings: map<int, Building>,
    resources: map<int, Resource>,
    visibleTiles: set<Tile>,
    seenTiles: set<Tile>,
    trainingQueues: map<int, TrainingQueue>,
    selectedEntityId: Option<int>)

  /** `new GameState()`: tick 0, a 256 by 256 map, default player resources,
      nothing known and nothing selected. */
  function Init(): (st: State)
    ensures st.currentTick == 0 && st.mapWidth == 256 && st.mapHeight == 256
    ensures st.playerResources == NewPlayerResources()
    ensures st.units == map[] && st.enemyUnits == map[] && st.buildings == map[]
    ensures st.enemyBuildings == map[] && st.resources == map[] && st.trainingQueues == map[]
    ensures st.visibleTiles == {} && st.seenTiles == {} && st.selectedEntityId == None
  {
    State(0, DefaultMapSize, DefaultMapSize, NewPlayerResources(),
          map[], map[], map[], map[], map[], {}, {}, map[], None)
  }

  /** The coordinates a tile list names. */
  function TileSet(tiles: seq<Tile>): set<Tile> {
    set i | 0 <= i < |tiles| :: tiles[i]
  }

  /** Everything apart from the five entity collections is equal. */
  ghost predicate SameOutsideEntities(a: State, b: State) {
    && a.currentTick == b.currentTick
    && a.mapWidth == b.mapWidth
    && a.mapHeight == b.mapHeight
    && a.playerResources == b.playerResources
    && a.visibleTiles == b.visibleTiles
    && a.seenTiles == b.seenTiles
    && a.trainingQueues == b.trainingQueues
    && a.selectedEntityId == b.selectedEntityId
  }

  /** The bulk part of `ApplySnapshot`, before the events: scalars copied,
      every collection reconciled against its list, visible tiles rebuilt,
      seen tiles grown, training queues replaced. */
  function Merge(st: State, s: Snapshot): (r: State)
    ensures r.currentTick == s.tick && r.mapWidth == s.mapWidth && r.mapHeight == s.mapHeight
    ensures r.playerResources == s.playerResources
    ensures IdMap.Mirrors(r.units, s.units, UnitKey)
    ensures IdMap.Mirrors(r.enemyUnits, s.enemyUnitsInView, UnitKey)
    ensures IdMap.Mirrors(r.buildings, s.buildings, BuildingKey)
    ensures IdMap.Mirrors(r.enemyBuildings, s.enemyBuildingsInView, BuildingKey)
    ensures IdMap.Mirrors(r.resources, s.resources, ResourceKey)
    ensures forall t :: t in r.visibleTiles <==> exists i :: 0 <= i < |s.visibleTiles| && s.visibleTiles[i] == t
    ensures forall t :: t in r.seenTiles <==> t in st.seenTiles || exists i :: 0 <= i < |s.seenTiles| && s.seenTiles[i] == t
    ensures IdMap.Mirrors(r.trainingQueues, s.trainingQueues, QueueKey)
    ensures r.selectedEntityId == st.selectedEntityId
  {
    State(
      s.tick, s.mapWidth, s.mapHeight, s.playerResources,
      IdMap.Reconcile(st.units, s.units, UnitKey),
      IdMap.Reconcile(st.enemyUnits, s.enemyUnitsInView, UnitKey),
      IdMap.Reconcile(st.buildings, s.buildings, BuildingKey),
      IdMap.Reconcile(st.enemyBuildings, s.enemyBuildingsInView, BuildingKey),
      IdMap.Reconcile(st.resources, s.resources, ResourceKey),
      TileSet(s.visibleTiles),
      st.seenTiles + TileSet(s.seenTiles),
      IdMap.Upsert(map[], s.trainingQueues, QueueKey),
      st.selectedEntityId)
  }

  function HideUnit(u: Unit): Unit { u.(visible := false) }
  function HideBuilding(b: Building): Building { b.(visible := false) }
  function HideResource(r: Resource): Resource { r.(visible := false) }

  /** The integer a ResourceUpdate payload carries under "amount", if any. */
  function AmountOf(data: map<string, Json>): Option<int> {
    if "amount" in data && data["amount"].JNum? then Some(Trunc(data["amount"].n)) else None
  }

  /** One event of `ProcessEvents`. Destroy drops the id from all five
      collections, Hidden marks it invisible wherever it is held,
      ResourceUpdate overwrites an existing resource's amount, and every other
      code changes nothing. */
  function ApplyEvent(st: State, e: GameEvent): (r: State)
    ensures SameOutsideEntities(r, st)
    ensures e.kind == EventDestroy ==>
      && r.units == st.units - {e.entityId} && r.enemyUnits == st.enemyUnits - {e.entityId}
      && r.buildings == st.buildings - {e.entityId} && r.enemyBuildings == st.enemyBuildings - {e.entityId}
      && r.resources == st.resources - {e.entityId}
    ensures e.kind == EventHidden ==>
      && r.units.Keys == st.units.Keys && r.enemyUnits.Keys == st.enemyUnits.Keys
      && r.buildings.Keys == st.buildings.Keys && r.enemyBuildings.Keys == st.enemyBuildings.Keys
      && r.resources.Keys == st.resources.Keys
      && (e.entityId in r.units ==> r.units[e.entityId] == st.units[e.entityId].(visible := false))
      && (e.entityId in r.enemyUnits ==> r.enemyUnits[e.entityId] == st.enemyUnits[e.entityId].(visible := false))
      && (e.entityId in r.buildings ==> r.buildings[e.entityId] == st.buildings[e.entityId].(visible := false))
      && (e.entityId in r.enemyBuildings ==> r.enemyBuildings[e.entityId] == st.enemyBuildings[e.entityId].(visible := false))
      && (e.entityId in r.resources ==> r.resources[e.entityId] == st.resources[e.entityId].(visible := false))
    ensures e.kind == EventResourceUpdate ==>
      && r.units == st.units && r.enemyUnits == st.enemyUnits
      && r.buildings == st.buildings && r.enemyBuildings == st.enemyBuildings
      && r.resources.Keys == st.resources.Keys
      && (e.entityId in st.resources && AmountOf(e.data).Some? ==>
            r.resources[e.entityId] == st.resources[e.entityId].(amount := AmountOf(e.data).value))
      && (e.entityId !in st.resources || AmountOf(e.data).None? ==> r.resources == st.resources)
    ensures e.kind !in {EventDestroy, EventHidden, EventResourceUpdate} ==> r == st
    ensures forall id :: id != e.entityId ==>
      && (id in r.units <==> id in st.units) && (id in r.units ==> r.units[id] == st.units[id])
      && (id in r.enemyUnits <==> id in st.enemyUnits) && (id in r.enemyUnits ==> r.enemyUnits[id] == st.enemyUnits[id])
      && (id in r.buildings <==> id in st.buildings) && (id in r.buildings ==> r.buildings[id] == st.buildings[id])
      && (id in r.enemyBuildings <==> id in st.enemyBuildings) && (id in r.enemyBuildings ==> r.enemyBuildings[id] == st.enemyBuildings[id])
      && (id in r.resources <==> id in st.resources) && (id in r.resources ==> r.resources[id] == st.resources[id])
  {
    var id := e.entityId;
    if e.kind == EventDestroy then
      st.(units := st.units - {id}, enemyUnits := st.enemyUnits - {id},
          buildings := st.buildings - {id}, enemyBuildings := st.enemyBuildings - {id},
          resources := st.resources - {id})
    else if e.kind == EventHidden then
      st.(units := IdMap.Adjust(st.units, id, HideUnit),
          enemyUnits := IdMap.Adjust(st.enemyUnits, id, HideUnit),
          buildings := IdMap.Adjust(st.buildings, id, HideBuilding),
          enemyBuildings := IdMap.Adjust(st.enemyBuildings, id, HideBuilding),
          resources := IdMap.Adjust(st.resources, id, HideResource))
    else if e.kind == EventResourceUpdate then
      match AmountOf(e.data)
      case Some(amount) =>
        if id in st.resources then st.(resources := st.resources[id := st.resources[id].(amount := amount)])
        else st
      case None => st
    else
      st
  }

  /** `ProcessEvents`: the events in list order. */
  function ProcessEvents(st: State, events: seq<GameEvent>): (r: State)
    ensures SameOutsideEntities(r, st)
    ensures r.units.Keys <= st.units.Keys && r.enemyUnits.Keys <= st.enemyUnits.Keys
    ensures r.buildings.Keys <= st.buildings.Keys && r.enemyBuildings.Keys <= st.enemyBuildings.Keys
    ensures r.resources.Keys <= st.resources.Keys
    decreases |events|
  {
    if |events| == 0 then st else ProcessEvents(ApplyEvent(st, events[0]), events[1..])
  }

  /** `ApplySnapshot`: the bulk merge followed by the snapshot's events. */
  function ApplySnapshot(st: State, s: Snapshot): (r: State)
    ensures r.currentTick == s.tick && r.mapWidth == s.mapWidth && r.mapHeight == s.mapHeight
    ensures r.playerResources == s.playerResources
    ensures r.visibleTiles == TileSet(s.visibleTiles) && r.seenTiles == st.seenTiles + TileSet(s.seenTiles)
    ensures IdMap.Mirrors(r.trainingQueues, s.trainingQueues, QueueKey)
    ensures r.selectedEntityId == st.selectedEntityId
    ensures r.units.Keys <= IdMap.Ids(s.units, UnitKey)
    ensures r.enemyUnits.Keys <= IdMap.Ids(s.enemyUnitsInView, UnitKey)
    ensures r.buildings.Keys <= IdMap.Ids(s.buildings, BuildingKey)
    ensures r.enemyBuildings.Keys <= IdMap.Ids(s.enemyBuildingsInView, BuildingKey)
    ensures r.resources.Keys <= IdMap.Ids(s.resources, ResourceKey)
  {
    ProcessEvents(Merge(st, s), s.events)
  }

  /** Some event of the list is a Destroy for `id`. */
  ghost predicate Destroyed(events: seq<GameEvent>, id: int) {
    exists i :: 0 <= i < |events| && events[i].kind == EventDestroy && events[i].entityId == id
  }

  /** Some event of the list names `id`. */
  ghost predicate Mentioned(events: seq<GameEvent>, id: int) {
    exists i :: 0 <= i < |events| && events[i].entityId == id
  }

  /** `r` holds `id` in each collection exactly when `st` does and no event
      destroyed it. */
  ghost predicate KeysAfterEvents(st: State, r: State, events: seq<GameEvent>) {
    forall id ::
      && (id in r.units <==> id in st.units && !Destroyed(events, id))
      && (id in r.enemyUnits <==> id in st.enemyUnits && !Destroyed(events, id))
      && (id in r.buildings <==> id in st.buildings && !Destroyed(events, id))
      && (id in r.enemyBuildings <==> id in st.enemyBuildings && !Destroyed(events, id))
      && (id in r.resources <==> id in st.resources && !Destroyed(events, id))
  }

  /** Events never create entities and touch nothing but the five collections:
      an id survives them exactly when no Destroy names it. */
  lemma {:induction false} ProcessEventsKeys(st: State, events: seq<GameEvent>)
    ensures SameOutsideEntities(ProcessEvents(st, events), st)
    ensures KeysAfterEvents(st, ProcessEvents(st, events), events)
    decreases |events|
  {
    if |events| > 0 {
      var e := events[0];
      var tail := events[1..];
      var st1 := ApplyEvent(st, e);
      ProcessEventsKeys(st1, tail);
      forall id
        ensures Destroyed(events, id) <==> (e.kind == EventDestroy && e.entityId == id) || Destroyed(tail, id)
      {
        if Destroyed(tail, id) {
          var i :| 0 <= i < |tail| && tail[i].kind == EventDestroy && tail[i].entityId == id;
          assert events[i + 1] == tail[i];
        }
        if Destroyed(events, id) {
          var i :| 0 <= i < |events| && events[i].kind == EventDestroy && events[i].entityId == id;
          if i > 0 {
            assert tail[i - 1] == events[i];
          }
        }
      }
    }
  }

  /** Events that never name `id` leave its entries as they were. */
  lemma {:induction false} ProcessEventsSparesUnmentioned(st: State, events: seq<GameEvent>, id: int)
    requires !Mentioned(events, id)
    ensures var r := ProcessEvents(st, events);
      && (id in r.units ==> id in st.units && r.units[id] == st.units[id])
      && (id in r.enemyUnits ==> id in st.enemyUnits && r.enemyUnits[id] == st.enemyUnits[id])
      && (id in r.buildings ==> id in st.buildings && r.buildings[id] == st.buildings[id])
      && (id in r.enemyBuildings ==> id in st.enemyBuildings && r.enemyBuildings[id] == st.enemyBuildings[id])
      && (id in r.resources ==> id in st.resources && r.resources[id] == st.resources[id])
    decreases |events|
  {
    if |events| > 0 {
      var tail := events[1..];
      assert events[0].entityId != id;
      ProcessEventsSparesUnmentioned(ApplyEvent(st, events[0]), tail, id);
    }
  }

  /** What one `ApplySnapshot` leaves behind: the snapshot's scalars and
      tiles, seen tiles grown, its training queues and nothing older, and in
      each collection exactly the listed ids that no Destroy event names. */
  lemma ApplySnapshotEffect(st: State, s: Snapshot)
    ensures var r := ApplySnapshot(st, s);
      && r.currentTick == s.tick && r.mapWidth == s.mapWidth && r.mapHeight == s.mapHeight
      && r.playerResources == s.playerResources
      && r.visibleTiles == TileSet(s.visibleTiles)
      && r.seenTiles == st.seenTiles + TileSet(s.seenTiles)
      && IdMap.Mirrors(r.trainingQueues, s.trainingQueues, QueueKey)
      && r.selectedEntityId == st.selectedEntityId
      && forall id ::
        && (id in r.units <==> id in IdMap.Ids(s.units, UnitKey) && !Destroyed(s.events, id))
        && (id in r.enemyUnits <==> id in IdMap.Ids(s.enemyUnitsInView, UnitKey) && !Destroyed(s.events, id))
        && (id in r.buildings <==> id in IdMap.Ids(s.buildings, BuildingKey) && !Destroyed(s.events, id))
        && (id in r.enemyBuildings <==> id in IdMap.Ids(s.enemyBuildingsInView, BuildingKey) && !Destroyed(s.events, id))
        && (id in r.resources <==> id in IdMap.Ids(s.resources, ResourceKey) && !Destroyed(s.events, id))
  {
    ProcessEventsKeys(Merge(st, s), s.events);
  }

  /** No grace period: an id the new snapshot does not list in a collection is
      gone from that collection afterwards, whatever it held before. */
  lemma AbsentIdIsRemoved(st: State, s: Snapshot, id: int)
    ensures var r := ApplySnapshot(st, s);
      && (id !in IdMap.Ids(s.units, UnitKey) ==> id !in r.units)
      && (id !in IdMap.Ids(s.enemyUnitsInView, UnitKey) ==> id !in r.enemyUnits)
      && (id !in IdMap.Ids(s.buildings, BuildingKey) ==> id !in r.buildings)
      && (id !in IdMap.Ids(s.enemyBuildingsInView, BuildingKey) ==> id !in r.enemyBuildings)
      && (id !in IdMap.Ids(s.resources, ResourceKey) ==> id !in r.resources)
  {
    ApplySnapshotEffect(st, s);
  }

  /** A tile once seen stays seen, whatever later snapshots say. */
  lemma SeenNeverShrinks(st: State, s: Snapshot)
    ensures st.seenTiles <= ApplySnapshot(st, s).seenTiles
  {
    ApplySnapshotEffect(st, s);
  }

  /** Last entry wins: an entity that no event names is stored as the last
      record the snapshot lists under its id. */
  lemma UnmentionedEntityIsLatest(st: State, s: Snapshot, id: int)
    requires !Mentioned(s.events, id)
    ensures var r := ApplySnapshot(st, s);
      && (id in r.units <==> id in IdMap.Ids(s.units, UnitKey))
      && (id in r.units ==> r.units[id] == IdMap.Latest(s.units, UnitKey, id))
      && (id in r.enemyUnits ==>
            id in IdMap.Ids(s.enemyUnitsInView, UnitKey) && r.enemyUnits[id] == IdMap.Latest(s.enemyUnitsInView, UnitKey, id))
      && (id in r.buildings ==>
            id in IdMap.Ids(s.buildings, BuildingKey) && r.buildings[id] == IdMap.Latest(s.buildings, BuildingKey, id))
      && (id in r.enemyBuildings ==>
            id in IdMap.Ids(s.enemyBuildingsInView, BuildingKey) && r.enemyBuildings[id] == IdMap.Latest(s.enemyBuildingsInView, BuildingKey, id))
      && (id in r.resources ==>
            id in IdMap.Ids(s.resources, ResourceKey) && r.resources[id] == IdMap.Latest(s.resources, ResourceKey, id))
  {
    var m := Merge(st, s);
    ProcessEventsSparesUnmentioned(m, s.events, id);
    ProcessEventsKeys(m, s.events);
    assert !Destroyed(s.events, id);
  }

  /** A Destroy event removes its id from all five collections; applying it
      again changes nothing. */
  lemma DestroyIsIdempotent(st: State, e: GameEvent)
    requires e.kind == EventDestroy
    ensures ApplyEvent(ApplyEvent(st, e), e) == ApplyEvent(st, e)
  {
    var r1 := ApplyEvent(st, e);
    var r2 := ApplyEvent(r1, e);
    assert r2.units == r1.units;
    assert r2.enemyUnits == r1.enemyUnits;
    assert r2.buildings == r1.buildings;
    assert r2.enemyBuildings == r1.enemyBuildings;
    assert r2.resources == r1.resources;
  }

  /** A Hidden event applied twice has the effect of applying it once. */
  lemma HiddenIsIdempotent(st: State, e: GameEvent)
    requires e.kind == EventHidden
    ensures ApplyEvent(ApplyEvent(st, e), e) == ApplyEvent(st, e)
  {
    var r1 := ApplyEvent(st, e);
    var r2 := ApplyEvent(r1, e);
    assert r2.units == r1.units;
    assert r2.enemyUnits == r1.enemyUnits;
    assert r2.buildings == r1.buildings;
    assert r2.enemyBuildings == r1.enemyBuildings;
    assert r2.resources == r1.resources;
  }

  /** Applying the same snapshot twice in a row gives the state of applying it
      once. */
  lemma ApplySnapshotIsIdempotent(st: State, s: Snapshot)
    ensures ApplySnapshot(ApplySnapshot(st, s), s) == ApplySnapshot(st, s)
  {
    var once := ApplySnapshot(st, s);
    ProcessEventsKeys(Merge(st, s), s.events);
    var m1 := Merge(st, s);
    var m2 := Merge(once, s);
    IdMap.ReconcileForgetsPrior(st.units, once.units, s.units, UnitKey);
    IdMap.ReconcileForgetsPrior(st.enemyUnits, once.enemyUnits, s.enemyUnitsInView, UnitKey);
    IdMap.ReconcileForgetsPrior(st.buildings, once.buildings, s.buildings, BuildingKey);
    IdMap.ReconcileForgetsPrior(st.enemyBuildings, once.enemyBuildings, s.enemyBuildingsInView, BuildingKey);
    IdMap.ReconcileForgetsPrior(st.resources, once.resources, s.resources, ResourceKey);
    assert once.seenTiles == st.seenTiles + TileSet(s.seenTiles);
    assert m2.seenTiles == m1.seenTiles;
    assert m2 == m1;
  }

  /** Every stored entity sits under its own id (queues under their building id). */
  ghost predicate WellKeyed(st: State) {
    && (forall id :: id in st.units ==> st.units[id].id == id)
    && (forall id :: id in st.enemyUnits ==> st.enemyUnits[id].id == id)
    && (forall id :: id in st.buildings ==> st.buildings[id].id == id)
    && (forall id :: id in st.enemyBuildings ==> st.enemyBuildings[id].id == id)
    && (forall id :: id in st.resources ==> st.resources[id].id == id)
    && (forall id :: id in st.trainingQueues ==> st.trainingQueues[id].buildingId == id)
  }

  /** Events keep every entity under its own id. */
  lemma {:induction false} ProcessEventsKeepsWellKeyed(st: State, events: seq<GameEvent>)
    requires WellKeyed(st)
    ensures WellKeyed(ProcessEvents(st, events))
    decreases |events|
  {
    if |events| > 0 {
      ProcessEventsKeepsWellKeyed(ApplyEvent(st, events[0]), events[1..]);
    }
  }

  /** After any snapshot, whatever the mirror held before, every entity is
      stored under its own id. */
  lemma ApplySnapshotIsWellKeyed(st: State, s: Snapshot)
    ensures WellKeyed(ApplySnapshot(st, s))
  {
    var m := Merge(st, s);
    assert WellKeyed(m);
    ProcessEventsKeepsWellKeyed(m, s.events);
  }

  // The ResourceUpdate branch as the C# code is written. The parser copies
  // each payload value, a Godot `Variant`, into a `Dictionary<string, object>`,
  // which boxes it; `(int)evt.Data["amount"]` is then an unboxing cast of a
  // boxed `Variant` to `int`, which throws `InvalidCastException` whatever
  // the value. `ApplyEvent` above is the evidently intended behaviour and is
  // what the rest of the model uses.

  /** The C# ResourceUpdate branch reaches its cast: the payload has "amount"
      and the resource exists. */
  predicate CastThrows(st: State, e: GameEvent) {
    e.kind == EventResourceUpdate && "amount" in e.data && e.entityId in st.resources
  }

  /** One event as written: nothing when the cast throws, otherwise the same
      state as the intended `ApplyEvent`. */
  function ApplyEventAsWritten(st: State, e: GameEvent): (r: Option<State>)
    ensures r.None? <==> e.kind == EventResourceUpdate && "amount" in e.data && e.entityId in st.resources
    ensures r.Some? ==> r.value == ApplyEvent(st, e)
  {
    if CastThrows(st, e) then None else Some(ApplyEvent(st, e))
  }

  /** The state an event loop leaves, and whether it ran to the end. */
  datatype Outcome = Outcome(state: State, completed: bool)

  /** `ProcessEvents` as written: the loop stops at the first event whose cast
      throws, keeping what the earlier events did. */
  function ProcessEventsAsWritten(st: State, events: seq<GameEvent>): Outcome
    decreases |events|
  {
    if |events| == 0 then Outcome(st, true)
    else
      match ApplyEventAsWritten(st, events[0])
      case None => Outcome(st, false)
      case Some(st1) => ProcessEventsAsWritten(st1, events[1..])
  }

  /** `ApplySnapshot` as written: the bulk merge always happens, the events
      only up to the first throwing cast. */
  function ApplySnapshotAsWritten(st: State, s: Snapshot): Outcome {
    ProcessEventsAsWritten(Merge(st, s), s.events)
  }

  /** A loop that runs to the end leaves the state the intended one does. */
  lemma {:induction false} CompletedMatchesIntended(st: State, events: seq<GameEvent>)
    ensures ProcessEventsAsWritten(st, events).completed ==>
      ProcessEventsAsWritten(st, events).state == ProcessEvents(st, events)
    decreases |events|
  {
    if |events| > 0 && !CastThrows(st, events[0]) {
      CompletedMatchesIntended(ApplyEvent(st, events[0]), events[1..]);
    }
  }

  /** No cast throws on the first `k` events when they run as intended. */
  predicate NoCastBefore(st: State, events: seq<GameEvent>, k: int)
    requires 0 <= k <= |events|
  {
    forall j :: 0 <= j < k ==> !CastThrows(ProcessEvents(st, events[..j]), events[j])
  }

  /** Running a non-empty prefix is running its head, then the rest of it. */
  lemma PrefixStep(st: State, events: seq<GameEvent>, j: int)
    requires 1 <= j <= |events|
    ensures ProcessEvents(st, events[..j]) == ProcessEvents(ApplyEvent(st, events[0]), events[1..][..j - 1])
  {
    assert events[..j][0] == events[0];
    assert events[..j][1..] == events[1..][..j - 1];
  }

  /** When the head's cast does not throw, the casts of the first `k + 1`
      events are clear exactly when those of the first `k` events of the tail
      are, starting after the head. */
  lemma NoCastBeforeStep(st: State, events: seq<GameEvent>, k: int)
    requires 0 <= k < |events|
    requires !CastThrows(st, events[0])
    ensures NoCastBefore(st, events, k + 1) <==> NoCastBefore(ApplyEvent(st, events[0]), events[1..], k)
  {
    var st1 := ApplyEvent(st, events[0]);
    var tail := events[1..];
    assert events[..0] == [];
    forall j | 1 <= j <= k + 1
      ensures ProcessEvents(st, events[..j]) == ProcessEvents(st1, tail[..j - 1])
    {
      PrefixStep(st, events, j);
    }
    if NoCastBefore(st1, tail, k) {
      forall j | 0 <= j < k + 1
        ensures !CastThrows(ProcessEvents(st, events[..j]), events[j])
      {
        if j > 0 {
          assert !CastThrows(ProcessEvents(st1, tail[..j - 1]), tail[j - 1]);
        }
      }
    }
    if NoCastBefore(st, events, k + 1) {
      forall j | 0 <= j < k
        ensures !CastThrows(ProcessEvents(st1, tail[..j]), tail[j])
      {
        assert !CastThrows(ProcessEvents(st, events[..j + 1]), events[j + 1]);
      }
    }
  }

  /** The loop as written runs to the end exactly when no event's cast
      throws in the state the events before it leave. */
  lemma {:induction false} CompletesIffNoCast(st: State, events: seq<GameEvent>)
    ensures ProcessEventsAsWritten(st, events).completed <==> NoCastBefore(st, events, |events|)
    decreases |events|
  {
    if |events| > 0 {
      if CastThrows(st, events[0]) {
        assert events[..0] == [];
        assert CastThrows(ProcessEvents(st, events[..0]), events[0]);
      } else {
        CompletesIffNoCast(ApplyEvent(st, events[0]), events[1..]);
        NoCastBeforeStep(st, events, |events| - 1);
      }
    }
  }

  /** A loop that stops has applied exactly a prefix of the events, with the
      intended effect, and stopped on the first event whose cast throws: none
      before it throws, and it throws in the state reached. */
  lemma {:induction false} StopsAtFirstCast(st: State, events: seq<GameEvent>)
    ensures var r := ProcessEventsAsWritten(st, events);
      !r.completed ==>
        exists k :: 0 <= k < |events| && NoCastBefore(st, events, k)
          && r.state == ProcessEvents(st, events[..k]) && CastThrows(r.state, events[k])
    decreases |events|
  {
    var r := ProcessEventsAsWritten(st, events);
    if |events| > 0 && !r.completed {
      if CastThrows(st, events[0]) {
        assert events[..0] == [];
        assert NoCastBefore(st, events, 0);
        assert r.state == ProcessEvents(st, events[..0]) && CastThrows(r.state, events[0]);
      } else {
        var st1 := ApplyEvent(st, events[0]);
        var tail := events[1..];
        StopsAtFirstCast(st1, tail);
        var k :| 0 <= k < |tail| && NoCastBefore(st1, tail, k)
          && r.state == ProcessEvents(st1, tail[..k]) && CastThrows(r.state, tail[k]);
        NoCastBeforeStep(st, events, k);
        PrefixStep(st, events, k + 1);
        assert events[k + 1] == tail[k];
        assert r.state == ProcessEvents(st, events[..k + 1]) && CastThrows(r.state, events[k + 1]);
      }
    }
  }

  /** Events without a ResourceUpdate carrying "amount" never reach the cast,
      so the loop as written runs to the end. */
  lemma {:induction false} NoAmountUpdateCompletes(st: State, events: seq<GameEvent>)
    requires forall i :: 0 <= i < |events| ==> !(events[i].kind == EventResourceUpdate && "amount" in events[i].data)
    ensures ProcessEventsAsWritten(st, events).completed
    decreases |events|
  {
    if |events| > 0 {
      var tail := events[1..];
      forall i | 0 <= i < |tail|
        ensures !(tail[i].kind == EventResourceUpdate && "amount" in tail[i].data)
      {
        assert tail[i] == events[i + 1];
      }
      NoAmountUpdateCompletes(ApplyEvent(st, events[0]), tail);
    }
  }

  /** A snapshot on which the code as written and the intended code part
      ways: resource 7 is listed, then updated, then destroyed. */
  function CastExample(): Snapshot {
    NewSnapshot().(
      resources := [Resource(7, 0, 100, 1.0, 1.0, true)],
      events := [GameEvent(EventResourceUpdate, 1, 7, map["amount" := JNum(5.0)]),
                 GameEvent(EventDestroy, 1, 7, map[])])
  }

  /** On `CastExample` the update's cast throws as written, so the Destroy
      never runs and resource 7 stays in the mirror with its old amount. As
      intended, resource 7 is gone. */
  lemma CastAbortsLaterDestroy()
    ensures !ApplySnapshotAsWritten(Init(), CastExample()).completed
    ensures 7 in ApplySnapshotAsWritten(Init(), CastExample()).state.resources
    ensures ApplySnapshotAsWritten(Init(), CastExample()).state.resources[7].amount == 100
    ensures 7 !in ApplySnapshot(Init(), CastExample()).resources
  {
    var s := CastExample();
    var m := Merge(Init(), s);
    assert IdMap.Ids(s.resources, ResourceKey) == {7};
    assert 7 in m.resources && m.resources[7] == s.resources[0];
    assert CastThrows(m, s.events[0]);
    ApplySnapshotEffect(Init(), s);
    assert s.events[1].kind == EventDestroy && s.events[1].entityId == 7;
    assert Destroyed(s.events, 7);
  }

  // Read accessors.

  /** `GetUnit`: the own unit with that id, or nothing. */
  function GetUnit(st: State, id: int): (r: Option<Unit>)
    ensures r.Some? <==> id in st.units
    ensures r.Some? ==> r.value == st.units[id]
    ensures WellKeyed(st) && r.Some? ==> r.value.id == id
  {
    if id in st.units then Some(st.units[id]) else None
  }

  /** `GetBuilding`: the own building with that id, or nothing. */
  function GetBuilding(st: State, id: int): (r: Option<Building>)
    ensures r.Some? <==> id in st.buildings
    ensures r.Some? ==> r.value == st.buildings[id]
    ensures WellKeyed(st) && r.Some? ==> r.value.id == id
  {
    if id in st.buildings then Some(st.buildings[id]) else None
  }

  /** `GetResource`: the resource with that id, or nothing. */
  function GetResource(st: State, id: int): (r: Option<Resource>)
    ensures r.Some? <==> id in st.resources
    ensures r.Some? ==> r.value == st.resources[id]
    ensures WellKeyed(st) && r.Some? ==> r.value.id == id
  {
    if id in st.resources then Some(st.resources[id]) else None
  }

  function IsVisibleUnit(u: Unit): bool { u.visible }
  function IsVisibleBuilding(b: Building): bool { b.visible }
  function IsVisibleResource(r: Resource): bool { r.visible }

  /** `GetVisibleUnits`: exactly the own units whose visibility flag is set. */
  function GetVisibleUnits(st: State): (r: map<int, Unit>)
    ensures forall id :: id in r <==> id in st.units && st.units[id].visible
    ensures forall id :: id in r ==> r[id] == st.units[id]
  {
    IdMap.Filter(st.units, IsVisibleUnit)
  }

  /** `GetVisibleEnemyUnits`: exactly the enemy units whose visibility flag is set. */
  function GetVisibleEnemyUnits(st: State): (r: map<int, Unit>)
    ensures forall id :: id in r <==> id in st.enemyUnits && st.enemyUnits[id].visible
    ensures forall id :: id in r ==> r[id] == st.enemyUnits[id]
  {
    IdMap.Filter(st.enemyUnits, IsVisibleUnit)
  }

  /** `GetVisibleBuildings`: exactly the own buildings whose visibility flag is set. */
  function GetVisibleBuildings(st: State): (r: map<int, Building>)
    ensures forall id :: id in r <==> id in st.buildings && st.buildings[id].visible
    ensures forall id :: id in r ==> r[id] == st.buildings[id]
  {
    IdMap.Filter(st.buildings, IsVisibleBuilding)
  }

  /** `GetVisibleEnemyBuildings`: exactly the enemy buildings whose visibility flag is set. */
  function GetVisibleEnemyBuildings(st: State): (r: map<int, Building>)
    ensures forall id :: id in r <==> id in st.enemyBuildings && st.enemyBuildings[id].visible
    ensures forall id :: id in r ==> r[id] == st.enemyBuildings[id]
  {
    IdMap.Filter(st.enemyBuildings, IsVisibleBuilding)
  }

  /** `GetVisibleResources`: exactly the resources whose visibility flag is set. */
  function GetVisibleResources(st: State): (r: map<int, Resource>)
    ensures forall id :: id in r <==> id in st.resources && st.resources[id].visible
    ensures forall id :: id in r ==> r[id] == st.resources[id]
  {
    IdMap.Filter(st.resources, IsVisibleResource)
  }

  /** A Hidden event takes its entity out of every visible view while leaving
      it in the mirror. */
  lemma HiddenLeavesVisibleViews(st: State, e: GameEvent)
    requires e.kind == EventHidden
    ensures var r := ApplyEvent(st, e);
      && e.entityId !in GetVisibleUnits(r) && e.entityId !in GetVisibleEnemyUnits(r)
      && e.entityId !in GetVisibleBuildings(r) && e.entityId !in GetVisibleEnemyBuildings(r)
      && e.entityId !in GetVisibleResources(r)
      && (e.entityId in r.units <==> e.entityId in st.units)
      && (e.entityId in r.resources <==> e.entityId in st.resources)
  {
  }

  /** `IsVisibleTile`. */
  function IsVisibleTile(st: State, x: int, y: int): bool {
    Tile(x, y) in st.visibleTiles
  }

  /** `IsSeenTile`. */
  function IsSeenTile(st: State, x: int, y: int): bool {
    Tile(x, y) in st.seenTiles
  }

  /** After a snapshot a tile is visible exactly when the snapshot lists it as
      visible, and seen exactly when it was seen before or the snapshot lists
      it as seen. */
  lemma TileQueriesAfterSnapshot(st: State, s: Snapshot, x: int, y: int)
    ensures var r := ApplySnapshot(st, s);
      && (IsVisibleTile(r, x, y) <==> exists i :: 0 <= i < |s.visibleTiles| && s.visibleTiles[i] == Tile(x, y))
      && (IsSeenTile(r, x, y) <==> IsSeenTile(st, x, y) || exists i :: 0 <= i < |s.seenTiles| && s.seenTiles[i] == Tile(x, y))
  {
    ApplySnapshotEffect(st, s);
  }

  /** `GetSelectedUnit`: the own unit under the selected id, if both exist. */
  function GetSelectedUnit(st: State): (r: Option<Unit>)
    ensures r.Some? <==> st.selectedEntityId.Some? && st.selectedEntityId.value in st.units
    ensures r.Some? ==> r.value == st.units[st.selectedEntityId.value]
  {
    match st.selectedEntityId
    case None => None
    case Some(id) => GetUnit(st, id)
  }

  /** `GetSelectedBuilding`: the own building under the selected id, if both exist. */
  function GetSelectedBuilding(st: State): (r: Option<Building>)
    ensures r.Some? <==> st.selectedEntityId.Some? && st.selectedEntityId.value in st.buildings
    ensures r.Some? ==> r.value == st.buildings[st.selectedEntityId.value]
  {
    match st.selectedEntityId
    case None => None
    case Some(id) => GetBuilding(st, id)
  }
}
