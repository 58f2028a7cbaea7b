/** Decoding of the server's snapshot document into a `Snapshot`
    (Scripts/SnapshotParser.cs). The document arrives already parsed into a
    JSON tree; every `(int)` read truncates the JSON number toward zero, every
    `(float)` read keeps it, a required key that is missing or not a number
    makes the whole decode fail, optional keys fall back to fixed defaults,
    and a value cast to a dictionary or an array that is not one converts to
    an empty one, as Godot's `Variant` conversions do. */
module SnapshotParser {
  import opened Wrappers
  import opened Json
  import opened Numeric
  import opened EntityModels

  /** Why a decode failed: a required key was absent, or a number was
      expected and something else was found. */
  datatype ParseError = MissingKey(key: string) | WrongType(key: string)

  type Fields = map<string, Json>

  type Parsed<T> = Result<T, ParseError>

  // ----- Field readers --------------------------------------------------

  /** `(Godot.Collections.Dictionary)v`: an object's entries; any other value
      converts to an empty dictionary rather than failing. */
  function AsDict(j: Json): Fields {
    if j.JObj? then j.fields else map[]
  }

  /** `(Godot.Collections.Array)v`: an array's elements; any other value
      converts to an empty array rather than failing. */
  function AsArray(j: Json): seq<Json> {
    if j.JArr? then j.items else []
  }

  /** `data[k]` read as a number; absent or non-numeric values fail. */
  function NumAt(o: Fields, k: string): (r: Parsed<real>)
    ensures r.Success? <==> k in o && o[k].JNum?
    ensures r.Success? ==> r.value == o[k].n
    ensures k !in o ==> r == Failure(MissingKey(k))
  {
    if k !in o then Failure(MissingKey(k))
    else if o[k].JNum? then Success(o[k].n)
    else Failure(WrongType(k))
  }

  /** `(int)data[k]`. */
  function IntAt(o: Fields, k: string): (r: Parsed<int>)
    ensures r.Success? <==> k in o && o[k].JNum?
    ensures r.Success? ==> r.value == Trunc(o[k].n)
    ensures k !in o ==> r == Failure(MissingKey(k))
  {
    var n :- NumAt(o, k);
    Success(Trunc(n))
  }

  /** `data.ContainsKey(k) ? (int)data[k] : d`. */
  function IntOr(o: Fields, k: string, d: int): (r: Parsed<int>)
    ensures k !in o ==> r == Success(d)
    ensures k in o ==> r == IntAt(o, k)
  {
    if k in o then IntAt(o, k) else Success(d)
  }

  // ----- Shapes the decoder accepts ---------------------------------------

  /** `k` holds a number. */
  ghost predicate HasNum(o: Fields, k: string) {
    k in o && o[k].JNum?
  }

  /** `k` is absent or holds a number. */
  ghost predicate NumIfPresent(o: Fields, k: string) {
    k in o ==> o[k].JNum?
  }

  /** The integer an accepted object carries under `k`, or `d` when absent. */
  ghost function IntField(o: Fields, k: string, d: int): int {
    if k in o && o[k].JNum? then Trunc(o[k].n) else d
  }

  /** The real an accepted object carries under `k`. */
  ghost function RealField(o: Fields, k: string): real {
    if k in o && o[k].JNum? then o[k].n else 0.0
  }

  /** The objects each record decoder accepts. */
  ghost predicate UnitShaped(o: Fields) {
    && HasNum(o, "id") && HasNum(o, "owner") && HasNum(o, "type")
    && HasNum(o, "x") && HasNum(o, "y") && HasNum(o, "hp")
    && NumIfPresent(o, "maxHp") && NumIfPresent(o, "carrying") && NumIfPresent(o, "carryType")
  }

  ghost predicate BuildingShaped(o: Fields) {
    && HasNum(o, "id") && HasNum(o, "owner") && HasNum(o, "type")
    && HasNum(o, "x") && HasNum(o, "y") && HasNum(o, "state") && HasNum(o, "progress")
    && NumIfPresent(o, "hp") && NumIfPresent(o, "maxHp")
  }

  ghost predicate ResourceShaped(o: Fields) {
    HasNum(o, "id") && HasNum(o, "type") && HasNum(o, "amount") && HasNum(o, "x") && HasNum(o, "y")
  }

  ghost predicate EventShaped(o: Fields) {
    && HasNum(o, "type") && HasNum(o, "tick") && HasNum(o, "entityId")
  }

  ghost predicate PlayerResourcesShaped(o: Fields) {
    && HasNum(o, "food") && HasNum(o, "gold") && HasNum(o, "stone")
    && HasNum(o, "wood") && HasNum(o, "pop") && HasNum(o, "popCap")
  }

  ghost predicate TileShaped(o: Fields) {
    HasNum(o, "x") && HasNum(o, "y")
  }

  ghost predicate QueueShaped(o: Fields) {
    && HasNum(o, "buildingId") && HasNum(o, "buildingType")
    && HasNum(o, "currentTime") && HasNum(o, "currentMax")
    && ("items" in o ==> forall i :: 0 <= i < |AsArray(o["items"])| ==> AsArray(o["items"])[i].JNum?)
  }

  /** Hit points and maximum hit points the decoder gives a building whose
      object leaves them out; the C# class default for the maximum is 1500. */
  const ParsedBuildingHp := 200

  // ----- Lists -------------------------------------------------------------

  /** `foreach (Dictionary d in list) out.Add(f(d))`: each element is cast to
      a dictionary (a non-object becoming an empty one), every element must
      be accepted by `f`, and the results keep the list's order. */
  function ParseAll<T>(items: seq<Json>, f: Fields -> Parsed<T>): (r: Parsed<seq<T>>)
    ensures r.Success? <==> forall i :: 0 <= i < |items| ==> f(AsDict(items[i])).Success?
    ensures r.Success? ==> |r.value| == |items|
    ensures r.Success? ==> forall i :: 0 <= i < |items| ==> r.value[i] == f(AsDict(items[i])).value
    decreases |items|
  {
    if |items| == 0 then Success([])
    else
      var x :- f(AsDict(items[0]));
      var rest :- ParseAll(items[1..], f);
      assert forall i :: 1 <= i < |items| ==> items[i] == items[1..][i - 1];
      Success([x] + rest)
  }

  /** An optional list under `k`: absent means empty, and so does a value
      that is not an array, which the cast converts to an empty array. */
  function ListOf<T>(o: Fields, k: string, f: Fields -> Parsed<T>): (r: Parsed<seq<T>>)
    ensures k !in o ==> r == Success([])
    ensures k in o && !o[k].JArr? ==> r == Success([])
    ensures k in o && o[k].JArr? ==> r == ParseAll(o[k].items, f)
  {
    if k !in o then Success([]) else ParseAll(AsArray(o[k]), f)
  }

  /** `foreach (var item in items) queue.Items.Add((int)item)`. */
  function ParseInts(items: seq<Json>, k: string): (r: Parsed<seq<int>>)
    ensures r.Success? <==> forall i :: 0 <= i < |items| ==> items[i].JNum?
    ensures r.Success? ==> |r.value| == |items|
    ensures r.Success? ==> forall i :: 0 <= i < |items| ==> r.value[i] == Trunc(items[i].n)
    decreases |items|
  {
    if |items| == 0 then Success([])
    else
      var x :- if items[0].JNum? then Success(Trunc(items[0].n)) else Failure(WrongType(k));
      var rest :- ParseInts(items[1..], k);
      assert forall i :: 1 <= i < |items| ==> items[i] == items[1..][i - 1];
      Success([x] + rest)
  }

  // ----- Records -----------------------------------------------------------

  /** `ParseUnit`: six required numbers, three optional counters defaulting to
      100, 0 and 0. The speed is never read, so every decoded unit keeps the
      class default of 0.1, and every decoded unit is visible. */
  function ParseUnit(o: Fields): (r: Parsed<Unit>)
    ensures r.Success? <==> UnitShaped(o)
    ensures r.Success? ==> r.value == Unit(
      IntField(o, "id", 0), IntField(o, "owner", 0), IntField(o, "type", 0),
      RealField(o, "x"), RealField(o, "y"), IntField(o, "hp", 0),
      IntField(o, "maxHp", 100), 0.1, IntField(o, "carrying", 0), IntField(o, "carryType", 0), true)
  {
    var id :- IntAt(o, "id");
    var owner :- IntAt(o, "owner");
    var kind :- IntAt(o, "type");
    var x :- NumAt(o, "x");
    var y :- NumAt(o, "y");
    var hp :- IntAt(o, "hp");
    var maxHp :- IntOr(o, "maxHp", 100);
    var carrying :- IntOr(o, "carrying", 0);
    var carryType :- IntOr(o, "carryType", 0);
    Success(NewUnit().(id := id, owner := owner, kind := kind, x := x, y := y, hp := hp,
                       maxHp := maxHp, carrying := carrying, carryType := carryType))
  }

  /** `ParseBuilding`: seven required numbers; hit points and maximum hit
      points default to 200 each. Occupied tiles are never read. */
  function ParseBuilding(o: Fields): (r: Parsed<Building>)
    ensures r.Success? <==> BuildingShaped(o)
    ensures r.Success? ==> r.value == Building(
      IntField(o, "id", 0), IntField(o, "owner", 0), IntField(o, "type", 0),
      RealField(o, "x"), RealField(o, "y"), IntField(o, "state", 0), IntField(o, "progress", 0),
      IntField(o, "hp", ParsedBuildingHp), IntField(o, "maxHp", ParsedBuildingHp), true, [])
  {
    var id :- IntAt(o, "id");
    var owner :- IntAt(o, "owner");
    var kind :- IntAt(o, "type");
    var x :- NumAt(o, "x");
    var y :- NumAt(o, "y");
    var state :- IntAt(o, "state");
    var progress :- IntAt(o, "progress");
    var hp :- IntOr(o, "hp", ParsedBuildingHp);
    var maxHp :- IntOr(o, "maxHp", ParsedBuildingHp);
    Success(NewBuilding().(id := id, owner := owner, kind := kind, x := x, y := y,
                           state := state, progress := progress, hp := hp, maxHp := maxHp))
  }

  /** `ParseResource`: five required numbers; decoded resources are visible. */
  function ParseResource(o: Fields): (r: Parsed<Resource>)
    ensures r.Success? <==> ResourceShaped(o)
    ensures r.Success? ==> r.value == Resource(
      IntField(o, "id", 0), IntField(o, "type", 0), IntField(o, "amount", 0),
      RealField(o, "x"), RealField(o, "y"), true)
  {
    var id :- IntAt(o, "id");
    var kind :- IntAt(o, "type");
    var amount :- IntAt(o, "amount");
    var x :- NumAt(o, "x");
    var y :- NumAt(o, "y");
    Success(NewResource().(id := id, kind := kind, amount := amount, x := x, y := y))
  }

  /** The payload an event object carries: the `data` object's entries, or
      nothing when `data` is absent or not an object. */
  ghost function PayloadOf(o: Fields): map<string, Json> {
    if "data" in o && o["data"].JObj? then o["data"].fields else map[]
  }

  /** `ParseEvent`: three required numbers, and an optional `data` object
      whose entries are copied as they are; null or any other non-object
      converts to an empty dictionary. */
  function ParseEvent(o: Fields): (r: Parsed<GameEvent>)
    ensures r.Success? <==> EventShaped(o)
    ensures r.Success? ==> r.value == GameEvent(
      IntField(o, "type", 0), IntField(o, "tick", 0), IntField(o, "entityId", 0), PayloadOf(o))
  {
    var kind :- IntAt(o, "type");
    var tick :- IntAt(o, "tick");
    var entityId :- IntAt(o, "entityId");
    var data := if "data" in o then AsDict(o["data"]) else map[];
    Success(GameEvent(kind, tick, entityId, data))
  }

  /** `ParsePlayerResources`: all six counters are required. */
  function ParsePlayerResources(o: Fields): (r: Parsed<PlayerResources>)
    ensures r.Success? <==> PlayerResourcesShaped(o)
    ensures r.Success? ==> r.value == PlayerResources(
      IntField(o, "food", 0), IntField(o, "gold", 0), IntField(o, "stone", 0),
      IntField(o, "wood", 0), IntField(o, "pop", 0), IntField(o, "popCap", 0))
  {
    var food :- IntAt(o, "food");
    var gold :- IntAt(o, "gold");
    var stone :- IntAt(o, "stone");
    var wood :- IntAt(o, "wood");
    var pop :- IntAt(o, "pop");
    var popCap :- IntAt(o, "popCap");
    Success(PlayerResources(food, gold, stone, wood, pop, popCap))
  }

  /** A fog-of-war tile: both coordinates required. */
  function ParseTile(o: Fields): (r: Parsed<Tile>)
    ensures r.Success? <==> TileShaped(o)
    ensures r.Success? ==> r.value == Tile(IntField(o, "x", 0), IntField(o, "y", 0))
  {
    var x :- IntAt(o, "x");
    var y :- IntAt(o, "y");
    Success(Tile(x, y))
  }

  /** A training queue: four required numbers and an optional `items` array of
      unit-type numbers, absent or not an array meaning empty. */
  function ParseTrainingQueue(o: Fields): (r: Parsed<TrainingQueue>)
    ensures r.Success? <==> QueueShaped(o)
    ensures r.Success? ==>
      && r.value.buildingId == IntField(o, "buildingId", 0)
      && r.value.buildingType == IntField(o, "buildingType", 0)
      && r.value.currentTime == IntField(o, "currentTime", 0)
      && r.value.currentMax == IntField(o, "currentMax", 0)
    ensures r.Success? && "items" !in o ==> r.value.items == []
    ensures r.Success? && "items" in o ==>
      && |r.value.items| == |AsArray(o["items"])|
      && forall i :: 0 <= i < |r.value.items| ==> r.value.items[i] == Trunc(AsArray(o["items"])[i].n)
  {
    var buildingId :- IntAt(o, "buildingId");
    var buildingType :- IntAt(o, "buildingType");
    var currentTime :- IntAt(o, "currentTime");
    var currentMax :- IntAt(o, "currentMax");
    var items :- if "items" !in o then Success([]) else ParseInts(AsArray(o["items"]), "items");
    Success(NewTrainingQueue().(buildingId := buildingId, buildingType := buildingType,
                                items := items, currentTime := currentTime, currentMax := currentMax))
  }

  // ----- The snapshot --------------------------------------------------------

  /** The optional `playerResources` object: absent means the class default.
      A present value that is not an object converts to an empty dictionary,
      which then lacks the required counters. */
  function PlayerResourcesOf(o: Fields): (r: Parsed<PlayerResources>)
    ensures "playerResources" !in o ==> r == Success(NewPlayerResources())
    ensures "playerResources" in o ==>
      (r.Success? <==> o["playerResources"].JObj? && PlayerResourcesShaped(o["playerResources"].fields))
    ensures "playerResources" in o && r.Success? ==> r == ParsePlayerResources(o["playerResources"].fields)
    ensures "playerResources" in o && !o["playerResources"].JObj? ==> r == Failure(MissingKey("food"))
  {
    if "playerResources" !in o then Success(NewPlayerResources())
    else ParsePlayerResources(AsDict(o["playerResources"]))
  }

  /** `ParseSnapshot` on the decoded document. The root is cast to a
      dictionary, so a non-object root has no `tick` and fails; `tick` must be
      a number; the map size defaults to 256 by 256; each list key is optional
      and decoded element by element; `playerResources` is optional. Any
      element that does not decode fails the whole snapshot. */
  function ParseSnapshot(root: Json): (r: Parsed<Snapshot>)
    ensures !root.JObj? ==> r == Failure(MissingKey("tick"))
    ensures root.JObj? && !HasNum(root.fields, "tick") ==> r.Failure?
    ensures r.Success? <==> root.JObj? && SnapshotShaped(root.fields)
    ensures r.Success? ==> var o := root.fields;
      && r.value.tick == IntField(o, "tick", 0)
      && r.value.mapWidth == IntField(o, "mapWidth", DefaultMapSize)
      && r.value.mapHeight == IntField(o, "mapHeight", DefaultMapSize)
      && ListOf(o, "units", ParseUnit) == Success(r.value.units)
      && ListOf(o, "buildings", ParseBuilding) == Success(r.value.buildings)
      && ListOf(o, "enemyUnitsInView", ParseUnit) == Success(r.value.enemyUnitsInView)
      && ListOf(o, "enemyBuildingsInView", ParseBuilding) == Success(r.value.enemyBuildingsInView)
      && ListOf(o, "resources", ParseResource) == Success(r.value.resources)
      && ListOf(o, "events", ParseEvent) == Success(r.value.events)
      && PlayerResourcesOf(o) == Success(r.value.playerResources)
      && ListOf(o, "visibleTiles", ParseTile) == Success(r.value.visibleTiles)
      && ListOf(o, "seenTiles", ParseTile) == Success(r.value.seenTiles)
      && ListOf(o, "trainingQueues", ParseTrainingQueue) == Success(r.value.trainingQueues)
  {
    var o := AsDict(root);
    var tick :- IntAt(o, "tick");
    var mapWidth :- IntOr(o, "mapWidth", DefaultMapSize);
    var mapHeight :- IntOr(o, "mapHeight", DefaultMapSize);
    var units :- ListOf(o, "units", ParseUnit);
    var buildings :- ListOf(o, "buildings", ParseBuilding);
    var enemyUnits :- ListOf(o, "enemyUnitsInView", ParseUnit);
    var enemyBuildings :- ListOf(o, "enemyBuildingsInView", ParseBuilding);
    var resources :- ListOf(o, "resources", ParseResource);
    var events :- ListOf(o, "events", ParseEvent);
    var playerResources :- PlayerResourcesOf(o);
    var visibleTiles :- ListOf(o, "visibleTiles", ParseTile);
    var seenTiles :- ListOf(o, "seenTiles", ParseTile);
    var queues :- ListOf(o, "trainingQueues", ParseTrainingQueue);
    Success(Snapshot(tick, mapWidth, mapHeight, units, buildings, enemyUnits, enemyBuildings,
                     resources, events, playerResources, visibleTiles, seenTiles, queues))
  }

  /** The documents `ParseSnapshot` accepts. */
  ghost predicate SnapshotShaped(o: Fields) {
    && HasNum(o, "tick") && NumIfPresent(o, "mapWidth") && NumIfPresent(o, "mapHeight")
    && ListOf(o, "units", ParseUnit).Success?
    && ListOf(o, "buildings", ParseBuilding).Success?
    && ListOf(o, "enemyUnitsInView", ParseUnit).Success?
    && ListOf(o, "enemyBuildingsInView", ParseBuilding).Success?
    && ListOf(o, "resources", ParseResource).Success?
    && ListOf(o, "events", ParseEvent).Success?
    && PlayerResourcesOf(o).Success?
    && ListOf(o, "visibleTiles", ParseTile).Success?
    && ListOf(o, "seenTiles", ParseTile).Success?
    && ListOf(o, "trainingQueues", ParseTrainingQueue).Success?
  }

  // ----- Encoding, and what decoding promises about it ----------------------

  function Num(i: int): Json {
    JNum(i as real)
  }

  /** The object the server would send for a unit. */
  function EncodeUnit(u: Unit): Fields {
    map["id" := Num(u.id), "owner" := Num(u.owner), "type" := Num(u.kind),
        "x" := JNum(u.x), "y" := JNum(u.y), "hp" := Num(u.hp), "maxHp" := Num(u.maxHp),
        "carrying" := Num(u.carrying), "carryType" := Num(u.carryType)]
  }

  function EncodeBuilding(b: Building): Fields {
    map["id" := Num(b.id), "owner" := Num(b.owner), "type" := Num(b.kind),
        "x" := JNum(b.x), "y" := JNum(b.y), "state" := Num(b.state), "progress" := Num(b.progress),
        "hp" := Num(b.hp), "maxHp" := Num(b.maxHp)]
  }

  function EncodeResource(r: Resource): Fields {
    map["id" := Num(r.id), "type" := Num(r.kind), "amount" := Num(r.amount),
        "x" := JNum(r.x), "y" := JNum(r.y)]
  }

  function EncodeEvent(e: GameEvent): Fields {
    map["type" := Num(e.kind), "tick" := Num(e.tick), "entityId" := Num(e.entityId),
        "data" := JObj(e.data)]
  }

  function EncodePlayerResources(p: PlayerResources): Fields {
    map["food" := Num(p.food), "gold" := Num(p.gold), "stone" := Num(p.stone),
        "wood" := Num(p.wood), "pop" := Num(p.pop), "popCap" := Num(p.popCap)]
  }

  function EncodeTile(t: Tile): Fields {
    map["x" := Num(t.x), "y" := Num(t.y)]
  }

  function EncodeInts(xs: seq<int>): (js: seq<Json>)
    ensures |js| == |xs| && forall i :: 0 <= i < |xs| ==> js[i] == Num(xs[i])
  {
    seq(|xs|, i requires 0 <= i < |xs| => Num(xs[i]))
  }

  function EncodeQueue(q: TrainingQueue): Fields {
    map["buildingId" := Num(q.buildingId), "buildingType" := Num(q.buildingType),
        "currentTime" := Num(q.currentTime), "currentMax" := Num(q.currentMax),
        "items" := JArr(EncodeInts(q.items))]
  }

  function EncodeAll<T>(xs: seq<T>, enc: T -> Fields): (js: seq<Json>)
    ensures |js| == |xs| && forall i :: 0 <= i < |xs| ==> js[i] == JObj(enc(xs[i]))
  {
    seq(|xs|, i requires 0 <= i < |xs| => JObj(enc(xs[i])))
  }

  /** Records the decoder can reproduce: the fields it never reads hold the
      values it fills in. */
  ghost predicate DecodableUnit(u: Unit) {
    u.speed == 0.1 && u.visible
  }

  ghost predicate DecodableBuilding(b: Building) {
    b.visible && b.occupiedTiles == []
  }

  ghost predicate DecodableResource(r: Resource) {
    r.visible
  }

  lemma UnitRoundTrip(u: Unit)
    requires DecodableUnit(u)
    ensures ParseUnit(EncodeUnit(u)) == Success(u)
  {
    TruncOfInt(u.id); TruncOfInt(u.owner); TruncOfInt(u.kind); TruncOfInt(u.hp);
    TruncOfInt(u.maxHp); TruncOfInt(u.carrying); TruncOfInt(u.carryType);
  }

  lemma BuildingRoundTrip(b: Building)
    requires DecodableBuilding(b)
    ensures ParseBuilding(EncodeBuilding(b)) == Success(b)
  {
    TruncOfInt(b.id); TruncOfInt(b.owner); TruncOfInt(b.kind); TruncOfInt(b.state);
    TruncOfInt(b.progress); TruncOfInt(b.hp); TruncOfInt(b.maxHp);
  }

  lemma ResourceRoundTrip(r: Resource)
    requires DecodableResource(r)
    ensures ParseResource(EncodeResource(r)) == Success(r)
  {
    TruncOfInt(r.id); TruncOfInt(r.kind); TruncOfInt(r.amount);
  }

  lemma EventRoundTrip(e: GameEvent)
    ensures ParseEvent(EncodeEvent(e)) == Success(e)
  {
    TruncOfInt(e.kind); TruncOfInt(e.tick); TruncOfInt(e.entityId);
  }

  lemma PlayerResourcesRoundTrip(p: PlayerResources)
    ensures ParsePlayerResources(EncodePlayerResources(p)) == Success(p)
  {
    TruncOfInt(p.food); TruncOfInt(p.gold); TruncOfInt(p.stone);
    TruncOfInt(p.wood); TruncOfInt(p.pop); TruncOfInt(p.popCap);
  }

  lemma TileRoundTrip(t: Tile)
    ensures ParseTile(EncodeTile(t)) == Success(t)
  {
    TruncOfInt(t.x); TruncOfInt(t.y);
  }

  lemma QueueRoundTrip(q: TrainingQueue)
    ensures ParseTrainingQueue(EncodeQueue(q)) == Success(q)
  {
    TruncOfInt(q.buildingId); TruncOfInt(q.buildingType);
    TruncOfInt(q.currentTime); TruncOfInt(q.currentMax);
    forall i | 0 <= i < |q.items| {
      TruncOfInt(q.items[i]);
    }
    var r := ParseTrainingQueue(EncodeQueue(q));
    assert r.value.items == q.items;
  }

  /** A list of encoded records decodes to the same list, in order. */
  lemma ListRoundTrip<T>(xs: seq<T>, enc: T -> Fields, f: Fields -> Parsed<T>)
    requires forall i :: 0 <= i < |xs| ==> f(enc(xs[i])) == Success(xs[i])
    ensures ParseAll(EncodeAll(xs, enc), f) == Success(xs)
  {
    var r := ParseAll(EncodeAll(xs, enc), f);
    assert r.Success?;
    assert r.value == xs;
  }

  /** The document the server would send for a snapshot, every key present. */
  function EncodeSnapshot(s: Snapshot): Json {
    JObj(map[
      "tick" := Num(s.tick), "mapWidth" := Num(s.mapWidth), "mapHeight" := Num(s.mapHeight),
      "units" := JArr(EncodeAll(s.units, EncodeUnit)),
      "buildings" := JArr(EncodeAll(s.buildings, EncodeBuilding)),
      "enemyUnitsInView" := JArr(EncodeAll(s.enemyUnitsInView, EncodeUnit)),
      "enemyBuildingsInView" := JArr(EncodeAll(s.enemyBuildingsInView, EncodeBuilding)),
      "resources" := JArr(EncodeAll(s.resources, EncodeResource)),
      "events" := JArr(EncodeAll(s.events, EncodeEvent)),
      "playerResources" := JObj(EncodePlayerResources(s.playerResources)),
      "visibleTiles" := JArr(EncodeAll(s.visibleTiles, EncodeTile)),
      "seenTiles" := JArr(EncodeAll(s.seenTiles, EncodeTile)),
      "trainingQueues" := JArr(EncodeAll(s.trainingQueues, EncodeQueue))])
  }

  /** A snapshot whose records the decoder can reproduce. */
  ghost predicate DecodableSnapshot(s: Snapshot) {
    && (forall i :: 0 <= i < |s.units| ==> DecodableUnit(s.units[i]))
    && (forall i :: 0 <= i < |s.buildings| ==> DecodableBuilding(s.buildings[i]))
    && (forall i :: 0 <= i < |s.enemyUnitsInView| ==> DecodableUnit(s.enemyUnitsInView[i]))
    && (forall i :: 0 <= i < |s.enemyBuildingsInView| ==> DecodableBuilding(s.enemyBuildingsInView[i]))
    && (forall i :: 0 <= i < |s.resources| ==> DecodableResource(s.resources[i]))
  }

  lemma UnitsRoundTrip(xs: seq<Unit>)
    requires forall i :: 0 <= i < |xs| ==> DecodableUnit(xs[i])
    ensures ParseAll(EncodeAll(xs, EncodeUnit), ParseUnit) == Success(xs)
  {
    forall i | 0 <= i < |xs| {
      UnitRoundTrip(xs[i]);
    }
    ListRoundTrip(xs, EncodeUnit, ParseUnit);
  }

  lemma BuildingsRoundTrip(xs: seq<Building>)
    requires forall i :: 0 <= i < |xs| ==> DecodableBuilding(xs[i])
    ensures ParseAll(EncodeAll(xs, EncodeBuilding), ParseBuilding) == Success(xs)
  {
    forall i | 0 <= i < |xs| {
      BuildingRoundTrip(xs[i]);
    }
    ListRoundTrip(xs, EncodeBuilding, ParseBuilding);
  }

  /** Every list and object of an encoded snapshot decodes to the snapshot's
      own. */
  lemma SnapshotPartsRoundTrip(s: Snapshot)
    requires DecodableSnapshot(s)
    ensures var o := EncodeSnapshot(s).fields;
      && ListOf(o, "units", ParseUnit) == Success(s.units)
      && ListOf(o, "buildings", ParseBuilding) == Success(s.buildings)
      && ListOf(o, "enemyUnitsInView", ParseUnit) == Success(s.enemyUnitsInView)
      && ListOf(o, "enemyBuildingsInView", ParseBuilding) == Success(s.enemyBuildingsInView)
      && ListOf(o, "resources", ParseResource) == Success(s.resources)
      && ListOf(o, "events", ParseEvent) == Success(s.events)
      && PlayerResourcesOf(o) == Success(s.playerResources)
      && ListOf(o, "visibleTiles", ParseTile) == Success(s.visibleTiles)
      && ListOf(o, "seenTiles", ParseTile) == Success(s.seenTiles)
      && ListOf(o, "trainingQueues", ParseTrainingQueue) == Success(s.trainingQueues)
  {
    var o := EncodeSnapshot(s).fields;
    assert o["units"] == JArr(EncodeAll(s.units, EncodeUnit));
    assert o["buildings"] == JArr(EncodeAll(s.buildings, EncodeBuilding));
    assert o["enemyUnitsInView"] == JArr(EncodeAll(s.enemyUnitsInView, EncodeUnit));
    assert o["enemyBuildingsInView"] == JArr(EncodeAll(s.enemyBuildingsInView, EncodeBuilding));
    assert o["resources"] == JArr(EncodeAll(s.resources, EncodeResource));
    assert o["events"] == JArr(EncodeAll(s.events, EncodeEvent));
    assert o["playerResources"] == JObj(EncodePlayerResources(s.playerResources));
    assert o["visibleTiles"] == JArr(EncodeAll(s.visibleTiles, EncodeTile));
    assert o["seenTiles"] == JArr(EncodeAll(s.seenTiles, EncodeTile));
    assert o["trainingQueues"] == JArr(EncodeAll(s.trainingQueues, EncodeQueue));
    UnitsRoundTrip(s.units);
    BuildingsRoundTrip(s.buildings);
    UnitsRoundTrip(s.enemyUnitsInView);
    BuildingsRoundTrip(s.enemyBuildingsInView);
    forall i | 0 <= i < |s.resources| {
      ResourceRoundTrip(s.resources[i]);
    }
    ListRoundTrip(s.resources, EncodeResource, ParseResource);
    forall i | 0 <= i < |s.events| {
      EventRoundTrip(s.events[i]);
    }
    ListRoundTrip(s.events, EncodeEvent, ParseEvent);
    PlayerResourcesRoundTrip(s.playerResources);
    forall i | 0 <= i < |s.visibleTiles| {
      TileRoundTrip(s.visibleTiles[i]);
    }
    ListRoundTrip(s.visibleTiles, EncodeTile, ParseTile);
    forall i | 0 <= i < |s.seenTiles| {
      TileRoundTrip(s.seenTiles[i]);
    }
    ListRoundTrip(s.seenTiles, EncodeTile, ParseTile);
    forall i | 0 <= i < |s.trainingQueues| {
      QueueRoundTrip(s.trainingQueues[i]);
    }
    ListRoundTrip(s.trainingQueues, EncodeQueue, ParseTrainingQueue);
  }

  /** Decoding the encoding of a snapshot gives the snapshot back. */
  lemma SnapshotRoundTrip(s: Snapshot)
    requires DecodableSnapshot(s)
    ensures ParseSnapshot(EncodeSnapshot(s)) == Success(s)
  {
    var o := EncodeSnapshot(s).fields;
    TruncOfInt(s.tick); TruncOfInt(s.mapWidth); TruncOfInt(s.mapHeight);
    assert o["tick"] == Num(s.tick);
    assert o["mapWidth"] == Num(s.mapWidth);
    assert o["mapHeight"] == Num(s.mapHeight);
    SnapshotPartsRoundTrip(s);
    assert SnapshotShaped(o);
    var r := ParseSnapshot(EncodeSnapshot(s));
    assert r.value == s;
  }

  /** A document holding nothing but a tick decodes to the default snapshot
      at that tick: 256 by 256, no entities, default player resources. */
  lemma TickAloneGivesDefaults(t: int)
    ensures ParseSnapshot(JObj(map["tick" := Num(t)])) == Success(NewSnapshot().(tick := t))
  {
    TruncOfInt(t);
  }

  /** Every key the unit decoder requires is really required. */
  lemma UnitWithoutRequiredKeyFails(u: Unit, k: string)
    requires k in {"id", "owner", "type", "x", "y", "hp"}
    ensures ParseUnit(EncodeUnit(u) - {k}).Failure?
  {
  }

  /** Leaving the optional counters out gives 100 maximum hit points and an
      empty load. */
  lemma UnitOptionalDefaults(u: Unit)
    requires DecodableUnit(u)
    ensures ParseUnit(EncodeUnit(u) - {"maxHp", "carrying", "carryType"})
      == Success(u.(maxHp := 100, carrying := 0, carryType := 0))
  {
    TruncOfInt(u.id); TruncOfInt(u.owner); TruncOfInt(u.kind); TruncOfInt(u.hp);
  }

  /** Every key the building decoder requires is really required. */
  lemma BuildingWithoutRequiredKeyFails(b: Building, k: string)
    requires k in {"id", "owner", "type", "x", "y", "state", "progress"}
    ensures ParseBuilding(EncodeBuilding(b) - {k}).Failure?
  {
  }

  /** A building sent without hit points decodes with 200 of 200, not with the
      1500 maximum a freshly constructed building has. */
  lemma BuildingHpDefaultDiffersFromClass(b: Building)
    requires DecodableBuilding(b)
    ensures var r := ParseBuilding(EncodeBuilding(b) - {"hp", "maxHp"});
      && r == Success(b.(hp := 200, maxHp := 200))
      && r.value.maxHp != NewBuilding().maxHp
  {
    TruncOfInt(b.id); TruncOfInt(b.owner); TruncOfInt(b.kind);
    TruncOfInt(b.state); TruncOfInt(b.progress);
  }

  /** Every counter of the player resources is required. */
  lemma PlayerResourcesWithoutKeyFails(p: PlayerResources, k: string)
    requires k in {"food", "gold", "stone", "wood", "pop", "popCap"}
    ensures ParsePlayerResources(EncodePlayerResources(p) - {k}).Failure?
  {
  }

  /** A `data` entry that is null, or any other non-object, gives an empty
      payload rather than failing the event. */
  lemma NonObjectDataIsEmpty(e: GameEvent)
    ensures ParseEvent(EncodeEvent(e)["data" := JNull]) == Success(e.(data := map[]))
    ensures ParseEvent(EncodeEvent(e)["data" := JNum(0.0)]) == Success(e.(data := map[]))
  {
    TruncOfInt(e.kind); TruncOfInt(e.tick); TruncOfInt(e.entityId);
  }

  /** A list key holding something other than an array reads as an empty
      list, and a `playerResources` value that is not an object fails the
      snapshot. */
  lemma NonCollectionValues(t: int)
    ensures ParseSnapshot(JObj(map["tick" := Num(t), "units" := JStr("none"), "events" := JNum(1.0)]))
      == Success(NewSnapshot().(tick := t))
    ensures ParseSnapshot(JObj(map["tick" := Num(t), "playerResources" := JArr([])])).Failure?
  {
    TruncOfInt(t);
  }

  /** Integer reads truncate toward zero: -2.5 becomes -2, not -3. */
  lemma IntReadsTruncateTowardZero()
    ensures ParseTile(map["x" := JNum(-2.5), "y" := JNum(2.5)]) == Success(Tile(-2, 2))
  {
  }
}
