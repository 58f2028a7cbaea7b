# SimWorld client core, modelled in Dafny

This project models the logic core of the SimWorld RTS client (a Godot C# program). The model covers six areas:

- **Entity mirror.** `GameState` keeps a mirror of the server's world. Each snapshot reconciles five id-keyed collections (own units, enemy units, own buildings, enemy buildings, resources), rebuilds the visible tiles, grows the seen tiles, replaces the training queues and then applies the snapshot's Destroy, Hidden and ResourceUpdate events in order.
- **Records.** `EntityModels` holds the records the mirror stores, with the defaults a fresh C# object carries.
- **Pathfinding grid.** `PathfindingManager` is a fixed 256 by 256 grid with 8-neighbour connections and row-major point ids `y * 256 + x`. Occupancy blocks the in-bounds 3 by 3 block around the truncated anchor of every visible building. The model also covers the guards around the A* query and the choice of the next waypoint.
- **Movement.** `UnitMovement` is the per-unit walk toward a target. It stops within the required distance, falls back to the target when the pathfinder gives nothing usable, and snaps onto a waypoint instead of overshooting it.
- **Snapshot decoding.** `SnapshotParser` decodes an already-parsed JSON tree into a `Snapshot`. Required keys make the decode fail when missing, optional keys get fixed defaults, and integer reads truncate toward zero. A value cast to a dictionary or an array that is not one becomes an empty one, as Godot's `Variant` conversions do.
- **Connection handshake.** `NetworkManager` covers the handshake flags (`isJoined`, `isReady`), the disconnect reset, the retry gate, the join-once flag, the routing of incoming messages by type, and the rule that messages go out only while the socket is open.

Everything is immutable values and pure functions. There are three exceptions: the occupancy update (`UpdateOccupiedTiles`), its blocking loop (`BlockFootprints`) and the helper that picks the next id (`PickId`) are `method`s. The modules are:

- `Wrappers`: `Option` and `Result`.
- `Numeric`: the C# `(int)` cast.
- `Geometry`: `Vector2` over exact reals. The square root is a parameter.
- `Json`: the decoded JSON tree.
- `IdMap`: generic id-keyed reconciliation, where the last listed record wins.
- One module per source file for the rest.

Inputs the C# client gets from the Godot engine are parameters of the model:

- The A* search (`AStar2D.GetPointPath`) is an `Oracle` function from the disabled point ids and the two endpoint ids to a point sequence.
- `sqrt` is a `real -> real` parameter. Properties that need it to be exact say so with `ExactSqrt`.
- For the WebSocket, each frame's `Frame` value says what polling found, which packet arrived, and whether a connection attempt could start.

## Model

| member | source | states |
|---|---|---|
| EntityModels.NewUnit | Scripts/EntityModels.cs:8-21 | a fresh unit has 100 maximum hit points, speed 0.1, carries nothing and is visible |
| EntityModels.NewBuilding | Scripts/EntityModels.cs:23-36 | a fresh building has a 1500 maximum, is visible and has no occupied tiles |
| EntityModels.NewResource | Scripts/EntityModels.cs:38-46 | a fresh resource is visible |
| EntityModels.NewPlayerResources | Scripts/EntityModels.cs:48-56 | fresh stockpiles and population are zero, and the population cap is 10 |
| EntityModels.NewTrainingQueue | Scripts/EntityModels.cs:72-79 | a fresh queue has no items |
| EntityModels.NewSnapshot | Scripts/EntityModels.cs:81-108 | a fresh snapshot is 256 by 256, every list is empty, and it has default player resources |
| GameState.Init | Scripts/GameState.cs:10-36 | a fresh mirror is at tick 0 on a 256 by 256 map, knows no entity or tile, and has nothing selected |
| IdMap.Upsert | Scripts/GameState.cs:52-57 | after upserting a list, every listed id maps to the last record listed under it, and every other key keeps its old value |
| IdMap.Reconcile | Scripts/GameState.cs:52-62 | upsert then delete: the keys are exactly the listed ids, each mapping to its last listed record |
| IdMap.ReconcileForgetsPrior | Scripts/GameState.cs:59-62 | the reconciled map does not depend on what the map held before |
| GameState.Merge | Scripts/GameState.cs:44-129 | the bulk part of a snapshot copies the scalars and mirrors all five lists. Visible tiles become the listed ones, seen tiles grow by the listed ones, the queues mirror the listed queues by building id, and the selection is kept |
| GameState.ApplyEvent | Scripts/GameState.cs:142-184 | Destroy removes the id from all five collections. Hidden clears the flag wherever the id is and keeps the keys. ResourceUpdate sets the amount only for an existing resource with a numeric `amount`. Every other code changes nothing, and no other id is touched |
| GameState.ProcessEvents | Scripts/GameState.cs:138-186 | the events run in list order (the intended behaviour, see Findings): nothing outside the five collections changes, and no collection gains an id |
| GameState.ApplySnapshot | Scripts/GameState.cs:44-133 | the snapshot's scalars, visible tiles, old seen tiles plus its seen tiles and only its queues; each collection keeps only listed ids; the selection is kept |
| GameState.ProcessEventsKeys | Scripts/GameState.cs:138-186 | events create nothing and touch only the five collections; an id survives exactly when no Destroy names it (the intended behaviour, see Findings) |
| GameState.ProcessEventsSparesUnmentioned | Scripts/GameState.cs:138-186 | entries whose id no event names keep their values |
| GameState.ApplySnapshotEffect | Scripts/GameState.cs:44-133 | after a snapshot: its scalars, its visible tiles, old seen tiles plus its seen tiles, only its queues, and in each collection exactly the listed ids no Destroy names (the intended behaviour, see Findings) |
| GameState.AbsentIdIsRemoved | Scripts/GameState.cs:59-110 | an id missing from a collection's new list is gone from that collection, with no grace period |
| GameState.SeenNeverShrinks | Scripts/GameState.cs:119-122 | the seen tiles never shrink |
| GameState.UnmentionedEntityIsLatest | Scripts/GameState.cs:52-110 | an entity no event names is stored as the last record listed under its id |
| GameState.DestroyIsIdempotent | Scripts/GameState.cs:149-155 | a second identical Destroy changes nothing |
| GameState.HiddenIsIdempotent | Scripts/GameState.cs:157-168 | a second identical Hidden changes nothing |
| GameState.ApplySnapshotIsIdempotent | Scripts/GameState.cs:44-133 | applying the same snapshot twice equals applying it once |
| GameState.ProcessEventsKeepsWellKeyed | Scripts/GameState.cs:138-186 | events keep every entity stored under its own id |
| GameState.ApplySnapshotIsWellKeyed | Scripts/GameState.cs:53-129 | after any snapshot every entity (and queue) is stored under its own id |
| GameState.ApplyEventAsWritten | Scripts/GameState.cs:178-183 | as written: the ResourceUpdate branch throws exactly when `amount` is present and the resource exists; otherwise the same state as `ApplyEvent` |
| GameState.ProcessEventsAsWritten | Scripts/GameState.cs:138-186 | as written: the events run in order until the first cast that throws, and the state reached so far is kept; the lemmas below state what it leaves |
| GameState.ApplySnapshotAsWritten | Scripts/GameState.cs:44-133 | as written: the bulk merge always happens and the events run up to the first throwing cast |
| GameState.CompletedMatchesIntended | Scripts/GameState.cs:140-185 | an event loop as written that runs to the end leaves the intended state |
| GameState.CompletesIffNoCast | Scripts/GameState.cs:140-185 | an event loop as written runs to the end exactly when no event's cast throws in the state the events before it leave |
| GameState.StopsAtFirstCast | Scripts/GameState.cs:140-185 | an event loop as written that stops has applied exactly a prefix of the events, with the intended effect, and stopped on the first event whose cast throws |
| GameState.NoAmountUpdateCompletes | Scripts/GameState.cs:178-183 | without a ResourceUpdate carrying `amount` the loop as written runs to the end |
| GameState.CastAbortsLaterDestroy | Scripts/GameState.cs:149-183 | on a snapshot that lists resource 7, updates it and destroys it, the code as written stops before the Destroy and keeps resource 7 with its old amount; the intended code removes it |
| GameState.GetUnit | Scripts/GameState.cs:189 | present exactly when the id is an own unit, with that unit's record |
| GameState.GetBuilding | Scripts/GameState.cs:190 | present exactly when the id is an own building, with that building's record |
| GameState.GetResource | Scripts/GameState.cs:191 | present exactly when the id is a resource, with that resource's record |
| GameState.GetVisibleUnits | Scripts/GameState.cs:199 | exactly the own units whose visible flag is set |
| GameState.GetVisibleEnemyUnits | Scripts/GameState.cs:200 | exactly the enemy units whose visible flag is set |
| GameState.GetVisibleBuildings | Scripts/GameState.cs:201 | exactly the own buildings whose visible flag is set |
| GameState.GetVisibleEnemyBuildings | Scripts/GameState.cs:202 | exactly the enemy buildings whose visible flag is set |
| GameState.GetVisibleResources | Scripts/GameState.cs:203 | exactly the resources whose visible flag is set |
| GameState.HiddenLeavesVisibleViews | Scripts/GameState.cs:157-168 | a hidden entity leaves every visible view but stays in the mirror |
| GameState.TileQueriesAfterSnapshot | Scripts/GameState.cs:205-206 | after a snapshot a tile is visible exactly when listed visible, and seen exactly when seen before or listed seen |
| GameState.IsVisibleTile | Scripts/GameState.cs:205 | membership of the tile in the visible set; `TileQueriesAfterSnapshot` states its value after a snapshot |
| GameState.IsSeenTile | Scripts/GameState.cs:206 | membership of the tile in the seen set; `TileQueriesAfterSnapshot` states its value after a snapshot |
| GameState.GetSelectedUnit | Scripts/GameState.cs:208 | the own unit under the selected id, present only if both exist |
| GameState.GetSelectedBuilding | Scripts/GameState.cs:209 | the own building under the selected id, present only if both exist |
| Numeric.Trunc | Scripts/PathfindingManager.cs:86-87 | `(int)` of a float truncates toward zero: the result is within one of the argument, on the zero side |
| PathfindingManager.PointId | Scripts/PathfindingManager.cs:196-199 | `y * 256 + x`; an in-bounds cell's id lies in [0, 65536) |
| PathfindingManager.PointIdIsBijective | Scripts/PathfindingManager.cs:196-199 | an in-bounds cell's id lies in [0, 65536) and decodes back to the cell |
| PathfindingManager.PointIdIsOnto | Scripts/PathfindingManager.cs:30-37 | every id in [0, 65536) is the id of an in-bounds cell |
| PathfindingManager.PointIdIsInjective | Scripts/PathfindingManager.cs:196-199 | two in-bounds cells with one id are the same cell |
| PathfindingManager.HasPointIff | Scripts/PathfindingManager.cs:30-37 | the grid's points are exactly the ids 0 to 65535 |
| PathfindingManager.ConnectedIff | Scripts/PathfindingManager.cs:40-65 | two cells are connected exactly when both are in bounds, distinct and at most one step apart in each axis |
| PathfindingManager.ConnectedIsSymmetricAndIrreflexive | Scripts/PathfindingManager.cs:56-60 | connection is symmetric and never links a cell to itself |
| PathfindingManager.InitialGrid | Scripts/PathfindingManager.cs:25-68 | right after `InitializeGrid` nothing is occupied or disabled, so the grid is consistent |
| PathfindingManager.FootprintIff | Scripts/PathfindingManager.cs:86-99 | a building blocks exactly the in-bounds cells within one step of its truncated anchor |
| PathfindingManager.PickId | Scripts/PathfindingManager.cs:84 | some id of a non-empty id set, standing for the next key of the dictionary enumeration; no enumeration order is assumed |
| PathfindingManager.BlockFootprints | Scripts/PathfindingManager.cs:84-109 | the blocking loop adds exactly the buildings' footprints to the occupied cells and disables their points |
| PathfindingManager.UpdateOccupiedTiles | Scripts/PathfindingManager.cs:73-139 | the previous occupancy is re-enabled and cleared. The occupied cells become the union of the visible own and enemy buildings' footprints, and their points are disabled |
| PathfindingManager.OccupiedIsUnionOfFootprints | Scripts/PathfindingManager.cs:84-136 | the cell-wise occupancy definition equals the union of the visible buildings' footprints |
| PathfindingManager.OccupancyIsIdempotent | Scripts/PathfindingManager.cs:76-81 | running the update twice against the same mirror equals running it once |
| PathfindingManager.DisabledIffOccupied | Scripts/PathfindingManager.cs:76-136 | from a consistent grid, an in-bounds point is disabled exactly when a visible building blocks its cell, and the grid stays consistent |
| PathfindingManager.OccupancyDependsOnlyOnVisibleAnchors | Scripts/PathfindingManager.cs:84-112 | occupancy depends only on the anchors of visible buildings; hidden buildings and `OccupiedTiles` play no part |
| PathfindingManager.FindPath | Scripts/PathfindingManager.cs:145-174 | empty when an endpoint id is outside the grid or the search finds nothing, otherwise the search's path unchanged |
| PathfindingManager.OutOfRangeXAliasesNextRow | Scripts/PathfindingManager.cs:149-153 | on every row y below 255, a position at x = 256 is searched as the cell (0, y + 1), although (256, y) is outside the grid |
| PathfindingManager.GetNextWaypoint | Scripts/PathfindingManager.cs:179-191 | nothing for an empty path, the second point of a longer path, the only point of a one-point path |
| PathfindingManager.SinglePointPathIsAWaypoint | Scripts/PathfindingManager.cs:187-190 | a one-point search result comes back as the waypoint |
| UnitMovement.NewMovement | Scripts/UnitMovement.cs:20-27 | a new movement is active, stores id, start, target and required distance, and has speed 2.0 |
| UnitMovement.Cancel | Scripts/UnitMovement.cs:74-77 | cancelling deactivates and changes nothing else |
| UnitMovement.Waypoint | Scripts/UnitMovement.cs:49-56 | with no pathfinder, no path or a waypoint equal to the position, the step aims at the target; otherwise at the pathfinder's waypoint |
| UnitMovement.Step | Scripts/UnitMovement.cs:59-68 | a step at least as long as the distance lands exactly on the waypoint |
| UnitMovement.Update | Scripts/UnitMovement.cs:33-72 | inactive: no change, false, no callback. Within range: stop in place, true, callback with the unit id if attached. Otherwise: one step toward the waypoint, still active, false. Only position and activity ever change |
| UnitMovement.Run | Scripts/UnitMovement.cs:33-77 | over any sequence of updates and cancels the callback fires at most once, only when attached and the movement has stopped; an inactive movement stays as it is |
| UnitMovement.StepAdvancesExactly | Scripts/UnitMovement.cs:59-68 | with an exact square root a step never leaves the segment to the waypoint. A short step covers exactly speed times delta and leaves exactly the rest of the distance |
| SnapshotParser.IntOr | Scripts/SnapshotParser.cs:22-23 | an absent optional key gives the default, a present one is read as required |
| SnapshotParser.ParseAll | Scripts/SnapshotParser.cs:26-33 | each element is cast to a dictionary (a non-object becomes empty); the list decodes when the decoder accepts every element, to the decoded elements in wire order |
| SnapshotParser.ListOf | Scripts/SnapshotParser.cs:26-83 | an absent list key, or a value that is not an array, gives the empty list; an array decodes element-wise |
| SnapshotParser.ParseInts | Scripts/SnapshotParser.cs:135-142 | queue items decode when all are numbers, truncated, in order |
| SnapshotParser.ParseUnit | Scripts/SnapshotParser.cs:151-165 | accepts exactly the objects with the six required numbers and numeric optional counters. Absent optional counters give 100, 0 and 0, speed stays 0.1 and the unit is visible |
| SnapshotParser.ParseBuilding | Scripts/SnapshotParser.cs:167-181 | accepts exactly the objects with the seven required numbers; absent hit points and maximum give 200 each |
| SnapshotParser.ParseResource | Scripts/SnapshotParser.cs:183-193 | accepts exactly the objects with the five required numbers |
| SnapshotParser.ParseEvent | Scripts/SnapshotParser.cs:195-218 | three required numbers. An absent `data`, or one that is not an object, gives an empty payload; an object is copied key by key |
| SnapshotParser.ParsePlayerResources | Scripts/SnapshotParser.cs:220-231 | all six counters are required |
| SnapshotParser.ParseTile | Scripts/SnapshotParser.cs:96-103 | both tile coordinates are required and truncated |
| SnapshotParser.ParseTrainingQueue | Scripts/SnapshotParser.cs:121-146 | four required numbers; absent or non-array `items` gives an empty list, present items keep their order |
| SnapshotParser.PlayerResourcesOf | Scripts/SnapshotParser.cs:86-90 | an absent `playerResources` leaves the default, a present one must decode, and a non-object converts to an empty dictionary that lacks `food` |
| SnapshotParser.ParseSnapshot | Scripts/SnapshotParser.cs:11-149 | a missing tick fails, and so does a non-object root, which converts to an empty dictionary. The map size defaults to 256. Each list is optional and decoded element-wise, and any bad part fails the whole snapshot |
| SnapshotParser.UnitRoundTrip | Scripts/SnapshotParser.cs:151-165 | an encoded unit decodes back to itself (given the unread fields hold their defaults) |
| SnapshotParser.BuildingRoundTrip | Scripts/SnapshotParser.cs:167-181 | an encoded building decodes back to itself |
| SnapshotParser.ResourceRoundTrip | Scripts/SnapshotParser.cs:183-193 | an encoded resource decodes back to itself |
| SnapshotParser.EventRoundTrip | Scripts/SnapshotParser.cs:195-218 | an encoded event decodes back to itself |
| SnapshotParser.PlayerResourcesRoundTrip | Scripts/SnapshotParser.cs:220-231 | encoded player resources decode back to themselves |
| SnapshotParser.TileRoundTrip | Scripts/SnapshotParser.cs:98-102 | an encoded tile decodes back to itself |
| SnapshotParser.QueueRoundTrip | Scripts/SnapshotParser.cs:126-144 | an encoded training queue decodes back to itself, items in order |
| SnapshotParser.ListRoundTrip | Scripts/SnapshotParser.cs:26-33 | a list of encoded records decodes to the same list |
| SnapshotParser.SnapshotPartsRoundTrip | Scripts/SnapshotParser.cs:26-146 | every list and object of an encoded snapshot decodes to the snapshot's own |
| SnapshotParser.SnapshotRoundTrip | Scripts/SnapshotParser.cs:11-149 | an encoded snapshot decodes back to itself |
| SnapshotParser.TickAloneGivesDefaults | Scripts/SnapshotParser.cs:19-23 | a document with only a tick decodes to the default snapshot at that tick |
| SnapshotParser.UnitWithoutRequiredKeyFails | Scripts/SnapshotParser.cs:155-160 | dropping any required unit key fails the decode |
| SnapshotParser.UnitOptionalDefaults | Scripts/SnapshotParser.cs:161-163 | dropping the optional unit counters gives 100, 0 and 0 |
| SnapshotParser.BuildingWithoutRequiredKeyFails | Scripts/SnapshotParser.cs:171-177 | dropping any required building key fails the decode |
| SnapshotParser.BuildingHpDefaultDiffersFromClass | Scripts/SnapshotParser.cs:178-179 | a building sent without hit points decodes with 200 of 200, not the class maximum of 1500 |
| SnapshotParser.PlayerResourcesWithoutKeyFails | Scripts/SnapshotParser.cs:224-229 | dropping any player-resource counter fails the decode |
| SnapshotParser.NonObjectDataIsEmpty | Scripts/SnapshotParser.cs:205-215 | null `data`, and a number there, each give an empty payload |
| SnapshotParser.NonCollectionValues | Scripts/SnapshotParser.cs:26-30 | a string under `units` and a number under `events` read as empty lists; an array under `playerResources` fails the snapshot |
| SnapshotParser.IntReadsTruncateTowardZero | Scripts/SnapshotParser.cs:100-101 | -2.5 reads as -2 and 2.5 as 2 |
| NetworkManager.DefaultConfig | Scripts/NetworkManager.cs:12-15 | player 1 named Player1, a 2 second retry delay, at most 10 attempts |
| NetworkManager.IsConnected | Scripts/NetworkManager.cs:365 | never connected without a socket; with one, connected exactly when its state is Open, the test `Send` uses as its guard |
| NetworkManager.Send | Scripts/NetworkManager.cs:339-349 | a message goes out only while the socket is open, and nothing else changes |
| NetworkManager.HandleAck | Scripts/NetworkManager.cs:184-203 | the first ok ack joins and sends `ready`, the next makes the client ready and emits `OnConnected`, and a not-ok or later ack changes no flag. Every handled ack emits `OnAckReceived`, and a message without a boolean `ok` is dropped |
| NetworkManager.HandleError | Scripts/NetworkManager.cs:205-210 | emits the server's error text; without `error` the message is dropped |
| NetworkManager.HandleSnapshot | Scripts/NetworkManager.cs:212-230 | a document that decodes is applied to the mirror and announced; one that does not is dropped and changes nothing |
| NetworkManager.HandleSnapshotAsWritten | Scripts/NetworkManager.cs:212-230 | as written: when a ResourceUpdate cast throws inside `ApplySnapshot`, the mirror keeps the merge and the earlier events and no `OnSnapshotReceived` is emitted; otherwise as `HandleSnapshot` |
| NetworkManager.SnapshotCastIsNotAnnounced | Scripts/NetworkManager.cs:223-224 | on the example snapshot the code as written emits nothing and keeps resource 7, while the intended handler announces the snapshot and drops resource 7 |
| NetworkManager.TypeOf | Scripts/NetworkManager.cs:155-156 | present exactly for an object with a `type` key; a string type is read as it is, any other as the empty string |
| NetworkManager.ProcessMessage | Scripts/NetworkManager.cs:143-182 | `ack`, `error` and `snapshot` reach their handlers, and anything else changes nothing. The socket and join flag are untouched, and at most a `ready` goes out |
| NetworkManager.HandleDisconnect | Scripts/NetworkManager.cs:232-245 | drops the socket, clears both flags, counts exactly one more attempt and emits `OnDisconnected` |
| NetworkManager.Connect | Scripts/NetworkManager.cs:126-141 | a connecting socket, or a disconnect if the transport refuses |
| NetworkManager.Init | Scripts/NetworkManager.cs:43-52 | a fresh mirror, no flags, nothing sent, one attempt counted if the first connect fails |
| NetworkManager.Retry | Scripts/NetworkManager.cs:114-123 | a retry happens exactly when there is no socket or a closed one, the timer reaches the delay and attempts remain; it resets the timer |
| NetworkManager.Poll | Scripts/NetworkManager.cs:57-111 | open: send `join` once, then handle the packet. Closed: clear the join flag and disconnect. Connecting or closing: wait |
| NetworkManager.ProcessPacket | Scripts/NetworkManager.cs:79-84 | a packet read while open goes to `ProcessMessage` |
| NetworkManager.Process | Scripts/NetworkManager.cs:54-124 | a frame never lowers the attempt count |
| NetworkManager.RunFrames | Scripts/NetworkManager.cs:54-124 | a run of frames never lowers the attempt count |
| NetworkManager.HandshakeSequence | Scripts/NetworkManager.cs:189-202 | ok ack, ok ack, ok ack: joined and `ready` sent, then ready and `OnConnected`, then nothing changes |
| NetworkManager.FrameWithoutClose | Scripts/NetworkManager.cs:66-106 | a frame that does not find the socket closed keeps it, only raises the join flag, and sends `join` exactly when open and not yet sent |
| NetworkManager.JoinAtMostOncePerConnection | Scripts/NetworkManager.cs:69-74 | while the socket is never found closed, at most one `join` goes out |
| NetworkManager.RetriesStopAtCap | Scripts/NetworkManager.cs:118-123 | attempts are never reset, so at the cap with no socket no frame connects or sends again |

## Left out

- Rendering, input, the HUD and node wiring (`GameRenderer.cs`, `GameManager.cs`) are presentation, not logic. Those files are not part of this model.
- The internals of Godot's `AStar2D` are out of scope. `GetPointPath` is an unconstrained oracle, so nothing is claimed about path optimality or about how the search treats disabled points.
- The WebSocket transport (`Poll`, `GetPacket`, `SendText`), JSON text parsing and printing, and logging are left out. Each frame's transport facts are parameters. Invalid JSON text is `None`.
- The 10-second connecting timeout (`NetworkManager.cs:92-106`) and its `joinTimer` are left out. A connecting socket just waits.
- Floating-point rounding is left out. `Vector2`, `float` and `double` arithmetic is exact real arithmetic, `(float)` narrowing of decoded numbers is the identity, and the square root is a parameter.
- 32-bit integer wrap-around of `(int)` casts and of `y * 256 + x` is left out. Integers are unbounded.
- SnapshotParser.IntAt: Godot converts a string, a boolean or null to a number when it is cast with `(int)` or `(float)`. The model treats any non-number as a failure, because the string-to-number rules of Godot are not modelled. This affects every record decoder:
- SnapshotParser.ParseUnit: a non-numeric value under a unit key fails instead of converting.
- SnapshotParser.ParseBuilding: a non-numeric value under a building key fails instead of converting.
- SnapshotParser.ParseResource: a non-numeric value under a resource key fails instead of converting.
- SnapshotParser.ParseEvent: a non-numeric `type`, `tick` or `entityId` fails instead of converting.
- SnapshotParser.ParsePlayerResources: a non-numeric counter fails instead of converting.
- SnapshotParser.ParseTile: a non-numeric coordinate fails instead of converting.
- SnapshotParser.ParseTrainingQueue: a non-numeric field fails instead of converting.
- SnapshotParser.ParseInts: a non-numeric queue item fails instead of converting.
- SnapshotParser.IntOr: a non-numeric optional value fails instead of converting.
- SnapshotParser.ParseSnapshot: a non-numeric `tick` or map size fails instead of converting.
- NetworkManager.HandleAck: Godot's `AsBool` converts a non-boolean `ok` (a non-zero number is true, for example), but the model drops such a message.
- NetworkManager.HandleError: Godot's `ToString` of a non-string `error` gives its text form (`1` for the number 1), but the model emits the empty string. The same holds for `msg` in `HandleAck`.
- NetworkManager.TypeOf: a non-string `type` reads as the empty string rather than its text form; either way it matches no handled type and the message is ignored.
- GameState.ApplyEvent: this is the intended ResourceUpdate behaviour: the amount is read as a number and truncated, and a non-numeric amount leaves the resource as it was. The C# code as written throws on this branch instead; see Findings.
- `PlayerId`, `PlayerName` and `SelectedUnitIds` of the mirror, and the `Get*` enumerations of all values, add no logic. The model's maps are the collections themselves.
- `ServerUrl` and the public `Send*` command builders are left out. Each becomes one `Outgoing` value passed to `NetworkManager.Send`, whose open-state guard is what is modelled.
- Object identity is left out. The C# mirror stores the snapshot's own record objects and Hidden mutates them in place. No record is shared between two collections, so value semantics give the same observable results.
- `UnitMovement.Step`: the exact-distance properties hold only under `ExactSqrt`, and are stated in `UnitMovement.StepAdvancesExactly` instead.
- Units have no speed fallback: every movement starts at 2.0 and its speed is never corrected.
- Snapshots are applied whether or not the handshake has reached "ready".
- One entity that fails to decode makes the whole snapshot fail, so the snapshot is dropped; the entity is not skipped on its own.
- The attempt counter is never reset after a successful connection, so the cap bounds the attempts over the whole session.
- Auto-gather intents, replacing a unit's running movement, and server position correction of movements are not part of the client code and are not modelled.

## Findings

| source | as written | input that shows it | evidently intended | confidence | as-written member | corrected member |
|---|---|---|---|---|---|---|
| Scripts/GameState.cs:181 | `(int)evt.Data["amount"]` unboxes a value that the parser stored as a boxed Godot `Variant` (Scripts/SnapshotParser.cs:212). The cast throws `InvalidCastException`, the remaining events of the snapshot are skipped, and `HandleSnapshot` catches the exception without emitting `OnSnapshotReceived` | a snapshot listing resource 7 with events ResourceUpdate(7, amount 5) then Destroy(7): resource 7 stays in the mirror with its old amount and the snapshot is not announced | the amount is converted to an integer and stored, every event runs, and the snapshot is announced | high; not executed | GameState.CastAbortsLaterDestroy | GameState.ApplyEvent |
| Scripts/NetworkManager.cs:223-224 | the exception above leaves a partly applied mirror and no `OnSnapshotReceived` | the same snapshot sent to a fresh client | the snapshot is applied in full and announced | high; not executed | NetworkManager.SnapshotCastIsNotAnnounced | NetworkManager.HandleSnapshot |
