# dibidab engine core in Dafny

This project is a Dafny model of five parts of the dibidab game engine. Each part has a proved contract.

- **Multiplayer packet input** (`MultiplayerIO`, `multiplayer_io.dfy`).
  - A message from the socket is dropped in one of three cases:
    - it is too short to hold a type hash;
    - no receiver is registered for its type;
    - the receiver fails to decode it.
  - Otherwise the packet is counted. Then it is either handled at once or queued for its type.
  - `handlePackets` drains the queues. Each type's packets are handled in arrival order; the order between types is not fixed.
  - A missing handler drops the packet. A handler that throws closes the socket.
  - Destroying the connection reports every type whose queue still holds packets.
  - The connection is a class. Its queues, packet counter, socket flag and error log are fields. The methods are proved against pure functions (`Classify`, `DispatchResult`, `DispatchAll`) and against trace predicates.
- **Integer bounding box** (`AABB`, `aabb.dfy`).
  - It covers the corner and edge accessors, the inclusive `contains`, the strict `overlaps`, the Cohen–Sutherland out-code, and the trivial accept and reject of the segment test.
  - It also covers the fields read by the change hash, with C++ integer division, and the default field values.
- **Lua tables and default arguments** (`lua_tables.dfy`).
  - A Lua table is a map without nil keys or values.
  - The default-argument loop fills only the keys the caller left nil.
- **Entity templates, later layout** (`entity_template.dfy`, from `ecs/entity_templates`).
  - The `persistenceMode` flags decode into a fresh `Persistent` record.
  - The initial mode is set by the template.
  - Creating an entity records the template it used and the save-game id it chose. For a persistent entity, it also records the data that recreates that entity.
  - `getUniqueID` is the name, an underscore and 24 random characters.
- **Entity templates, room layout** (`room_entity_template.dfy`, from `level/room/ecs/entity_templates`).
  - It has the earlier flag layout and a smaller creation step: creating an entity records only its `Persistent` component, with the arguments as data when the template saves them. There is no `LuaScripted` record, no save-game id and no spawn position.
  - It covers the script functions `getComponent`, `setComponent`, `setComponents` and `getChild`.
  - It includes the correction of a defect in the default-argument choice; see Findings.
- **Component look-up** (`components.dfy`).
  - This is `componentUtils` by name, and the check of every component a template asks to save.
- **Single-player session** (`singleplayer_session.dfy`).
  - `join` either declines or installs exactly one local player, with id 1999.
  - `setLevel` refuses while the current level is updating. Otherwise it deletes the current level and installs the new one, then initializes and announces it.
  - If `setLevel` is given the level it already holds, it deletes that level and then installs and initializes it again: a use after free in the source. `SetLevel`'s contract exhibits it: on success `old(level).deleted` holds and `level == newLevel`, and a different new level is never marked deleted.

## Model

| member | source | states |
|---|---|---|
| `Aabb.AABB.ComputeOutCode` | source/level/room/ecs/components/physics/Physics.h:73-95 | INSIDE exactly when the box contains the point; LEFT and RIGHT are never both set, nor BOTTOM and TOP; the code is at most 15; LEFT is set iff the point is left of the box, and RIGHT iff it is right of the box and LEFT did not apply (BOTTOM/TOP alike) |
| `Aabb.TruncDiv` | source/level/room/ecs/components/physics/Physics.h:22 | division rounds toward zero as C++ `int` division does: the remainder has the sign of the dividend and is smaller than the divisor |
| `Aabb.AABB.TopRight` | source/level/room/ecs/components/physics/Physics.h:30 | in a box with non-negative half size; no contained point lies above or right of it |
| `Aabb.AABB.BottomRight` | source/level/room/ecs/components/physics/Physics.h:31 | in a box with non-negative half size; no contained point lies below or right of it |
| `Aabb.AABB.BottomLeft` | source/level/room/ecs/components/physics/Physics.h:32 | in a box with non-negative half size; no contained point lies below or left of it |
| `Aabb.AABB.TopLeft` | source/level/room/ecs/components/physics/Physics.h:33 | in a box with non-negative half size; no contained point lies above or left of it |
| `Aabb.AABB.TopCenter` | source/level/room/ecs/components/physics/Physics.h:34 | in the box; no contained point lies above it; halfway between the top corners |
| `Aabb.AABB.BottomCenter` | source/level/room/ecs/components/physics/Physics.h:35 | in the box; no contained point lies below it; halfway between the bottom corners |
| `Aabb.AABB.RightCenter` | source/level/room/ecs/components/physics/Physics.h:36 | in the box; no contained point lies right of it; halfway between the right corners |
| `Aabb.AABB.LeftCenter` | source/level/room/ecs/components/physics/Physics.h:37 | in the box; no contained point lies left of it; halfway between the left corners |
| `Aabb.AABB.Contains` | source/level/room/ecs/components/physics/Physics.h:47-51 | inclusive: a point is inside exactly when it is at most the half size from the centre on both axes; a box with a negative half size contains nothing |
| `Aabb.AABB.Overlaps` | source/level/room/ecs/components/physics/Physics.h:53-63 | strict: two boxes overlap exactly when their centres are closer than the sum of their half sizes on both axes |
| `Aabb.AABB.LineIntersectsOrInside` | source/level/room/ecs/components/physics/Physics.h:100-118 | true when both end points are inside; false when their out-codes share a side; any other true answer comes from one of the four side-segment tests |
| `Aabb.AABB.HashKey` | source/level/room/ecs/components/physics/Physics.h:20-23 | the half size, and for each centre coordinate the bucket of ten it falls in, rounded toward zero |
| `Aabb.DefaultAABB` | source/level/room/ecs/components/physics/Physics.h:25-26 | the default box contains exactly the 3x3 pixels around the origin and overlaps itself |
| `Aabb.CornersFormRectangle` | source/level/room/ecs/components/physics/Physics.h:30-37 | top-right and bottom-left are centre plus and minus half size; the other corners mix their coordinates; each edge centre is the midpoint of its edge's corners |
| `Aabb.CornersOnBorder` | source/level/room/ecs/components/physics/Physics.h:30-51 | a box with non-negative half size contains all eight accessor points, and one step beyond a corner is outside |
| `Aabb.ContainsBetweenCorners` | source/level/room/ecs/components/physics/Physics.h:47-51 | `contains` is inclusive: a point is inside exactly when bottom-left <= p <= top-right on both axes |
| `Aabb.OverlapsSymmetric` | source/level/room/ecs/components/physics/Physics.h:53-63 | `a.overlaps(b) == b.overlaps(a)` |
| `Aabb.TouchingBoxesDoNotOverlap` | source/level/room/ecs/components/physics/Physics.h:53-63 | boxes sharing a vertical edge do not overlap, although both contain the shared border point |
| `Aabb.OverlapsSelf` | source/level/room/ecs/components/physics/Physics.h:53-63 | a box overlaps itself exactly when both half sizes are positive |
| `Aabb.OverlapWitness` | source/level/room/ecs/components/physics/Physics.h:53-63 | overlapping boxes (non-negative half sizes) have a common point that both contain |
| `Aabb.TrivialAccept` | source/level/room/ecs/components/physics/Physics.h:100-108 | both end points inside: the test answers true, and every point of the segment's span is inside |
| `Aabb.TrivialReject` | source/level/room/ecs/components/physics/Physics.h:109-113 | out-codes sharing a bit: the test answers false, and no point of the segment's span is inside |
| `Aabb.NonTrivialDefersToSegmentTest` | source/level/room/ecs/components/physics/Physics.h:114-118 | otherwise the answer is exactly the disjunction of the four side-segment tests |
| `Aabb.HashKeyBuckets` | source/level/room/ecs/components/physics/Physics.h:20-28 | moving the centre within its step-10 bucket keeps the hash key; changing the half size changes it |
| `Aabb.BucketAroundZero` | source/level/room/ecs/components/physics/Physics.h:22-28 | with C++ division the bucket of zero is -9..9, nineteen coordinates wide |
| `Aabb.PositiveBucket` | source/level/room/ecs/components/physics/Physics.h:22-28 | for non-negative coordinates the buckets are the usual runs of ten |
| `Aabb.DefaultBox` | source/level/room/ecs/components/physics/Physics.h:20-26 | the default box spans from (-1, -1) to (1, 1), and its hash key is its half size with both centre coordinates in bucket zero |
| `MultiplayerIo.LittleEndian` | source/game/session/multiplayer/io/MultiplayerIO.cpp:23 | the type hash read from n bytes is below 256^n |
| `MultiplayerIo.LittleEndianRoundTrip` | source/game/session/multiplayer/io/MultiplayerIO.cpp:23 | reading back the bytes a sender wrote for a hash gives that hash |
| `MultiplayerIo.Classify` | source/game/session/multiplayer/io/MultiplayerIO.cpp:15-43 | the checks in order: too short iff fewer bytes than a hash; unregistered iff no receiver; undecodable iff the receiver throws on the payload; otherwise decoded by that receiver from exactly the payload |
| `MultiplayerIo.ClassifyFrame` | source/game/session/multiplayer/io/MultiplayerIO.cpp:23-43 | a message built from a hash and a payload is classified by that hash and decoded from that payload |
| `MultiplayerIo.DispatchResult` | source/game/session/multiplayer/io/MultiplayerIO.cpp:92-108 | no handler iff the type has none; failed iff the handler throws |
| `MultiplayerIo.DispatchAll` | source/game/session/multiplayer/io/MultiplayerIO.cpp:86 | one event per queued packet; `DispatchAllFacts` states which |
| `MultiplayerIo.DispatchAllFacts` | source/game/session/multiplayer/io/MultiplayerIO.cpp:86 | dispatching a queue dispatches exactly its packets, in order, to its type only, each with its handler's result |
| `MultiplayerIo.NoFailureWithoutThrowingHandler` | source/game/session/multiplayer/io/MultiplayerIO.cpp:92-108 | a drain of the queues fails only if some handler throws on a queued packet |
| `MultiplayerIo.ThrowingHandlerFails` | source/game/session/multiplayer/io/MultiplayerIO.cpp:92-108 | conversely, a handler that throws on any queued packet makes the drain fail, so the socket closes |
| `MultiplayerIo.MultiplayerIO.constructor` | source/game/session/multiplayer/io/MultiplayerIO.cpp:5-11 | empty queues, zero packets received, open socket |
| `MultiplayerIo.MultiplayerIO.HandlePacket` | source/game/session/multiplayer/io/MultiplayerIO.cpp:92-109 | one dispatch logged; the socket is closed exactly when it was or the handler threw |
| `MultiplayerIo.MultiplayerIO.HandleInput` | source/game/session/multiplayer/io/MultiplayerIO.cpp:13-57 | a dropped message changes only the log; a decoded one increments the counter by one, and is appended to its own type's queue (deferred, other queues unchanged) or dispatched at once (immediate, nothing queued) |
| `MultiplayerIo.MultiplayerIO.HandleQueue` | source/game/session/multiplayer/io/MultiplayerIO.cpp:86 | the log grows by the dispatch of the queue's packets in order; the socket closes iff a handler threw |
| `MultiplayerIo.MultiplayerIO.HandlePackets` | source/game/session/multiplayer/io/MultiplayerIO.cpp:78-90 | every queue ends empty, keys kept; per type the new log dispatches exactly that type's queued packets in arrival order, each with its handler's result; the socket closes iff a handler threw |
| `MultiplayerIo.MultiplayerIO.Destroy` | source/game/session/multiplayer/io/MultiplayerIO.cpp:59-70 | one leftover warning per non-empty queue, then the end of the connection |
| `LuaTables.Get` | source/ecs/entity_templates/LuaEntityTemplate.cpp:111 | indexing gives nil exactly for an absent key |
| `LuaTables.WithDefaults` | source/ecs/entity_templates/LuaEntityTemplate.cpp:107-114 | the merged keys are the caller's plus the defaults'; caller values win; defaults fill only missing keys |
| `LuaTables.FillDefaults` | source/ecs/entity_templates/LuaEntityTemplate.cpp:109-113 | the loop over the defaults, in any order, yields exactly `WithDefaults` |
| `LuaTables.WithDefaultsIdempotent` | source/ecs/entity_templates/LuaEntityTemplate.cpp:107-114 | filling defaults a second time changes nothing |
| `LuaTables.WithDefaultsOfEmpty` | source/ecs/entity_templates/LuaEntityTemplate.cpp:107-114 | an empty argument table becomes exactly the defaults |
| `LuaTables.WithoutDefaults` | source/ecs/entity_templates/LuaEntityTemplate.cpp:107-114 | empty defaults leave the arguments unchanged |
| `Components.UnknownComponentError` | source/level/room/ecs/entity_templates/LuaEntityTemplate.cpp:279 | the error names the missing component type |
| `Components.ComponentUtils` | source/level/room/ecs/entity_templates/LuaEntityTemplate.cpp:275-281 | succeeds iff the type is registered, otherwise fails with the error naming it |
| `Components.FirstUnknown` | source/ecs/entity_templates/LuaEntityTemplate.cpp:38-39 | the position of the first unregistered name, all names before it registered |
| `Components.CheckComponents` | source/ecs/entity_templates/LuaEntityTemplate.cpp:35-40 | passes iff every name is registered; otherwise fails with the error of the first unregistered name |
| `EntityTemplates.PersistencyFor` | source/ecs/entity_templates/LuaEntityTemplate.cpp:26-37 | a fresh record: no stored data and no spawn position carried over |
| `EntityTemplates.ModeOf` | source/ecs/entity_templates/LuaEntityTemplate.cpp:16-22 | the six flags occupy bits 0-5 only |
| `EntityTemplates.ModeRoundTrip` | source/ecs/entity_templates/LuaEntityTemplate.cpp:16-34 | each of TEMPLATE=1, ARGS=2, FINAL_POS=4, SPAWN_POS=8, ALL_COMPONENTS=16, REVIVE=32 sets exactly its own field: reading the mode back gives its six low bits; with TEMPLATE the record re-applies the template of this very name on load, without it none |
| `EntityTemplates.ModeIgnoresHigherBits` | source/ecs/entity_templates/LuaEntityTemplate.cpp:26-34 | bits above the six flags make no difference |
| `EntityTemplates.UniqueId` | source/ecs/entity_templates/LuaEntityTemplate.cpp:179-182 | the name, `_`, then the 24 random characters, 25 characters longer than the name |
| `EntityTemplates.UniqueIdInjective` | source/ecs/entity_templates/LuaEntityTemplate.cpp:179-182 | different random strings give different ids |
| `EntityTemplates.ArgumentsFor` | source/ecs/entity_templates/LuaEntityTemplate.cpp:107-114 | with a table: its keys and values kept, missing keys from the defaults; without one: the defaults |
| `EntityTemplates.SaveId` | source/ecs/entity_templates/LuaEntityTemplate.cpp:122 | the `saveGameEntityID` argument when it is a string, otherwise the unique id |
| `EntityTemplates.RecordedData` | source/ecs/entity_templates/LuaEntityTemplate.cpp:126-135 | a chosen id is stored under `saveGameEntityID`; every other key is an argument, stored only when the template saves arguments |
| `EntityTemplates.RecreatedKeepsSaveId` | source/ecs/entity_templates/LuaEntityTemplate.cpp:91-135 | recreating a persistent entity from its data chooses the same save-game id again |
| `EntityTemplates.RecreatedKeepsArguments` | source/ecs/entity_templates/LuaEntityTemplate.cpp:91-135 | with saved arguments, recreating passes every original argument again with its value |
| `EntityTemplates.LuaEntityTemplate.constructor` | source/ecs/entity_templates/LuaEntityTemplate.cpp:7-43 | empty default table; the record of mode TEMPLATE, ARGS and FINAL_POS |
| `EntityTemplates.LuaEntityTemplate.SetPersistentMode` | source/ecs/entity_templates/LuaEntityTemplate.cpp:24-41 | the record depends only on the new mode and names; fails iff a name is unregistered, with the first one's error |
| `EntityTemplates.LuaEntityTemplate.SetDefaultArgs` | source/ecs/entity_templates/LuaEntityTemplate.cpp:45-47 | the default table is replaced |
| `EntityTemplates.LuaEntityTemplate.MergeArguments` | source/ecs/entity_templates/LuaEntityTemplate.cpp:107-114 | the arguments `create` receives are `ArgumentsFor` the caller's table and the defaults |
| `EntityTemplates.LuaEntityTemplate.CreateComponentsWithLuaArguments` | source/ecs/entity_templates/LuaEntityTemplate.cpp:100-153 | marks the template used; chooses save data only when none is valid; persistent: records the data and, after a successful `create` that kept `Persistent`, the position; logs a failing `create` |
| `EntityTemplates.LuaEntityTemplate.CreateComponentsWithJsonArguments` | source/ecs/entity_templates/LuaEntityTemplate.cpp:171-177 | the given document, merged with the defaults, is what `create` receives |
| `EntityTemplates.LuaEntityTemplate.CreateComponents` | source/ecs/entity_templates/LuaEntityTemplate.cpp:91-98 | a persistent entity with `Persistent` is recreated from its stored data; any other from the defaults |
| `RoomEntityTemplates.PersistencyFor` | source/level/room/ecs/entity_templates/LuaEntityTemplate.cpp:25-36 | a fresh record with no stored data |
| `RoomEntityTemplates.ModeOf` | source/level/room/ecs/entity_templates/LuaEntityTemplate.cpp:16-21 | the five flags occupy bits 0-4 only |
| `RoomEntityTemplates.ModeRoundTrip` | source/level/room/ecs/entity_templates/LuaEntityTemplate.cpp:16-33 | TEMPLATE=1, ARGS=2, POS=4, ALL_COMPONENTS=8, REVIVE=16 each set exactly their own field: reading the mode back gives its five low bits; with TEMPLATE the record re-applies the template of this very name on load, without it none |
| `RoomEntityTemplates.ArgumentsAsWritten` | source/level/room/ecs/entity_templates/LuaEntityTemplate.cpp:207-214 | the argument choice as written: merged only when both tables exist, otherwise the default table, whether or not it exists |
| `RoomEntityTemplates.ArgumentsAsWrittenDropsArguments` | source/level/room/ecs/entity_templates/LuaEntityTemplate.cpp:207-214 | with no default table, the arguments `{hp = 10}` become nil |
| `RoomEntityTemplates.ArgumentsFor` | source/level/room/ecs/entity_templates/LuaEntityTemplate.cpp:207-214 | corrected choice: a supplied table always reaches `create` with its keys and values; other keys come from the defaults |
| `RoomEntityTemplates.ArgumentsForAgreesWithDeclaredDefaults` | source/level/room/ecs/entity_templates/LuaEntityTemplate.cpp:207-214 | the correction changes nothing when the template declares defaults or no table is given |
| `RoomEntityTemplates.NoDefaultsIsEmptyDefaults` | source/ecs/entity_templates/LuaEntityTemplate.cpp:14 | with the correction, no default table behaves as an empty one, which is what the later layout starts with |
| `RoomEntityTemplates.EntryError` | source/level/room/ecs/entity_templates/LuaEntityTemplate.cpp:81-91 | an entry is accepted iff its key is a string, its value a table and its name a registered type; otherwise the matching error |
| `RoomEntityTemplates.GetComponent` | source/level/room/ecs/entity_templates/LuaEntityTemplate.cpp:62-72 | error iff the type is unknown; nil iff the entity lacks the component; otherwise the component |
| `RoomEntityTemplates.GetChild` | source/level/room/ecs/entity_templates/LuaEntityTemplate.cpp:126-132 | nil iff the parent has no child of that name |
| `RoomEntityTemplates.SetComponent` | source/level/room/ecs/entity_templates/LuaEntityTemplate.cpp:76-78 | sets the component iff its type is registered, otherwise fails naming it and changes nothing |
| `RoomEntityTemplates.SetComponents` | source/level/room/ecs/entity_templates/LuaEntityTemplate.cpp:79-92 | passes iff every entry is acceptable, else fails with some refused entry's error; nothing is removed, and only accepted entries change components; on success every entry reads back through `GetComponent` |
| `RoomEntityTemplates.LuaEntityTemplate.constructor` | source/level/room/ecs/entity_templates/LuaEntityTemplate.cpp:8-42 | no default table; the record of mode TEMPLATE, ARGS and POS |
| `RoomEntityTemplates.LuaEntityTemplate.SetPersistentMode` | source/level/room/ecs/entity_templates/LuaEntityTemplate.cpp:23-40 | the record depends only on the new mode and names; fails iff a name is unregistered |
| `RoomEntityTemplates.LuaEntityTemplate.SetDefaultArgs` | source/level/room/ecs/entity_templates/LuaEntityTemplate.cpp:44-46 | the template now has this default table |
| `RoomEntityTemplates.LuaEntityTemplate.MergeArguments` | source/level/room/ecs/entity_templates/LuaEntityTemplate.cpp:207-214 | the corrected choice, with the in-place fill loop |
| `RoomEntityTemplates.LuaEntityTemplate.CreateComponentsWithLuaArguments` | source/level/room/ecs/entity_templates/LuaEntityTemplate.cpp:200-232 | corrected choice (see Findings): `create` receives `ArgumentsFor`, not the code's nil when no defaults are declared; persistent: the template's record, with those arguments as data when the template saves them; a failing `create` is logged |
| `RoomEntityTemplates.LuaEntityTemplate.CreateComponentsWithJsonArguments` | source/level/room/ecs/entity_templates/LuaEntityTemplate.cpp:262-268 | corrected choice (see Findings): the given document reaches `create`, merged with the defaults when there are any |
| `RoomEntityTemplates.LuaEntityTemplate.CreateComponents` | source/level/room/ecs/entity_templates/LuaEntityTemplate.cpp:191-198 | corrected choice (see Findings): a persistent entity with `Persistent` is recreated from its stored data, which reaches `create` even when no defaults are declared; any other entity gets the defaults |
| `Session.SingleplayerSession.Join` | source/game/session/SingleplayerSession.cpp:4-20 | a decline leaves players and local player unchanged and reports the reason; an accepted join (into an empty session) makes a new player with id 1999 and the name, the only one in `players` |
| `Session.SingleplayerSession.SetLevel` | source/game/session/SingleplayerSession.cpp:28-41 | refused, changing nothing, while the current level updates; otherwise the old level is deleted and `level == newLevel`, and a new level other than the old one is not marked deleted; a new level is initialized, announced and given the players' entities, and a null level is announced as null |

## Left out

- The mutex around the packet queues and the socket thread are left out. Enqueueing and draining are sequential operations.
- The bodies of receivers and handlers are opaque outcomes (decoded or threw, returned or threw).
- The packet-type names in log lines and `printTypes` are left out.
- `operator[]` inserting empty entries into the receiver and handler tables is left out. It has no effect on what is dispatched.
- `PacketTypeHash`'s declaration is not part of this model. The hash is taken to be 8 bytes, read little-endian from the start of the message.
- `packetsReceived` and the `ivec2` coordinates are unbounded integers. The 32-bit overflow of the source is not modelled.
- The destructor deleting the receiver, handler and sender records (memory management) is left out.
- The float components of the physics header are left out: `Physics`, `Fluid`, `DistanceConstraint` and `ComponentInterpolator<AABB>`.
- `randomPointInAABB` (randomness) and `draw` (rendering) are left out.
- `lineSegmentsIntersect` is not part of this model. It is a parameter of the segment test.
- The hash function applied by `HASH(...)` is not part of this model. Only the fields it reads are.
- The Lua interpreter is left out:
  - `runScript` and the script reload;
  - the body of `create`, which is only its outcome and whether it removed `Persistent`;
  - `setUpdateFunction`, `setOnDestroyCallback` and `description`;
  - `getDefaultArgs`;
  - the room layout's tile, time, entity-creation, `removeComponent` and `applyTemplate` functions.
- The JSON conversions (`jsonFromLuaTable`, `jsonToLuaTable`, `lua_converter`) are treated as exact between a table and a JSON object. JSON arrays and scalars are not modelled.
- Aliasing of Lua tables is not modelled. In the source, the caller's table is filled in place and `arguments = defaultArgs` hands `create` the template's own table. The model passes table values.
- `SaveGame::getSaveDataForEntity` is represented only by the id and the temporary flag it is called with.
- `randomString(24)` is the parameter `random`. The entity position after `create` is the parameter `position`.
- sol's string checks (`get_or<std::string>`, `is<std::string>`) are taken to accept Lua strings only. Numbers are not converted.
- Converting a component to and from a Lua table (`getToLuaTable`, `setFromLuaTable`) is not part of this model. A component is stored as the table it was set from.
- `Room::getChildByName` is not part of this model. An entity's named children are a map.
- The declaration of `Persistent` is not part of this model. Its default is assumed to be an empty template name, all flags false, no components, empty data and no spawn position.
- `EntityEngine::componentUtils`, used by the later layout, is not part of this model. It is assumed to fail like the room layout's `componentUtils`.
- `EntityTemplates.LuaEntityTemplate.CreateComponentsWithJsonArguments` states only the arguments, the template used and the error log. The entity's records follow from `CreateComponentsWithLuaArguments`, which it calls.
- `EntityTemplates.LuaEntityTemplate.CreateComponents` states only the arguments, the template used and the error log, for the same reason.
- `RoomEntityTemplates.LuaEntityTemplate.CreateComponentsWithJsonArguments` states only the arguments and the error log, for the same reason.
- `RoomEntityTemplates.LuaEntityTemplate.CreateComponents` states only the arguments and the error log, for the same reason.
- For `SingleplayerSession`:
  - `validateUsername` is not part of this model; its decline reason is a parameter.
  - `onJoinRequestDeclined`, `onNewLevel` and `spawnPlayerEntities` are recorded as events.
  - `Level::initialize` is a flag, and deleting a level is a flag.
  - `update` is left out, because `Level::update` is not part of this model.
- `Session.SingleplayerSession.Join` takes the source's `assert(players.empty())` as a precondition of an accepted join.

## Findings

| source | as written | input that shows it | evidently intended | confidence | as-written member | corrected member |
|---|---|---|---|---|---|---|
| source/level/room/ecs/entity_templates/LuaEntityTemplate.cpp:207-214 | the caller's table is merged only when `defaultArgs` is a valid table, and is otherwise replaced by `defaultArgs`; this layout never initialises `defaultArgs`, so it is invalid until the script calls `defaultArgs(...)` | a template whose script never calls `defaultArgs`, created with arguments `{hp = 10}` (or recreated from stored data): `create` receives nil, and a persistent entity's data is not written | keep the caller's table when there are no defaults, as the later layout does by starting `defaultArgs` as an empty table (source/ecs/entity_templates/LuaEntityTemplate.cpp:14) | not executed; medium (the header that declares `defaultArgs` for this layout is not part of this model) | `RoomEntityTemplates.ArgumentsAsWritten`, `RoomEntityTemplates.ArgumentsAsWrittenDropsArguments` | `RoomEntityTemplates.ArgumentsFor` |
