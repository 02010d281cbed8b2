# NexusForever world-server core, modelled in Dafny

NexusForever is a server emulator for the game WildStar. This project models
six pieces of it, one Dafny module per core class (ApiQueue holds both
`ApiManager` and `PendingAction`), plus the support modules Base, Decimal and
PacketWriter, which model no source file of their own. Each module states what the
code promises and proves it.

- **EntitySummon** (`EntitySummonFactory`) is the per-owner summon factory:
  - it sets its owner once;
  - it summons entities onto the owner's map;
  - it tracks the guid of each summon the map reports as added, raising
    OnSummon;
  - it untracks and unsummons them, raising OnUnsummon and asking the map to
    remove entities it still holds.
- **ApiQueue** (`ApiManager`, `PendingAction`) is the queue through which web
  requests hand actions to the world thread:
  - `Run` enqueues an action and returns a waiter;
  - `Update` takes every action queued at that moment, runs each once and
    releases its waiter;
  - an action that throws never releases its waiter, so its caller waits
    for ever, and `Update` itself fails once all taken actions have run;
  - actions those actions enqueue wait for the next `Update`.
- **Cinematics** (`GlobalCinematicManager`) is the process-wide cinematic id
  counter. It is a `uint` that starts at 1073743000 and is post-incremented on
  every read.
- **Tables** (`TablesController.GetTable`) is the `/tables/{tableName}`
  endpoint:
  - it reads `limit`, `offset` and field filters from the query string
    (`int.TryParse` semantics for the first two);
  - it walks the table's `lookup` array, skipping absent entries, the first
    `offset` present entries and entries failing a filter;
  - it stops after `limit` results;
  - an unknown filter field gives status 400.
- **Texts** (`TextController`) is the `/text` endpoints:
  - texts for a list of ids;
  - every present text keyed by index;
  - one text, with a message naming the id when the English text is missing.
- **PinataLoot** and **VanityPet** are two network serialisers:
  - the pinata loot entity model writes four fields with fixed widths;
  - `ServerUnlockVanityPet` (opcode 0x01AE) writes an 18-bit Spell4Id.

Both serialisers write through **PacketWriter**, which models the bit writer as
a log of (value, width) fields. **Base** holds the C# integer types and
`Option`. **Decimal** models `int.TryParse` and decimal formatting.

Reflection, callbacks and lookups into other subsystems are parameters. A game
table is its `lookup` array, its field names, its `GetEntry` and the text
`string.Format` gives for a field. The owner's map is the set of guids it still
resolves, plus the `OnAddedToMap` callback.

## Model

| member | source | states |
|---|---|---|
| EntitySummon.EntitySummonFactory.constructor | Source/NexusForever.Game/Entity/EntitySummonFactory.cs:14-16 | a new factory has no owner, tracks nothing and has raised no events |
| EntitySummon.EntitySummonFactory.SummonCount | Source/NexusForever.Game/Entity/EntitySummonFactory.cs:9 | the count is the number of distinct tracked guids, at most 2^32 |
| EntitySummon.EntitySummonFactory.Initialise | Source/NexusForever.Game/Entity/EntitySummonFactory.cs:36-42 | fails exactly when an owner is already set, and then changes nothing; otherwise sets the owner and nothing else |
| EntitySummon.EntitySummonFactory.Summon | Source/NexusForever.Game/Entity/EntitySummonFactory.cs:56-69 | with no owner it fails before any request; otherwise it builds an entity of the template's type with the given rotation and the owner's guid as summoner, and asks the owner's map to add it at the position; nothing is tracked before the map calls back |
| EntitySummon.EntitySummonFactory.SummonOfType | Source/NexusForever.Game/Entity/EntitySummonFactory.cs:47-51 | as `Summon`, for an entity of the requested type |
| EntitySummon.EntitySummonFactory.OnAddedToMap | Source/NexusForever.Game/Entity/EntitySummonFactory.cs:71-83 | the map's add callback tracks the guid and raises OnSummon first, then runs the caller's own add callback if one was given |
| EntitySummon.EntitySummonFactory.TrackSummon | Source/NexusForever.Game/Entity/EntitySummonFactory.cs:85-89 | the guid becomes tracked; the count grows by one exactly when the guid was new; OnSummon is raised either way |
| EntitySummon.EntitySummonFactory.UntrackSummon | Source/NexusForever.Game/Entity/EntitySummonFactory.cs:97-101 | the guid is no longer tracked and OnUnsummon is raised, whether or not it was tracked |
| EntitySummon.EntitySummonFactory.Unsummon | Source/NexusForever.Game/Entity/EntitySummonFactory.cs:106-118 | an untracked guid changes nothing; a tracked one is untracked with OnUnsummon, and removal is requested exactly when the map still holds it |
| EntitySummon.EntitySummonFactory.UnsummonAll | Source/NexusForever.Game/Entity/EntitySummonFactory.cs:123-129 | every tracked guid is unsummoned exactly once, with one OnUnsummon each and a removal for those still on the map, and nothing is tracked afterwards |
| EntitySummon.Removals | Source/NexusForever.Game/Entity/EntitySummonFactory.cs:113-117 | removal is requested only for unsummoned guids that are on the map, no more requests than unsummoned guids, and a request for every unsummoned guid that is on the map |
| ApiQueue.ApiManager.constructor | Source/NexusForever.WorldServer/Api/ApiManager.cs:15-19 | a new manager has an empty queue and has run nothing |
| ApiQueue.PendingAction.constructor | Source/NexusForever.WorldServer/Api/PendingAction.cs:15-19 | a new waiter holds its action and is not released |
| ApiQueue.ApiManager.Run | Source/NexusForever.WorldServer/Api/ApiManager.cs:26-31 | appends a new, unreleased waiter for the action to the back of the queue, and runs nothing |
| ApiQueue.ApiManager.Update | Source/NexusForever.WorldServer/Api/ApiManager.cs:33-46 | takes exactly the actions queued at the call and runs each once, in the run log right after what ran before; releases exactly the waiters whose action did not throw; fails exactly when some taken action threw; what the actions enqueue while running is exactly what is queued afterwards, all of it new |
| ApiQueue.ApiManager.TakeAll | Source/NexusForever.WorldServer/Api/ApiManager.cs:38-42 | the drain loop empties the queue into a list in queue order and runs nothing |
| ApiQueue.ApiManager.RunDrained | Source/NexusForever.WorldServer/Api/ApiManager.cs:44 | runs every taken action, in the run log in queue order, even after one has thrown; releases exactly the waiters whose action did not throw |
| ApiQueue.ApiManager.WaitAll | Source/NexusForever.WorldServer/Api/ApiManager.cs:45 | waiting for the tasks fails exactly when some taken action threw |
| ApiQueue.ApiManager.RunOne | Source/NexusForever.WorldServer/Api/PendingAction.cs:35-42 | runs the action once, recording it in the run log, and keeps its follow-ups queued behind what was already queued; releases the waiter exactly when the action did not throw |
| ApiQueue.ApiManager.EnqueueAll | Source/NexusForever.WorldServer/Api/ApiManager.cs:26-31 | an action that calls `Run` for several actions leaves one new unreleased waiter per action, in call order, behind the existing queue |
| Cinematics.GlobalCinematicManager.constructor | Source/NexusForever.Game/Cinematic/GlobalCinematicManager.cs:13 | the counter starts at 1073743000 |
| Cinematics.GlobalCinematicManager.NextCinematicId | Source/NexusForever.Game/Cinematic/GlobalCinematicManager.cs:11 | a read returns the current value and advances the counter by one, wrapping at 2^32; the k-th read returns `IdAt(k)` |
| Cinematics.GlobalCinematicManager.Initialise | Source/NexusForever.Game/Cinematic/GlobalCinematicManager.cs:22-25 | changes nothing |
| Cinematics.FirstIdIsInitialValue | Source/NexusForever.Game/Cinematic/GlobalCinematicManager.cs:13 | the first id handed out is 1073743000 |
| Cinematics.ConsecutiveIds | Source/NexusForever.Game/Cinematic/GlobalCinematicManager.cs:11 | consecutive reads differ by one, with `uint` wrap-around |
| Cinematics.IdsDistinct | Source/NexusForever.Game/Cinematic/GlobalCinematicManager.cs:11-13 | fewer than 2^32 reads apart, two reads never return the same id |
| Base.WrappingIncrement | Source/NexusForever.Game/Cinematic/GlobalCinematicManager.cs:11 | `uint` increment: plus one below the maximum, 0 at the maximum |
| Decimal.TryParseAccepts | Source/NexusForever.WorldServer/Api/TablesController.cs:111-119 | `int.TryParse` accepts white space, an optional `+` or `-`, one or more digits and white space, and gives the signed value of the digits when it fits in an `int` and fails when it does not |
| Decimal.TryParseOnlyShape | Source/NexusForever.WorldServer/Api/TablesController.cs:111-119 | conversely, any text `int.TryParse` accepts splits into white space, a sign, non-empty digits and white space, and its value is the signed value of those digits |
| Decimal.TryParseRejectsOtherChars | Source/NexusForever.WorldServer/Api/TablesController.cs:111-119 | a character that is neither a digit, a sign nor white space anywhere in the text makes `int.TryParse` fail |
| Decimal.TryParseOrZero | Source/NexusForever.WorldServer/Api/TablesController.cs:111-119 | the value `int.TryParse` leaves in its out-parameter: the parsed value on success, 0 on failure (what the parse accepts is stated by the three lemmas above) |
| Decimal.TryParseOfDecimal | Source/NexusForever.WorldServer/Api/TablesController.cs:113 | every `int` written in decimal parses back to itself |
| Tables.FirstUnknown | Source/NexusForever.WorldServer/Api/TablesController.cs:93-99 | finds the first query key that is neither `limit`, `offset` nor a field of the entry type, or reports that there is none |
| Tables.LastParsedIsLast | Source/NexusForever.WorldServer/Api/TablesController.cs:109-120 | the loop leaves `limit` (or `offset`) at the value parsed from the last item with that key; with no such item the default -1 (or 0) stays |
| Tables.KeyItemDecides | Source/NexusForever.WorldServer/Api/TablesController.cs:109-120 | since a query string's keys are distinct, the `limit` (or `offset`) item, if present, decides its value (0 when it does not parse), and without one the default stays |
| Tables.ParseQuery | Source/NexusForever.WorldServer/Api/TablesController.cs:88-122 | for a query string with distinct keys: fails with "Unknown field: <key>" exactly when some key is unknown, naming the first; otherwise yields the limit and offset the loop leaves (see `KeyItemDecides`) and one filter per other key, in order |
| Tables.MatchesAll | Source/NexusForever.WorldServer/Api/TablesController.cs:145-153 | true exactly when the entry's formatted field equals the value of every filter |
| Tables.Scan | Source/NexusForever.WorldServer/Api/TablesController.cs:131-166 | lists only present entries past the offset that pass every filter, under their own index and with their own entry, in increasing index order |
| Tables.Take | Source/NexusForever.WorldServer/Api/TablesController.cs:162-165 | a positive limit keeps the first `limit` rows; zero or a negative limit keeps them all |
| Tables.QualifyingIsScanned | Source/NexusForever.WorldServer/Api/TablesController.cs:131-166 | every qualifying index appears in the scan, right after the qualifying indices before it |
| Tables.SelectionSound | Source/NexusForever.WorldServer/Api/TablesController.cs:131-166 | every returned row is a present entry past the offset that passes every filter, and holds `GetEntry` of its index |
| Tables.OffsetDropsLeadingPresent | Source/NexusForever.WorldServer/Api/TablesController.cs:137-141 | the first `offset` present entries are never returned, whatever the filters |
| Tables.SelectionComplete | Source/NexusForever.WorldServer/Api/TablesController.cs:131-166 | a qualifying entry is returned unless `limit` qualifying entries come before it |
| Tables.SelectRows | Source/NexusForever.WorldServer/Api/TablesController.cs:129-166 | the selection loop, with its skip counter and early break, returns exactly the first `limit` qualifying rows |
| Tables.GetTable | Source/NexusForever.WorldServer/Api/TablesController.cs:69-180 | an unknown table name gives status 500; a null table makes the action return null; an unknown filter field gives 400 "Unknown field: <key>"; otherwise it returns the selection for the parsed query |
| Texts.PostMultiple | Source/NexusForever.WorldServer/Api/TextController.cs:30-38 | one result per id, in the same position: that id's English text, or null |
| Texts.GetAll | Source/NexusForever.WorldServer/Api/TextController.cs:45-59 | the keys are exactly the indices with a present `lookup` entry, each mapped to its English text |
| Texts.PresentIndicesCount | Source/NexusForever.WorldServer/Api/TextController.cs:49-56 | `GetAll` returns as many texts as the table has present entries, the count `GetTable` uses for its offset |
| Texts.Get | Source/NexusForever.WorldServer/Api/TextController.cs:67-80 | the English text when there is one; otherwise "NULL for text id " then the id in decimal without leading zeros, which reads back to the id, followed by ", but found LocalizedText" exactly when a LocalizedText entry exists; never null |
| Decimal.DecimalAfterPrefix | Source/NexusForever.WorldServer/Api/TextController.cs:75-77 | the digits between a message's prefix and its suffix read back to the number written there and have no leading zero |
| PinataLoot.Encode | Source/NexusForever.Network.World/Entity/Model/PinataLootEntityModel.cs:10-16 | four fields in order: CreatureId in 18 bits, ItemId and ItemCount in the default width W, LootType in 4 bits; 18 + 2W + 4 bits in all; decoding gives the model back |
| PinataLoot.DecodeOnlyEncodings | Source/NexusForever.Network.World/Entity/Model/PinataLootEntityModel.cs:10-16 | only an encoding of some model decodes |
| PinataLoot.PinataLootEntityModel.constructor | Source/NexusForever.Network.World/Entity/Model/PinataLootEntityModel.cs:5-8 | the four properties hold the given values |
| PinataLoot.PinataLootEntityModel.Write | Source/NexusForever.Network.World/Entity/Model/PinataLootEntityModel.cs:10-16 | appends exactly the encoding of the model's properties, which decodes back to them, and grows the message by 18 + 2W + 4 bits |
| VanityPet.Encode | Source/NexusForever.Network.World/Message/Model/ServerUnlockVanityPet.cs:10-13 | a single 18-bit field holding Spell4Id, which decodes back |
| VanityPet.DecodeOnlyEncodings | Source/NexusForever.Network.World/Message/Model/ServerUnlockVanityPet.cs:10-13 | only an encoding of some Spell4Id decodes |
| VanityPet.ServerUnlockVanityPet.constructor | Source/NexusForever.Network.World/Message/Model/ServerUnlockVanityPet.cs:5-8 | the message is tagged with opcode 0x01AE and holds the given Spell4Id |
| VanityPet.ServerUnlockVanityPet.Write | Source/NexusForever.Network.World/Message/Model/ServerUnlockVanityPet.cs:10-13 | appends exactly Spell4Id in 18 bits, which decodes back |

## Left out

- ApiQueue.ApiManager.Update: the model runs the drained actions one after another, in queue order. The source starts each as a task and waits for all of them. So the order of the run log, and of the follow-ups left in the queue, is the model's own. An action that throws is modelled as throwing after it has queued its follow-ups. The `AggregateException` is reduced to the `faulted` flag.
- ApiQueue.ApiManager.RunOne: the semaphore is reduced to a `done` flag. Callers blocked on `Wait` are not modelled; neither are threads enqueuing while `Update` drains the queue.
- EntitySummon.EntitySummonFactory.UnsummonAll: the source enumerates `summonGuids` while `Unsummon(guid)` removes from it. Whether that enumeration survives depends on the .NET runtime's `HashSet` enumerator. The model iterates a snapshot and states the intended result.
- EntitySummon.EntitySummonFactory.SummonCount: returns the count unbounded (at most 2^32). The source casts the `int` count to `uint`; the count is never negative, so the cast changes no reachable value.
- EntitySummon.EntitySummonFactory.Summon: without an owner the source fails only after the entity factory has created and initialised the entity. The model records no side effect of the entity factory, the template or the entity.
- Entity positions and rotations (`Vector3`) are passed through as opaque values; no floating-point arithmetic is modelled.
- GamePacketWriter: the bit order, padding and truncation of values wider than their field are not modelled. The default `uint` width is a parameter.
- Tables.GetTable: the 500 responses carry the runtime's exception message, which is not modelled. A property that is not a game table also gives 500 in the source and is not modelled.
- Tables.GetTable: JSON serialisation of the rows, the entry-type reflection and `string.Format` of a field value are abstractions.
- Tables.GetTable: a key given several times reaches the action as one item whose values are joined with ",". So `limit=1&limit=2` parses "1,2", which fails, and the limit becomes 0. The model takes the query after that joining, with distinct keys. ASP.NET also merges keys that differ only in case; the model compares keys exactly, so it also admits such queries.
- Tables.GetTable: when the action returns null, ASP.NET Core throws an `InvalidOperationException`, and the client sees status 500. The model stops at `NullResult`, the null the action returns.
- Decimal.TryParseOrZero: only ASCII digits and the invariant culture's sign and white-space rules are modelled. Trailing NUL characters and culture-specific formats are not.
- Left out entirely:
  - the other table endpoints and `GetTableNames`;
  - `PlayersController` and its JSON converter;
  - web hosting and dependency-injection wiring;
  - interfaces without logic;
  - the rest of the opcode table (only 0x01AE is used).
