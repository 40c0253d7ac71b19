# Narrative progression core of Integradora_10mo, in Dafny

This project models the narrative-progression core of a Unity adventure game and proves properties of the model. The core has five parts:

- **StaticDataService**: loads the static catalog (chapters, puzzles, missions, flags, characters, dialogue routes, conversations) from JSON documents into dictionaries keyed by id or key.
- **FlagsManager**: the runtime flag store. It maps a flag id to a boolean and is seeded from the catalog defaults. Raising a flag is the one path by which missions advance.
- **MissionManager**: the mission state machine. Each mission holds a free-form state. A newly raised flag sweeps every catalog mission and applies, per mission, the first step whose state matches and whose triggers contain the flag.
- **DialogueManager**: a cursor over one linear conversation. It starts at node `n1`, raises each node's flags when leaving it, and follows `nextId` until `""`, `"end"` or an unknown id.
- **GameStateManager**: the session state. It holds the chapter and zone keys, completed objectives, known zones, position and facing. It converts all of that, together with the flag and mission stores, to and from a save record, plus a legacy progress record.

Modules, one per file:

- `Wrappers` (Option).
- `KeyedIndex`: the "fill a dictionary from an array" rule every loader uses. Empty keys are skipped, the last duplicate wins, and keys keep their insertion order.
- `StaticData`, `Missions`, `Flags`, `Dialogue`, `GameState`.

How the source is represented:

- **Managers are classes.** Each manager that the source mutates in place is a class whose fields are the source's fields. Its methods carry `modifies` clauses.
- **Loops stay loops.** Each source loop is a `while`/`for` loop, proved against a specification function:
  - `IndexByKey` for the loaders;
  - `Advance`/`SweepMissions` for the mission sweep;
  - `FirstMatchingStep` for the step search;
  - `RaisedFlags`/`AdvanceEach` for a node's flags;
  - `LastWins` for the load loops of the save formats;
  - `ResolvedChapterKey`/`ChapterIdFor` for the chapter searches.
- **Ghost logs on the mission manager:**
  - `events` records every state-change notification (mission id, old state or none, new state).
  - `sweeps` records every flag id a sweep ran for.

  Together they make "the event fires once" and "advancement runs exactly once per raise, never on false" into contract facts.

## Model

| member | source | states |
|---|---|---|
| KeyedIndex.BuildIndex | Assets/_Project/Scripts/Services/Data/StaticDataService.cs:83-89 | the loader loop builds exactly `IndexByKey` of the array |
| KeyedIndex.PutValid | Assets/_Project/Scripts/Services/Data/StaticDataService.cs:85-88 | one loop iteration keeps the dictionary consistent |
| KeyedIndex.IndexByKeyValid | Assets/_Project/Scripts/Services/Data/StaticDataService.cs:74-89 | whatever the array holds, the dictionary has no empty key, stores each entry under its own key and lists each key once |
| KeyedIndex.IndexByKeyKeys | Assets/_Project/Scripts/Services/Data/StaticDataService.cs:83-89 | the keys indexed are exactly the non-empty keys present in the array |
| KeyedIndex.IndexByKeyLast | Assets/_Project/Scripts/Services/Data/StaticDataService.cs:83-89 | each key is stored with the last element carrying it (last duplicate wins) |
| KeyedIndex.IndexByKeyDistinct | Assets/_Project/Scripts/Services/Data/StaticDataService.cs:83-89 | with distinct keys, every element with a non-empty key is found under it |
| StaticData.LoadIndexValid | Assets/_Project/Scripts/Services/Data/StaticDataService.cs:64-93 | a missing document, or one that parses to no array, gives an empty collection; every load is consistent |
| StaticData.LoadFrom | Assets/_Project/Scripts/Services/Data/StaticDataService.cs:64-93 | the asset checks and the loop of a loader produce `LoadIndex` |
| StaticData.Lookup | Assets/_Project/Scripts/Services/Data/StaticDataService.cs:96-101 | a lookup finds something iff the collection is loaded and holds the key, and then returns the stored element |
| StaticData.LookupAfterLoad | Assets/_Project/Scripts/Services/Data/StaticDataService.cs:64-101 | after loading an array, a key is found iff it is non-empty and present, and the last element carrying it is returned |
| StaticData.LookupAfterFailedLoad | Assets/_Project/Scripts/Services/Data/StaticDataService.cs:66-81 | after a missing or unparsable document every lookup misses |
| StaticData.StaticDataService.constructor | Assets/_Project/Scripts/Services/Data/StaticDataService.cs:21-27 | before loading, every collection is absent |
| StaticData.StaticDataService.Initialize | Assets/_Project/Scripts/Services/Data/StaticDataService.cs:53-62 | runs the seven loaders; afterwards each collection is exactly its own document's index |
| StaticData.StaticDataService.LoadChapters | Assets/_Project/Scripts/Services/Data/StaticDataService.cs:64-93 | assigns only the chapter collection, indexed by key |
| StaticData.StaticDataService.LoadPuzzles | Assets/_Project/Scripts/Services/Data/StaticDataService.cs:103-132 | assigns only the puzzle collection, indexed by key |
| StaticData.StaticDataService.LoadMissions | Assets/_Project/Scripts/Services/Data/StaticDataService.cs:142-171 | assigns only the mission collection, indexed by id |
| StaticData.StaticDataService.LoadFlags | Assets/_Project/Scripts/Services/Data/StaticDataService.cs:180-209 | assigns only the flag collection, indexed by id |
| StaticData.StaticDataService.LoadCharacters | Assets/_Project/Scripts/Services/Data/StaticDataService.cs:218-247 | assigns only the character collection, indexed by id |
| StaticData.StaticDataService.LoadCharacterDialogueRoutes | Assets/_Project/Scripts/Services/Data/StaticDataService.cs:256-285 | assigns only the route collection, indexed by character id |
| StaticData.StaticDataService.LoadDialogues | Assets/_Project/Scripts/Services/Data/StaticDataService.cs:294-323 | assigns only the conversation collection, indexed by id |
| StaticData.StaticDataService.GetChapterByKey | Assets/_Project/Scripts/Services/Data/StaticDataService.cs:96-101 | none before loading; a hit iff the key is in the loaded dictionary, and then the stored chapter under that key, which carries the key asked for |
| StaticData.StaticDataService.GetPuzzleByKey | Assets/_Project/Scripts/Services/Data/StaticDataService.cs:135-140 | none before loading; a hit iff the key is in the loaded dictionary, and then the stored puzzle under that key, which carries the key asked for |
| StaticData.StaticDataService.GetMissionById | Assets/_Project/Scripts/Services/Data/StaticDataService.cs:173-178 | none before loading; a hit iff the key is in the loaded dictionary, and then the stored mission under that key, which carries the key asked for |
| StaticData.StaticDataService.GetFlagById | Assets/_Project/Scripts/Services/Data/StaticDataService.cs:211-216 | none before loading; a hit iff the key is in the loaded dictionary, and then the stored flag under that key, which carries the key asked for |
| StaticData.StaticDataService.GetCharacterById | Assets/_Project/Scripts/Services/Data/StaticDataService.cs:249-254 | none before loading; a hit iff the key is in the loaded dictionary, and then the stored character under that key, which carries the key asked for |
| StaticData.StaticDataService.GetDialogueRoutesForCharacter | Assets/_Project/Scripts/Services/Data/StaticDataService.cs:287-292 | none before loading; a hit iff the key is in the loaded dictionary, and then the stored route set under that key, which carries the key asked for |
| StaticData.StaticDataService.GetConversationById | Assets/_Project/Scripts/Services/Data/StaticDataService.cs:325-330 | none before loading; a hit iff the key is in the loaded dictionary, and then the stored conversation under that key, which carries the key asked for |
| StaticData.StaticDataService.Loaded | Assets/_Project/Scripts/Services/Data/StaticDataService.cs:29-35 | the seven loaded collections, unchanged, form the catalog the managers read, and it is consistent |
| Missions.FirstMatchingStep | Assets/_Project/Scripts/Managers/MissionManager.cs:122-151 | the step applied is a matching one (state equal, non-empty triggers containing the flag) and no earlier step matches; none when no step matches |
| Missions.AdvanceMissionEffect | Assets/_Project/Scripts/Managers/MissionManager.cs:111-151 | one mission's turn: its state is materialised and set to the first match's target; it reports a change iff some step matched; it notifies only when the target differs from the current state |
| Missions.SweepMissionsStates | Assets/_Project/Scripts/Managers/MissionManager.cs:105-155 | the sweep touches only catalog missions, adds every one of them, and sets each to its new state |
| Missions.SweepMissionsChanged | Assets/_Project/Scripts/Managers/MissionManager.cs:105-155 | `changedAny` is true iff some swept mission had a matching step |
| Missions.SweepMissionsEventsSound | Assets/_Project/Scripts/Managers/MissionManager.cs:82-96 | every notification of a sweep names a swept mission, its old and new state, and a real change; no mission is notified twice |
| Missions.SweepMissionsEventsComplete | Assets/_Project/Scripts/Managers/MissionManager.cs:82-96 | every swept mission whose state really changes is notified |
| Missions.AdvanceStates | Assets/_Project/Scripts/Managers/MissionManager.cs:105-155 | a whole sweep: keys become old keys plus catalog keys, non-catalog entries are untouched, catalog missions get their new state, and `changedAny` holds iff some catalog mission matched |
| Missions.AdvanceEvents | Assets/_Project/Scripts/Managers/MissionManager.cs:105-155 | a whole sweep notifies exactly the catalog missions whose state changes, once each, with old and new state |
| Missions.NoMatchKeepsState | Assets/_Project/Scripts/Managers/MissionManager.cs:124-141 | a mission with no matching step keeps its state (materialised if absent) |
| Missions.EmptyTriggersNeverMatch | Assets/_Project/Scripts/Managers/MissionManager.cs:128-130 | a step without triggers never matches |
| Missions.SelfTargetStepReportsChange | Assets/_Project/Scripts/Managers/MissionManager.cs:144-148 | a step whose target is the current state still makes the sweep report true, but sends no notification |
| Missions.FirstMatchWinsExample | Assets/_Project/Scripts/Managers/MissionManager.cs:147-149 | only the first matching step applies per flag; raising f1, f2, f2 moves the mission once |
| Missions.MissionManager.constructor | Assets/_Project/Scripts/Managers/MissionManager.cs:14 | the state map starts empty |
| Missions.MissionManager.InitializeForNewProfile | Assets/_Project/Scripts/Managers/MissionManager.cs:36-45 | the state map holds exactly the catalog missions, each in its initial state |
| Missions.MissionManager.GetMissionState | Assets/_Project/Scripts/Managers/MissionManager.cs:55-58 | none for an absent mission, else its state |
| Missions.MissionManager.IsMissionInState | Assets/_Project/Scripts/Managers/MissionManager.cs:63-67 | true iff the mission is present and in that state |
| Missions.MissionManager.IsMissionCompleted | Assets/_Project/Scripts/Managers/MissionManager.cs:73-76 | true iff the mission's state is `"completed"` |
| Missions.MissionManager.SetMissionState | Assets/_Project/Scripts/Managers/MissionManager.cs:82-96 | setting the current state changes nothing and notifies nobody; otherwise the state is set and exactly one notification (id, old state or none, new state) is sent |
| Missions.MissionManager.TriggersContain | Assets/_Project/Scripts/Managers/MissionManager.cs:133-141 | the trigger loop finds the flag iff it is in the list |
| Missions.MissionManager.FindMatchingStep | Assets/_Project/Scripts/Managers/MissionManager.cs:122-151 | the step loop picks exactly `FirstMatchingStep` |
| Missions.MissionManager.AdvanceMissionOnFlag | Assets/_Project/Scripts/Managers/MissionManager.cs:111-151 | one iteration of the mission loop does `AdvanceMission` |
| Missions.MissionManager.TryAdvanceMissionsOnFlag | Assets/_Project/Scripts/Managers/MissionManager.cs:105-155 | the new states, notifications and result are those of `Advance` on the old states, and the sweep is logged once |
| Missions.MissionManager.ExportMissionStates | Assets/_Project/Scripts/Managers/MissionManager.cs:160-163 | returns a copy equal to the state map |
| Missions.MissionManager.ImportMissionStates | Assets/_Project/Scripts/Managers/MissionManager.cs:168-175 | the state map is replaced by exactly the given map |
| Flags.FlagsManager.constructor | Assets/_Project/Scripts/Managers/FlagsManager.cs:13 | the flag store starts empty |
| Flags.FlagsManager.InitializeForNewProfile | Assets/_Project/Scripts/Managers/FlagsManager.cs:31-40 | the store holds exactly the catalog flags, each at its default |
| Flags.FlagsManager.SetFlag | Assets/_Project/Scripts/Managers/FlagsManager.cs:50-71 | one entry is set (created if unknown); on true, with a mission manager, exactly one sweep for that flag runs; on false missions are untouched |
| Flags.FlagsManager.RaiseFlag | Assets/_Project/Scripts/Managers/FlagsManager.cs:76-79 | the same as setting the flag to true |
| Flags.FlagsManager.IsFlagActive | Assets/_Project/Scripts/Managers/FlagsManager.cs:84-87 | true iff the flag is present and true; an unknown flag reads false |
| Flags.FlagsManager.ExportFlags | Assets/_Project/Scripts/Managers/FlagsManager.cs:93-96 | returns a copy equal to the store |
| Flags.FlagsManager.ImportFlags | Assets/_Project/Scripts/Managers/FlagsManager.cs:101-109 | the store is replaced by exactly the given map |
| Flags.ExportImportRoundTrip | Assets/_Project/Scripts/Managers/FlagsManager.cs:93-109 | importing what was exported leaves the store unchanged |
| Flags.RaiseUnknownFlag | Assets/_Project/Scripts/Managers/FlagsManager.cs:50-87 | an unknown flag reads false, and true once raised |
| Dialogue.RaisedFlagsEffect | Assets/_Project/Scripts/Managers/DialogueManager.cs:124-136 | leaving a node makes its non-empty flag ids true and keeps every other flag, including one stored under `""` when the node lists `""` (empty ids are skipped) |
| Dialogue.RaiseStep | Assets/_Project/Scripts/Managers/DialogueManager.cs:129-135 | each non-empty flag id of a node runs one more mission sweep; an empty id runs none |
| Dialogue.DialogueManager.constructor | Assets/_Project/Scripts/Managers/DialogueManager.cs:12-14 | the walker starts idle |
| Dialogue.DialogueManager.IsConversationActive | Assets/_Project/Scripts/Managers/DialogueManager.cs:16 | while active, the cursor is set and is a node of the conversation's index; when inactive, everything is unset |
| Dialogue.DialogueManager.StartConversation | Assets/_Project/Scripts/Managers/DialogueManager.cs:36-67 | an unknown id changes nothing; otherwise the node index is built (non-empty ids, last wins) and the cursor is on `n1`; without `n1` the walker is idle |
| Dialogue.DialogueManager.ApplyFlagsFromNode | Assets/_Project/Scripts/Managers/DialogueManager.cs:124-136 | raises each non-empty flag id of the node in order: the store gains them as true and the missions advance once per id, in order |
| Dialogue.DialogueManager.EndConversation | Assets/_Project/Scripts/Managers/DialogueManager.cs:110-122 | the walker becomes idle, whatever its state (so ending is idempotent) |
| Dialogue.DialogueManager.GoToNextNode | Assets/_Project/Scripts/Managers/DialogueManager.cs:72-105 | idle: nothing changes; active: the current node's flags are raised first, then the cursor moves to `nextId`, or the conversation ends on `""`, `"end"` or an unknown id |
| Dialogue.WalkTwoNodes | Assets/_Project/Scripts/Managers/DialogueManager.cs:36-105 | walking a two-node conversation sets both nodes' flags to true and ends idle; with a mission manager, the sweeps run for the first node's flag, then the second's |
| GameState.LastWinsSnoc | Assets/_Project/Scripts/Managers/GameStateManager.cs:121-125 | one more record is stored under its key unless the key is empty |
| GameState.LastWinsKeys | Assets/_Project/Scripts/Managers/GameStateManager.cs:118-138 | the map loaded from records holds exactly their non-empty keys |
| GameState.LastWinsValue | Assets/_Project/Scripts/Managers/GameStateManager.cs:118-138 | a key's value comes from the last record carrying it |
| GameState.LastWinsOfDescribes | Assets/_Project/Scripts/Managers/GameStateManager.cs:157-187 | loading the records a snapshot listed gives back the map, apart from an entry under an empty id |
| GameState.FirstChapterWithId | Assets/_Project/Scripts/Managers/GameStateManager.cs:404-408 | finds the first chapter in catalog order with the id, or reports that none has it |
| GameState.ResolvedChapterKey | Assets/_Project/Scripts/Managers/GameStateManager.cs:402-411 | when some chapter has the id, the key of the first such chapter in catalog order; when none has it, `"chapter_1"` |
| GameState.ChapterKeyRoundTrip | Assets/_Project/Scripts/Managers/GameStateManager.cs:259-268 | a catalog chapter whose id no other chapter shares survives being saved as an id and restored as a key |
| GameState.UnknownChapterKeyRestoresChapterOne | Assets/_Project/Scripts/Managers/GameStateManager.cs:259-268 | an unknown chapter key is saved as id 1, which restores `"chapter_1"` when no chapter has id 1 |
| GameState.FlagEntriesOf | Assets/_Project/Scripts/Managers/GameStateManager.cs:160-169 | the snapshot's flag array lists every flag once, with its value |
| GameState.MissionEntriesOf | Assets/_Project/Scripts/Managers/GameStateManager.cs:172-181 | the snapshot's mission array lists every mission once, with its state |
| GameState.SaveMissionsOf | Assets/_Project/Scripts/Managers/GameStateManager.cs:303-315 | the save's mission array lists every mission once, with its state, an empty step id and the save time |
| GameState.ActiveFlagIds | Assets/_Project/Scripts/Managers/GameStateManager.cs:293-300 | the save lists exactly the true flags, once each |
| GameState.ListOf | Assets/_Project/Scripts/Managers/GameStateManager.cs:318-321 | a hash set is saved as an array listing each member once |
| GameState.BuildLastWins | Assets/_Project/Scripts/Managers/GameStateManager.cs:118-126 | the load loops build exactly `LastWins` (empty ids skipped, last wins) |
| GameState.TrueForEach | Assets/_Project/Scripts/Managers/GameStateManager.cs:359-366 | the restored flag store has exactly the saved active ids, all true |
| GameState.GameStateManager.constructor | Assets/_Project/Scripts/Managers/GameStateManager.cs:15-25 | no progress, empty sets, position zero, facing `"down"`, no creation time |
| GameState.GameStateManager.ProgressOrFresh | Assets/_Project/Scripts/Managers/GameStateManager.cs:231-242 | the existing progress, or a fresh one on `chapter_1` / `mist_forest` |
| GameState.GameStateManager.CurrentProgressChapterKey | Assets/_Project/Scripts/Managers/GameStateManager.cs:31-33 | the stored chapter key, or `"chapter_1"` without progress or key |
| GameState.GameStateManager.CurrentProgressZoneKey | Assets/_Project/Scripts/Managers/GameStateManager.cs:45-47 | the stored zone key, or `"mist_forest"` without progress or key |
| GameState.GameStateManager.EnsureProgressExists | Assets/_Project/Scripts/Managers/GameStateManager.cs:231-242 | an existing record is kept; otherwise a fresh one is created |
| GameState.GameStateManager.SetCurrentProgressChapterKey | Assets/_Project/Scripts/Managers/GameStateManager.cs:34-38 | creates progress if needed, sets the chapter key only, and the getter then returns it |
| GameState.GameStateManager.SetCurrentProgressZoneKey | Assets/_Project/Scripts/Managers/GameStateManager.cs:48-52 | creates progress if needed, sets the zone key only, and the getter then returns it |
| GameState.GameStateManager.MarkObjectiveCompleted | Assets/_Project/Scripts/Managers/GameStateManager.cs:196-200 | adds the objective, so it then reads as completed; an empty id is ignored; no other objective's answer changes |
| GameState.GameStateManager.IsObjectiveCompleted | Assets/_Project/Scripts/Managers/GameStateManager.cs:202-205 | true iff the objective is in the completed set |
| GameState.GameStateManager.RegisterZoneKnown | Assets/_Project/Scripts/Managers/GameStateManager.cs:210-214 | adds the zone, so it then reads as known; an empty key is ignored; no other zone's answer changes |
| GameState.GameStateManager.IsZoneKnown | Assets/_Project/Scripts/Managers/GameStateManager.cs:216-219 | true iff the zone is in the known set |
| GameState.GameStateManager.UpdatePlayerTransform | Assets/_Project/Scripts/Managers/GameStateManager.cs:224-229 | stores the position; an empty direction keeps the previous facing |
| GameState.GameStateManager.StartNewGame | Assets/_Project/Scripts/Managers/GameStateManager.cs:71-100 | the new-game state: `chapter_1`, `mist_forest`, no objectives, zones {`mist_forest`}, position zero, facing `down`, no creation time, catalog defaults for flags and missions, and a snapshot listing both |
| GameState.GameStateManager.BuildProgressSnapshot | Assets/_Project/Scripts/Managers/GameStateManager.cs:157-187 | the base record with its flag and mission arrays listing the current stores |
| GameState.GameStateManager.BuildCurrentProgressSnapshot | Assets/_Project/Scripts/Managers/GameStateManager.cs:150-155 | the progress record, created if absent, refreshed from the stores and kept |
| GameState.GameStateManager.LoadFromProgress | Assets/_Project/Scripts/Managers/GameStateManager.cs:106-144 | absent record: new game; otherwise the record is adopted and the flag and mission arrays are loaded last-wins with empty ids skipped, nothing else changes |
| GameState.GameStateManager.FindChapterId | Assets/_Project/Scripts/Managers/GameStateManager.cs:259-268 | the id of the chapter with the current key, or 1 |
| GameState.GameStateManager.ResolveChapterKeyFromId | Assets/_Project/Scripts/Managers/GameStateManager.cs:402-411 | the loop returns exactly `ResolvedChapterKey` |
| GameState.GameStateManager.BuildSaveGameData | Assets/_Project/Scripts/Managers/GameStateManager.cs:252-326 | version `1.0.0`; the creation time is the remembered one or `now`, and is remembered; last update `now`; chapter id, zone, position and facing; the true flags; every mission; every objective and zone |
| GameState.GameStateManager.ApplySaveGameData | Assets/_Project/Scripts/Managers/GameStateManager.cs:331-400 | absent record: new game; otherwise the creation time, zone, chapter resolved from its id, position (kept when absent) and facing (`down` when empty) are restored; the flag store becomes the active ids, all true; the mission map becomes the listed missions; objectives and zones are replaced |
| GameState.GameStateManager.ApplyPlayerState | Assets/_Project/Scripts/Managers/GameStateManager.cs:342-356 | zone, chapter, position and facing as restored from a save |
| GameState.GameStateManager.RestoreObjectives | Assets/_Project/Scripts/Managers/GameStateManager.cs:382-387 | the objective set becomes exactly the saved list |
| GameState.GameStateManager.RestoreZones | Assets/_Project/Scripts/Managers/GameStateManager.cs:390-395 | the zone set becomes exactly the saved list |
| GameState.GameStateManager.LoadFromSaveGameJson | Assets/_Project/Scripts/Managers/GameStateManager.cs:425-436 | empty text, or nothing decoded, gives the new-game state; otherwise the whole post-state of applying the decoded save (`AppliedSave`) |
| GameState.SaveThenApply | Assets/_Project/Scripts/Managers/GameStateManager.cs:252-400 | save then apply: every flag reads as before, missions, objectives, zones, position, facing, zone and creation time come back, and so does a chapter with a unique id |
| GameState.SnapshotThenLoad | Assets/_Project/Scripts/Managers/GameStateManager.cs:106-187 | loading the snapshot just taken gives back both stores, apart from an entry under an empty id |

## Behaviour of the code worth knowing

- **Missions on apply.** `ApplySaveGameData` builds a fresh dictionary of the listed missions and passes it to `ImportMissionStates`, which clears the map first. Missions the save does not list are therefore absent afterwards. They come back in their initial state only when a later sweep materialises them. `ApplySaveGameData` ensures the mission map is exactly the listed missions.
- **False flags on save.** A save records only the true flags. Applying it rebuilds the flag store from those ids alone, so flags that were false are no longer present. Because an absent flag reads false, every read gives the same answer as before. `GameState.SaveThenApply` proves both halves: the new store is exactly the active ids set to true, and every `IsFlagActive` answer is unchanged.

## Left out

- JSON text encoding and decoding (`JsonUtility`), `BuildSaveGameJson`, `DatabaseService` and the system loader are not modelled.
  - A loader's document is an `Asset`: missing, unparsable (no array), or an array of records.
  - Exceptions that the engine's parser raises on malformed text are not modelled.
  - `LoadFromSaveGameJson` receives the decoder's output as a parameter.
- `DateTime.UtcNow` is the `now` parameter of `BuildSaveGameData`.
- Positions are pairs of reals that are only copied. Single-precision float behaviour is not modelled.
- Null values: arrays are sequences. Where the source null-checks an array (step triggers, a node's flags, the save's lists, the loaders' documents), a null array acts as an empty one. Strings are never null, except for the fields the source reads with `?.` or `??`, which are `Option`.
  - `UpdatePlayerTransform`, `ApplySaveGameData`: a null direction is the empty string, which the source's `IsNullOrEmpty` treats the same way.
  - `ImportFlags`, `ImportMissionStates`: a null dictionary (a crash in the source) is not modelled.
  - `SetFlag`: a null flag id (a crash in the source) is not modelled.
  - `StartConversation`: a null `nodes` array of a conversation is not null-checked (DialogueManager.cs:47) and throws in the source; the model has no null array, so that crash is not modelled.
  - `TryAdvanceMissionsOnFlag`: a null `steps` array of a mission is not null-checked (MissionManager.cs:122) and throws in the source; that crash is not modelled either.
- The progress record is a value in the model but a shared object in the source. `LoadFromProgress` adopts the caller's object, and `BuildCurrentProgressSnapshot` hands out the live one, so later setter calls (`SetCurrentProgressChapterKey`, `SetCurrentProgressZoneKey`, `ApplySaveGameData`) are visible through every reference to it. The model captures the record's value at each call, not that aliasing.
  - `ApplySaveGameData`: a null `playerState` or `progress`, and a null id inside `activeFlags` (crashes in the source), are not modelled.
- Dictionary enumeration order:
  - Catalog collections keep insertion order (`Index.order`). The mission sweep, `ResolveChapterKeyFromId` and the chapter-id search follow it.
  - Exported runtime maps and hash sets are enumerated in an order the model leaves open. The array contracts hold for every order.
- Managers reach each other through constant references, fixed at construction, in place of the engine's singletons.
  - A `FlagsManager` may have no mission manager, as `MissionManager.Instance` may be null.
  - Static data is read as a loaded `Catalog` rather than through a `StaticDataService` that may not be initialised yet.
- `Missions.MissionManager.SetMissionState`: subscribers of the state-change event are not modelled. Each notification is appended to the ghost log `events`. Re-entrant handlers that raise flags from inside a notification are not modelled.
- Missions.MissionManager.TryAdvanceMissionsOnFlag: the sweep's intermediate notifications are delivered in catalog order in the source. The model records them in that order, but it cannot express handler side effects between missions.
- `profileId` and `currentSceneName` are carried as opaque fields.
- Unity lifecycle (`Awake`, `DontDestroyOnLoad`), logging, animation, movement, UI, interaction glue and the puzzle launcher are not modelled.
- Route selection and zone-unlock evaluation from the character and chapter records are not modelled. Those records carry only their keys here.
