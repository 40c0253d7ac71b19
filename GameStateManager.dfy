/**
 * The session state and the save format (GameStateManager): the current
 * chapter and zone, completed objectives, known zones, the player's last
 * position and facing, and the conversion between all of this (with the flag
 * store and mission states) and a save record.
 */
module GameState {
  import opened Wrappers
  import opened KeyedIndex
  import opened StaticData
  import opened Missions
  import opened Flags

  const DefaultChapterKey := "chapter_1"
  const DefaultZoneKey := "mist_forest"
  const DefaultDirection := "down"
  const DefaultProfileId := "local_profile_1"
  const DefaultChapterId := 1
  const SaveVersion := "1.0.0"

  /** A position; the engine's single-precision floats are copied, never computed with. */
  datatype Vec2 = Vec2(x: real, y: real)
  const Zero := Vec2(0.0, 0.0)

  // The legacy progress record.
  datatype FlagEntry = FlagEntry(id: string, value: bool)
  datatype MissionEntry = MissionEntry(id: string, state: string)
  datatype PlayerProgress = PlayerProgress(
    profileId: Option<string>,
    chapterKey: Option<string>,
    currentZoneKey: Option<string>,
    currentSceneName: Option<string>,
    flags: seq<FlagEntry>,
    missions: seq<MissionEntry>)

  // The save record.
  datatype SaveMetadata = SaveMetadata(createdAt: Option<string>, lastUpdatedAt: Option<string>)
  datatype SavePlayerState = SavePlayerState(
    currentChapterId: int,
    currentZoneKey: Option<string>,
    position: Option<Vec2>,
    direction: string)
  datatype SaveMissionProgress = SaveMissionProgress(missionId: string, state: string, lastStepId: string, lastUpdatedAt: string)
  datatype SaveProgress = SaveProgress(
    activeFlags: seq<string>,
    missions: seq<SaveMissionProgress>,
    completedObjectives: seq<string>,
    zones: seq<string>)
  datatype SaveGameData = SaveGameData(
    version: string,
    metadata: Option<SaveMetadata>,
    playerState: SavePlayerState,
    progress: SaveProgress)

  function EntryId(e: FlagEntry): string { e.id }
  function EntryValue(e: FlagEntry): bool { e.value }
  function MissionEntryId(e: MissionEntry): string { e.id }
  function MissionEntryState(e: MissionEntry): string { e.state }
  function SaveMissionId(e: SaveMissionProgress): string { e.missionId }
  function SaveMissionState(e: SaveMissionProgress): string { e.state }

  /** The progress record a fresh profile starts from. */
  function FreshProgress(): PlayerProgress {
    PlayerProgress(Some(DefaultProfileId), Some(DefaultChapterKey), Some(DefaultZoneKey), Some(""), [], [])
  }

  function Elements(s: seq<string>): set<string> {
    set k | k in s
  }

  /** The keys of `items`, in order. */
  function Keys<T>(items: seq<T>, key: T -> string): (r: seq<string>)
    ensures |r| == |items| && forall i :: 0 <= i < |items| ==> r[i] == key(items[i])
  {
    seq(|items|, i requires 0 <= i < |items| => key(items[i]))
  }

  /** `items` lists the entries of `m`, each once, in some order. */
  ghost predicate Describes<T, V>(items: seq<T>, key: T -> string, val: T -> V, m: map<string, V>) {
    && Distinct(Keys(items, key))
    && (forall k :: k in Keys(items, key) <==> k in m)
    && (forall i :: 0 <= i < |items| ==> key(items[i]) in m && m[key(items[i])] == val(items[i]))
  }

  /** `s` lists the members of `set`, each once, in some order. */
  ghost predicate Enumerates(s: seq<string>, members: set<string>) {
    Distinct(s) && Elements(s) == members
  }

  /**
   * The dictionary a load loop builds from an array of records: the records
   * indexed as a loader indexes them (empty keys skipped, the last record with
   * a key wins), each stored as its value part.
   */
  function LastWins<T, V>(items: seq<T>, key: T -> string, val: T -> V): map<string, V> {
    var entries := IndexByKey(items, key).entries;
    map k | k in entries :: val(entries[k])
  }

  /** One more record: stored under its key, unless the key is empty. */
  lemma LastWinsSnoc<T, V>(items: seq<T>, key: T -> string, val: T -> V)
    requires items != []
    ensures var front := LastWins(items[..|items| - 1], key, val);
      var last := items[|items| - 1];
      LastWins(items, key, val) == if key(last) == "" then front else front[key(last) := val(last)]
  {
    assert IndexByKey(items, key) == Put(IndexByKey(items[..|items| - 1], key), items[|items| - 1], key);
  }

  lemma LastWinsKeys<T, V>(items: seq<T>, key: T -> string, val: T -> V)
    ensures forall k :: k in LastWins(items, key, val) <==> k in Keys(items, key) && k != ""
  {
    IndexByKeyKeys(items, key);
    forall k | HasKey(items, key, k)
      ensures k in Keys(items, key)
    {
      var i :| 0 <= i < |items| && key(items[i]) == k;
      assert Keys(items, key)[i] == k;
    }
    forall k | k in Keys(items, key)
      ensures HasKey(items, key, k)
    {
      var i :| 0 <= i < |items| && Keys(items, key)[i] == k;
      assert key(items[i]) == k;
    }
  }

  /** The value stored under a key is the one of the last record carrying it. */
  lemma LastWinsValue<T, V>(items: seq<T>, key: T -> string, val: T -> V, i: int)
    requires LastWithKey(items, key, i) && key(items[i]) != ""
    ensures key(items[i]) in LastWins(items, key, val)
    ensures LastWins(items, key, val)[key(items[i])] == val(items[i])
  {
    IndexByKeyLast(items, key);
  }

  /** Loading what a snapshot listed gives back the map, minus an entry with an empty key. */
  lemma {:induction false} LastWinsOfDescribes<T, V>(items: seq<T>, key: T -> string, val: T -> V, m: map<string, V>)
    requires Describes(items, key, val, m)
    ensures LastWins(items, key, val) == map k | k in m && k != "" :: m[k]
  {
    var r := LastWins(items, key, val);
    LastWinsKeys(items, key, val);
    forall k | k in r
      ensures k in m && k != "" && r[k] == m[k]
    {
      var i :| 0 <= i < |items| && key(items[i]) == k;
      assert Keys(items, key)[i] == k;
      forall j | i < j < |items|
        ensures key(items[j]) != key(items[i])
      {
        assert Keys(items, key)[j] == key(items[j]);
      }
      LastWinsValue(items, key, val, i);
    }
    forall k | k in m && k != ""
      ensures k in r
    {
    }
  }

  /** The chapter id a save records for a chapter key: its catalog id, or 1 for an unknown key. */
  function ChapterIdFor(chapters: Index<ChapterData>, chapterKey: string): int {
    if chapterKey in chapters.entries then chapters.entries[chapterKey].id else DefaultChapterId
  }

  /** The position, in catalog order, of the first chapter with this id. */
  function FirstChapterWithId(chapters: Index<ChapterData>, order: seq<string>, chapterId: int): (r: Option<nat>)
    requires forall k :: k in order ==> k in chapters.entries
    ensures r.Some? ==> r.value < |order| && chapters.entries[order[r.value]].id == chapterId
    ensures r.Some? ==> forall j :: 0 <= j < r.value ==> chapters.entries[order[j]].id != chapterId
    ensures r.None? ==> forall j :: 0 <= j < |order| ==> chapters.entries[order[j]].id != chapterId
    decreases |order|
  {
    if order == [] then None
    else if chapters.entries[order[0]].id == chapterId then Some(0)
    else
      var rest := FirstChapterWithId(chapters, order[1..], chapterId);
      if rest.Some? then Some(rest.value + 1) else None
  }

  /** `k` comes, in catalog order, before every other chapter with this id. */
  ghost predicate FirstKeyWithId(chapters: Index<ChapterData>, k: string, chapterId: int)
    requires forall x :: x in chapters.order ==> x in chapters.entries
  {
    exists i :: 0 <= i < |chapters.order| && chapters.order[i] == k &&
      forall j :: 0 <= j < i ==> chapters.entries[chapters.order[j]].id != chapterId
  }

  /** The chapter key a save's chapter id restores: the first chapter with that id, or "chapter_1". */
  function ResolvedChapterKey(chapters: Index<ChapterData>, chapterId: int): (r: string)
    requires Valid(chapters, ChapterKeyOf)
    ensures r == DefaultChapterKey || (r in chapters.entries && chapters.entries[r].id == chapterId)
    ensures (exists k :: k in chapters.entries && chapters.entries[k].id == chapterId) ==>
              r in chapters.entries && chapters.entries[r].id == chapterId && FirstKeyWithId(chapters, r, chapterId)
    ensures (forall k :: k in chapters.entries ==> chapters.entries[k].id != chapterId) ==> r == DefaultChapterKey
  {
    var i := FirstChapterWithId(chapters, chapters.order, chapterId);
    if i.Some? then chapters.order[i.value] else DefaultChapterKey
  }

  /** A chapter whose id no other chapter shares survives the save and load of its key. */
  lemma ChapterKeyRoundTrip(chapters: Index<ChapterData>, chapterKey: string)
    requires Valid(chapters, ChapterKeyOf)
    requires chapterKey in chapters.entries
    requires forall k :: k in chapters.entries && k != chapterKey ==>
               chapters.entries[k].id != chapters.entries[chapterKey].id
    ensures ResolvedChapterKey(chapters, ChapterIdFor(chapters, chapterKey)) == chapterKey
  {
    var r := FirstChapterWithId(chapters, chapters.order, ChapterIdFor(chapters, chapterKey));
    assert chapterKey in chapters.order;
    var j :| 0 <= j < |chapters.order| && chapters.order[j] == chapterKey;
    assert r.Some?;
  }

  /** An unknown chapter key is saved as id 1, which restores the first chapter with id 1, or "chapter_1". */
  lemma UnknownChapterKeyRestoresChapterOne(chapters: Index<ChapterData>, chapterKey: string)
    requires Valid(chapters, ChapterKeyOf)
    requires chapterKey !in chapters.entries
    ensures ChapterIdFor(chapters, chapterKey) == DefaultChapterId
    ensures (forall k :: k in chapters.entries ==> chapters.entries[k].id != DefaultChapterId) ==>
              ResolvedChapterKey(chapters, ChapterIdFor(chapters, chapterKey)) == DefaultChapterKey
  {
  }

  // The loops that copy a runtime map or set into a record's array. They
  // enumerate in an order the model leaves open.

  method FlagEntriesOf(flags: map<string, bool>) returns (entries: seq<FlagEntry>)
    ensures Describes(entries, EntryId, EntryValue, flags)
  {
    entries := [];
    var rest := flags.Keys;
    while rest != {}
      invariant rest <= flags.Keys
      invariant Distinct(Keys(entries, EntryId))
      invariant forall k :: k in Keys(entries, EntryId) <==> k in flags.Keys - rest
      invariant forall i :: 0 <= i < |entries| ==> entries[i].id in flags && flags[entries[i].id] == entries[i].value
      decreases rest
    {
      var k :| k in rest;
      assert Keys(entries + [FlagEntry(k, flags[k])], EntryId) == Keys(entries, EntryId) + [k];
      DistinctSnoc(Keys(entries, EntryId), k);
      entries := entries + [FlagEntry(k, flags[k])];
      rest := rest - {k};
    }
  }

  method MissionEntriesOf(states: map<string, string>) returns (entries: seq<MissionEntry>)
    ensures Describes(entries, MissionEntryId, MissionEntryState, states)
  {
    entries := [];
    var rest := states.Keys;
    while rest != {}
      invariant rest <= states.Keys
      invariant Distinct(Keys(entries, MissionEntryId))
      invariant forall k :: k in Keys(entries, MissionEntryId) <==> k in states.Keys - rest
      invariant forall i :: 0 <= i < |entries| ==> entries[i].id in states && states[entries[i].id] == entries[i].state
      decreases rest
    {
      var k :| k in rest;
      assert Keys(entries + [MissionEntry(k, states[k])], MissionEntryId) == Keys(entries, MissionEntryId) + [k];
      DistinctSnoc(Keys(entries, MissionEntryId), k);
      entries := entries + [MissionEntry(k, states[k])];
      rest := rest - {k};
    }
  }

  /** The save's mission list: every state, with no step id and stamped with `now`. */
  method SaveMissionsOf(states: map<string, string>, now: string) returns (entries: seq<SaveMissionProgress>)
    ensures Describes(entries, SaveMissionId, SaveMissionState, states)
    ensures forall i :: 0 <= i < |entries| ==> entries[i].lastStepId == "" && entries[i].lastUpdatedAt == now
  {
    entries := [];
    var rest := states.Keys;
    while rest != {}
      invariant rest <= states.Keys
      invariant Distinct(Keys(entries, SaveMissionId))
      invariant forall k :: k in Keys(entries, SaveMissionId) <==> k in states.Keys - rest
      invariant forall i :: 0 <= i < |entries| ==> entries[i].missionId in states && states[entries[i].missionId] == entries[i].state
      invariant forall i :: 0 <= i < |entries| ==> entries[i].lastStepId == "" && entries[i].lastUpdatedAt == now
      decreases rest
    {
      var k :| k in rest;
      var e := SaveMissionProgress(k, states[k], "", now);
      assert Keys(entries + [e], SaveMissionId) == Keys(entries, SaveMissionId) + [k];
      DistinctSnoc(Keys(entries, SaveMissionId), k);
      entries := entries + [e];
      rest := rest - {k};
    }
  }

  /** The ids of the flags that are true; false flags are not saved. */
  method ActiveFlagIds(flags: map<string, bool>) returns (ids: seq<string>)
    ensures Enumerates(ids, ActiveIds(flags))
  {
    ids := [];
    var rest := flags.Keys;
    while rest != {}
      invariant rest <= flags.Keys
      invariant Distinct(ids)
      invariant forall k :: k in ids <==> k in flags.Keys - rest && flags[k]
      decreases rest
    {
      var k :| k in rest;
      if flags[k] {
        DistinctSnoc(ids, k);
        ids := ids + [k];
      }
      rest := rest - {k};
    }
  }

  /** A hash set copied into an array. */
  method ListOf(members: set<string>) returns (s: seq<string>)
    ensures Enumerates(s, members)
  {
    s := [];
    var rest := members;
    while rest != {}
      invariant rest <= members
      invariant Distinct(s)
      invariant forall k :: k in s <==> k in members - rest
      decreases rest
    {
      var k :| k in rest;
      DistinctSnoc(s, k);
      s := s + [k];
      rest := rest - {k};
    }
  }

  /** The dictionary a load loop fills from an array of records. */
  method BuildLastWins<T, V>(items: seq<T>, key: T -> string, val: T -> V) returns (m: map<string, V>)
    ensures m == LastWins(items, key, val)
  {
    m := map[];
    for i := 0 to |items|
      invariant m == LastWins(items[..i], key, val)
    {
      assert items[..i + 1][..i] == items[..i];
      LastWinsSnoc(items[..i + 1], key, val);
      if key(items[i]) != "" {
        m := m[key(items[i]) := val(items[i])];
      }
    }
    assert items[..|items|] == items;
  }

  /** The flag store an array of active ids restores: each of them true, nothing else. */
  method TrueForEach(ids: seq<string>) returns (m: map<string, bool>)
    ensures m == AllTrue(Elements(ids))
  {
    m := map[];
    for i := 0 to |ids|
      invariant m == AllTrue(Elements(ids[..i]))
    {
      assert Elements(ids[..i + 1]) == Elements(ids[..i]) + {ids[i]};
      m := m[ids[i] := true];
    }
    assert ids[..|ids|] == ids;
  }

  class GameStateManager {
    const catalog: Catalog
    const flagsManager: FlagsManager
    const missionManager: MissionManager
    var progress: Option<PlayerProgress>
    var completedObjectives: set<string>
    var knownZones: set<string>
    var lastKnownPosition: Vec2
    var lastDirection: string
    var currentSaveCreatedAt: Option<string>

    ghost predicate Valid()
      reads this
    {
      && flagsManager.Valid() && flagsManager.catalog == catalog && flagsManager.missions == missionManager
      && missionManager.catalog == catalog
      && KeyedIndex.Valid(catalog.chapters, ChapterKeyOf)
      && lastDirection != ""
    }

    constructor (catalog: Catalog, flagsManager: FlagsManager, missionManager: MissionManager)
      requires flagsManager.Valid() && flagsManager.catalog == catalog && flagsManager.missions == missionManager
      requires missionManager.catalog == catalog
      requires KeyedIndex.Valid(catalog.chapters, ChapterKeyOf)
      ensures Valid()
      ensures this.catalog == catalog && this.flagsManager == flagsManager && this.missionManager == missionManager
      ensures progress.None? && completedObjectives == {} && knownZones == {}
      ensures lastKnownPosition == Zero && lastDirection == DefaultDirection && currentSaveCreatedAt.None?
    {
      this.catalog := catalog;
      this.flagsManager := flagsManager;
      this.missionManager := missionManager;
      progress := None;
      completedObjectives := {};
      knownZones := {};
      lastKnownPosition := Zero;
      lastDirection := DefaultDirection;
      currentSaveCreatedAt := None;
    }

    /** The progress record, or the one `EnsureProgressExists` would create. */
    function ProgressOrFresh(): (r: PlayerProgress)
      reads this
      ensures progress.Some? ==> r == progress.value
      ensures progress.None? ==> r.chapterKey == Some(DefaultChapterKey) && r.currentZoneKey == Some(DefaultZoneKey)
    {
      progress.GetOr(FreshProgress())
    }

    /** The chapter key, "chapter_1" when there is no progress or it holds no key. */
    function CurrentProgressChapterKey(): (r: string)
      reads this
      ensures progress.Some? && progress.value.chapterKey.Some? ==> r == progress.value.chapterKey.value
      ensures progress.None? || progress.value.chapterKey.None? ==> r == DefaultChapterKey
    {
      if progress.Some? then progress.value.chapterKey.GetOr(DefaultChapterKey) else DefaultChapterKey
    }

    /** The zone key, "mist_forest" when there is no progress or it holds no key. */
    function CurrentProgressZoneKey(): (r: string)
      reads this
      ensures progress.Some? && progress.value.currentZoneKey.Some? ==> r == progress.value.currentZoneKey.value
      ensures progress.None? || progress.value.currentZoneKey.None? ==> r == DefaultZoneKey
    {
      if progress.Some? then progress.value.currentZoneKey.GetOr(DefaultZoneKey) else DefaultZoneKey
    }

    /** Creates the fresh progress record when there is none; an existing one is kept. */
    method EnsureProgressExists()
      modifies this`progress
      ensures progress == Some(old(ProgressOrFresh()))
    {
      if progress.Some? {
        return;
      }
      progress := Some(FreshProgress());
    }

    method SetCurrentProgressChapterKey(value: Option<string>)
      modifies this`progress
      ensures progress == Some(old(ProgressOrFresh()).(chapterKey := value))
      ensures value.Some? ==> CurrentProgressChapterKey() == value.value
      ensures CurrentProgressZoneKey() == old(CurrentProgressZoneKey())
    {
      EnsureProgressExists();
      progress := Some(progress.value.(chapterKey := value));
    }

    method SetCurrentProgressZoneKey(value: Option<string>)
      modifies this`progress
      ensures progress == Some(old(ProgressOrFresh()).(currentZoneKey := value))
      ensures value.Some? ==> CurrentProgressZoneKey() == value.value
      ensures CurrentProgressChapterKey() == old(CurrentProgressChapterKey())
    {
      EnsureProgressExists();
      progress := Some(progress.value.(currentZoneKey := value));
    }

    /** An empty id is ignored. */
    method MarkObjectiveCompleted(objectiveId: string)
      modifies this`completedObjectives
      ensures objectiveId != "" ==> completedObjectives == old(completedObjectives) + {objectiveId}
      ensures objectiveId == "" ==> completedObjectives == old(completedObjectives)
      ensures IsObjectiveCompleted(objectiveId) <==> objectiveId != "" || old(IsObjectiveCompleted(objectiveId))
      ensures forall o :: o != objectiveId ==> IsObjectiveCompleted(o) == old(IsObjectiveCompleted(o))
    {
      if objectiveId != "" {
        completedObjectives := completedObjectives + {objectiveId};
      }
    }

    /** Whether the objective was marked completed (or restored as completed by a save). */
    function IsObjectiveCompleted(objectiveId: string): (r: bool)
      reads this
      ensures r <==> objectiveId in completedObjectives
    {
      objectiveId in completedObjectives
    }

    /** An empty key is ignored. */
    method RegisterZoneKnown(zoneKey: string)
      modifies this`knownZones
      ensures zoneKey != "" ==> knownZones == old(knownZones) + {zoneKey}
      ensures zoneKey == "" ==> knownZones == old(knownZones)
      ensures IsZoneKnown(zoneKey) <==> zoneKey != "" || old(IsZoneKnown(zoneKey))
      ensures forall z :: z != zoneKey ==> IsZoneKnown(z) == old(IsZoneKnown(z))
    {
      if zoneKey != "" {
        knownZones := knownZones + {zoneKey};
      }
    }

    /** Whether the zone was registered (or restored as known by a save). */
    function IsZoneKnown(zoneKey: string): (r: bool)
      reads this
      ensures r <==> zoneKey in knownZones
    {
      zoneKey in knownZones
    }

    /** Stores the position; an empty direction keeps the previous facing. */
    method UpdatePlayerTransform(position: Vec2, direction: string)
      requires Valid()
      modifies this`lastKnownPosition, this`lastDirection
      ensures Valid()
      ensures lastKnownPosition == position
      ensures lastDirection == if direction == "" then old(lastDirection) else direction
    {
      lastKnownPosition := position;
      if direction != "" {
        lastDirection := direction;
      }
    }

    /** The state a new game starts in, and the one every fallback path resets to. */
    ghost predicate IsNewGame()
      reads this, flagsManager, missionManager
    {
      && progress.Some?
      && progress.value.profileId == Some(DefaultProfileId)
      && progress.value.chapterKey == Some(DefaultChapterKey)
      && progress.value.currentZoneKey == Some(DefaultZoneKey)
      && progress.value.currentSceneName == Some("")
      && Describes(progress.value.flags, EntryId, EntryValue, flagsManager.flags)
      && Describes(progress.value.missions, MissionEntryId, MissionEntryState, missionManager.states)
      && completedObjectives == {}
      && knownZones == {DefaultZoneKey}
      && lastKnownPosition == Zero
      && lastDirection == DefaultDirection
      && currentSaveCreatedAt.None?
      && flagsManager.flags.Keys == catalog.flags.entries.Keys
      && (forall k :: k in flagsManager.flags ==> flagsManager.flags[k] == catalog.flags.entries[k].defaultValue)
      && missionManager.states.Keys == catalog.missions.entries.Keys
      && (forall k :: k in missionManager.states ==> missionManager.states[k] == catalog.missions.entries[k].initialState)
    }

    method StartNewGame()
      requires Valid()
      modifies this, flagsManager`flags, missionManager`states
      ensures Valid() && IsNewGame()
    {
      progress := Some(FreshProgress());
      completedObjectives := {};
      knownZones := {DefaultZoneKey};
      lastKnownPosition := Zero;
      lastDirection := DefaultDirection;
      currentSaveCreatedAt := None;
      var flags := flagsManager;
      var missions := missionManager;
      flags.InitializeForNewProfile();
      missions.InitializeForNewProfile();
      var snapshot := BuildProgressSnapshot(progress.value);
      progress := Some(snapshot);
    }

    /** `baseData` with its flag and mission arrays replaced by the current stores. */
    method BuildProgressSnapshot(baseData: PlayerProgress) returns (r: PlayerProgress)
      ensures r == baseData.(flags := r.flags, missions := r.missions)
      ensures Describes(r.flags, EntryId, EntryValue, flagsManager.flags)
      ensures Describes(r.missions, MissionEntryId, MissionEntryState, missionManager.states)
    {
      var flags := flagsManager.ExportFlags();
      var flagsList := FlagEntriesOf(flags);
      var states := missionManager.ExportMissionStates();
      var missionsList := MissionEntriesOf(states);
      r := baseData.(flags := flagsList, missions := missionsList);
    }

    method BuildCurrentProgressSnapshot() returns (r: PlayerProgress)
      modifies this`progress
      ensures progress == Some(r)
      ensures r == old(ProgressOrFresh()).(flags := r.flags, missions := r.missions)
      ensures Describes(r.flags, EntryId, EntryValue, flagsManager.flags)
      ensures Describes(r.missions, MissionEntryId, MissionEntryState, missionManager.states)
    {
      EnsureProgressExists();
      r := BuildProgressSnapshot(progress.value);
      progress := Some(r);
    }

    /**
     * Adopts a legacy progress record: the flag and mission arrays are loaded
     * last-wins, skipping empty ids. Nothing else changes. A missing record
     * starts a new game.
     */
    method LoadFromProgress(data: Option<PlayerProgress>)
      requires Valid()
      modifies this, flagsManager`flags, missionManager`states
      ensures Valid()
      ensures data.None? ==> IsNewGame()
      ensures data.Some? ==>
        && progress == data
        && flagsManager.flags == LastWins(data.value.flags, EntryId, EntryValue)
        && missionManager.states == LastWins(data.value.missions, MissionEntryId, MissionEntryState)
        && completedObjectives == old(completedObjectives) && knownZones == old(knownZones)
        && lastKnownPosition == old(lastKnownPosition) && lastDirection == old(lastDirection)
        && currentSaveCreatedAt == old(currentSaveCreatedAt)
    {
      if data.None? {
        StartNewGame();
        return;
      }
      progress := data;
      var flags := flagsManager;
      var missions := missionManager;
      var flagsDict := BuildLastWins(data.value.flags, EntryId, EntryValue);
      flags.ImportFlags(flagsDict);
      var missionsDict := BuildLastWins(data.value.missions, MissionEntryId, MissionEntryState);
      missions.ImportMissionStates(missionsDict);
    }

    /** The chapter id of a chapter key: a search of the catalog in order, 1 when none matches. */
    method FindChapterId(chapterKey: string) returns (chapterId: int)
      requires Valid()
      ensures chapterId == ChapterIdFor(catalog.chapters, chapterKey)
    {
      chapterId := DefaultChapterId;
      var order := catalog.chapters.order;
      for i := 0 to |order|
        invariant chapterKey !in order[..i]
      {
        if order[i] == chapterKey {
          chapterId := catalog.chapters.entries[order[i]].id;
          return;
        }
        assert order[..i + 1] == order[..i] + [order[i]];
      }
      assert order[..|order|] == order;
    }

    /** The first chapter, in catalog order, with this id; "chapter_1" when none has it. */
    method ResolveChapterKeyFromId(chapterId: int) returns (chapterKey: string)
      requires Valid()
      ensures chapterKey == ResolvedChapterKey(catalog.chapters, chapterId)
    {
      var order := catalog.chapters.order;
      for i := 0 to |order|
        invariant forall j :: 0 <= j < i ==> catalog.chapters.entries[order[j]].id != chapterId
      {
        if catalog.chapters.entries[order[i]].id == chapterId {
          return order[i];
        }
      }
      return DefaultChapterKey;
    }

    /**
     * The save record of the current state, stamped with `now`. The creation
     * time is the remembered one, or `now` for a first save, and is remembered.
     */
    method BuildSaveGameData(now: string) returns (save: SaveGameData)
      requires Valid()
      modifies this`progress, this`currentSaveCreatedAt
      ensures Valid()
      ensures progress == Some(old(ProgressOrFresh()))
      ensures currentSaveCreatedAt == Some(old(currentSaveCreatedAt).GetOr(now))
      ensures save.version == SaveVersion
      ensures save.metadata == Some(SaveMetadata(currentSaveCreatedAt, Some(now)))
      ensures save.playerState == SavePlayerState(
                ChapterIdFor(catalog.chapters, old(CurrentProgressChapterKey())),
                Some(old(CurrentProgressZoneKey())),
                Some(lastKnownPosition),
                lastDirection)
      ensures Enumerates(save.progress.activeFlags, ActiveIds(flagsManager.flags))
      ensures Describes(save.progress.missions, SaveMissionId, SaveMissionState, missionManager.states)
      ensures forall i :: 0 <= i < |save.progress.missions| ==>
                save.progress.missions[i].lastStepId == "" && save.progress.missions[i].lastUpdatedAt == now
      ensures Enumerates(save.progress.completedObjectives, completedObjectives)
      ensures Enumerates(save.progress.zones, knownZones)
    {
      EnsureProgressExists();
      var chapterId := FindChapterId(CurrentProgressChapterKey());
      var createdAt := if currentSaveCreatedAt.Some? then currentSaveCreatedAt.value else now;
      var playerState := SavePlayerState(chapterId, Some(CurrentProgressZoneKey()), Some(lastKnownPosition), lastDirection);
      var flags := flagsManager.ExportFlags();
      var activeFlags := ActiveFlagIds(flags);
      var states := missionManager.ExportMissionStates();
      var missions := SaveMissionsOf(states, now);
      var objectives := ListOf(completedObjectives);
      var zones := ListOf(knownZones);
      save := SaveGameData(SaveVersion, Some(SaveMetadata(Some(createdAt), Some(now))), playerState,
                           SaveProgress(activeFlags, missions, objectives, zones));
      currentSaveCreatedAt := Some(createdAt);
    }

    /**
     * The session a save record restores, relative to the one before: the
     * creation time, zone, chapter resolved from its id, position when given,
     * facing ("down" when empty), the active flags as the whole flag store,
     * the mission list last-wins as the whole mission map, objectives and zones.
     */
    twostate predicate AppliedSave(d: SaveGameData)
      requires KeyedIndex.Valid(catalog.chapters, ChapterKeyOf)
      reads this, flagsManager, missionManager
    {
      && currentSaveCreatedAt == (if d.metadata.Some? then d.metadata.value.createdAt else None)
      && progress == Some(old(ProgressOrFresh()).(currentZoneKey := d.playerState.currentZoneKey,
                                                 chapterKey := Some(ResolvedChapterKey(catalog.chapters, d.playerState.currentChapterId))))
      && lastKnownPosition == (if d.playerState.position.Some? then d.playerState.position.value else old(lastKnownPosition))
      && lastDirection == (if d.playerState.direction == "" then DefaultDirection else d.playerState.direction)
      && flagsManager.flags == AllTrue(Elements(d.progress.activeFlags))
      && missionManager.states == LastWins(d.progress.missions, SaveMissionId, SaveMissionState)
      && completedObjectives == Elements(d.progress.completedObjectives)
      && knownZones == Elements(d.progress.zones)
    }

    /**
     * Restores a save record: chapter from its id, zone, position when given,
     * facing ("down" when empty), the active flags as the whole flag store,
     * the mission list last-wins as the whole mission map, objectives and
     * zones. A missing record starts a new game.
     */
    method ApplySaveGameData(data: Option<SaveGameData>)
      requires Valid()
      modifies this, flagsManager`flags, missionManager`states
      ensures Valid()
      ensures data.None? ==> IsNewGame()
      ensures data.Some? ==> AppliedSave(data.value)
    {
      if data.None? {
        StartNewGame();
        return;
      }
      var d := data.value;
      currentSaveCreatedAt := if d.metadata.Some? then d.metadata.value.createdAt else None;
      ApplyPlayerState(d.playerState);

      var flags := flagsManager;
      var missions := missionManager;
      var flagsDict := TrueForEach(d.progress.activeFlags);
      flags.ImportFlags(flagsDict);
      var missionsDict := BuildLastWins(d.progress.missions, SaveMissionId, SaveMissionState);
      missions.ImportMissionStates(missionsDict);

      RestoreObjectives(d.progress.completedObjectives);
      RestoreZones(d.progress.zones);
    }

    /** The player-state part of `ApplySaveGameData`. */
    method ApplyPlayerState(ps: SavePlayerState)
      requires Valid()
      modifies this`progress, this`lastKnownPosition, this`lastDirection
      ensures Valid()
      ensures progress == Some(old(ProgressOrFresh()).(currentZoneKey := ps.currentZoneKey,
                                                     chapterKey := Some(ResolvedChapterKey(catalog.chapters, ps.currentChapterId))))
      ensures lastKnownPosition == if ps.position.Some? then ps.position.value else old(lastKnownPosition)
      ensures lastDirection == if ps.direction == "" then DefaultDirection else ps.direction
    {
      SetCurrentProgressZoneKey(ps.currentZoneKey);
      var chapterKey := ResolveChapterKeyFromId(ps.currentChapterId);
      SetCurrentProgressChapterKey(Some(chapterKey));
      if ps.position.Some? {
        lastKnownPosition := ps.position.value;
      }
      assert |DefaultDirection| == 4;
      lastDirection := if ps.direction == "" then DefaultDirection else ps.direction;
    }

    /** Clears the completed objectives, then adds every listed one. */
    method RestoreObjectives(objectives: seq<string>)
      modifies this`completedObjectives
      ensures completedObjectives == Elements(objectives)
    {
      completedObjectives := {};
      for i := 0 to |objectives|
        invariant completedObjectives == Elements(objectives[..i])
      {
        assert Elements(objectives[..i + 1]) == Elements(objectives[..i]) + {objectives[i]};
        completedObjectives := completedObjectives + {objectives[i]};
      }
      assert objectives[..|objectives|] == objectives;
    }

    /** Clears the known zones, then adds every listed one. */
    method RestoreZones(zones: seq<string>)
      modifies this`knownZones
      ensures knownZones == Elements(zones)
    {
      knownZones := {};
      for i := 0 to |zones|
        invariant knownZones == Elements(zones[..i])
      {
        assert Elements(zones[..i + 1]) == Elements(zones[..i]) + {zones[i]};
        knownZones := knownZones + {zones[i]};
      }
      assert zones[..|zones|] == zones;
    }

    /**
     * Loads from save text. Empty text starts a new game; otherwise `decoded`
     * is what the JSON decoder made of the text and is applied.
     */
    method LoadFromSaveGameJson(json: string, decoded: Option<SaveGameData>)
      requires Valid()
      modifies this, flagsManager`flags, missionManager`states
      ensures Valid()
      ensures json == "" || decoded.None? ==> IsNewGame()
      ensures json != "" && decoded.Some? ==> AppliedSave(decoded.value)
    {
      if json == "" {
        StartNewGame();
        return;
      }
      ApplySaveGameData(decoded);
    }
  }

  /**
   * Saving and then applying that save restores the session: every flag reads
   * as before (false flags are dropped from the store, which reads the same),
   * mission states come back apart from one under an empty id, and so do
   * objectives, zones, position, facing, zone and the creation time. The
   * chapter comes back when no other chapter shares its id.
   */
  method SaveThenApply(g: GameStateManager, now: string) returns (save: SaveGameData)
    requires g.Valid()
    modifies g, g.flagsManager`flags, g.missionManager`states
    ensures g.Valid()
    ensures g.flagsManager.flags == AllTrue(old(ActiveIds(g.flagsManager.flags)))
    ensures forall k :: g.flagsManager.IsFlagActive(k) == old(g.flagsManager.IsFlagActive(k))
    ensures g.missionManager.states == old(map k | k in g.missionManager.states && k != "" :: g.missionManager.states[k])
    ensures g.completedObjectives == old(g.completedObjectives) && g.knownZones == old(g.knownZones)
    ensures g.lastKnownPosition == old(g.lastKnownPosition) && g.lastDirection == old(g.lastDirection)
    ensures g.currentSaveCreatedAt == Some(old(g.currentSaveCreatedAt).GetOr(now))
    ensures g.CurrentProgressZoneKey() == old(g.CurrentProgressZoneKey())
    ensures var key := old(g.CurrentProgressChapterKey());
      key in g.catalog.chapters.entries &&
      (forall k :: k in g.catalog.chapters.entries && k != key ==>
         g.catalog.chapters.entries[k].id != g.catalog.chapters.entries[key].id) ==>
      g.CurrentProgressChapterKey() == key
  {
    ghost var flags0 := g.flagsManager.flags;
    ghost var states0 := g.missionManager.states;
    ghost var key0 := g.CurrentProgressChapterKey();
    save := g.BuildSaveGameData(now);
    LastWinsOfDescribes(save.progress.missions, SaveMissionId, SaveMissionState, states0);
    if key0 in g.catalog.chapters.entries &&
       (forall k :: k in g.catalog.chapters.entries && k != key0 ==>
          g.catalog.chapters.entries[k].id != g.catalog.chapters.entries[key0].id) {
      ChapterKeyRoundTrip(g.catalog.chapters, key0);
    }
    g.ApplySaveGameData(Some(save));
  }

  /**
   * The legacy path: loading the snapshot just taken gives back both stores,
   * apart from an entry under an empty id, and keeps the snapshot as progress.
   */
  method SnapshotThenLoad(g: GameStateManager) returns (snapshot: PlayerProgress)
    requires g.Valid()
    modifies g, g.flagsManager`flags, g.missionManager`states
    ensures g.Valid()
    ensures g.progress == Some(snapshot)
    ensures g.flagsManager.flags == old(map k | k in g.flagsManager.flags && k != "" :: g.flagsManager.flags[k])
    ensures g.missionManager.states == old(map k | k in g.missionManager.states && k != "" :: g.missionManager.states[k])
  {
    snapshot := g.BuildCurrentProgressSnapshot();
    LastWinsOfDescribes(snapshot.flags, EntryId, EntryValue, g.flagsManager.flags);
    LastWinsOfDescribes(snapshot.missions, MissionEntryId, MissionEntryState, g.missionManager.states);
    g.LoadFromProgress(Some(snapshot));
  }
}
