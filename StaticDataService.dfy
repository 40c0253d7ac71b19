/**
 * The static content catalog (StaticDataService): seven collections of
 * authored records, each loaded once from a parsed document into a dictionary
 * keyed by the record's own id or key, and looked up by that key.
 *
 * Only the record fields that the narrative core reads are kept.
 */
module StaticData {
  import opened Wrappers
  import opened KeyedIndex

  datatype ChapterData = ChapterData(id: int, key: string)
  datatype PuzzleData = PuzzleData(id: int, key: string)
  datatype FlagData = FlagData(id: string, defaultValue: bool)
  datatype CharacterData = CharacterData(id: string, key: string)
  datatype CharacterDialogueRoutes = CharacterDialogueRoutes(characterId: string)

  /** A step moves a mission in `state` to `setStateTo` when one of `triggersOn` is raised. */
  datatype MissionStepData = MissionStepData(state: string, triggersOn: seq<string>, setStateTo: string)
  datatype MissionData = MissionData(id: string, initialState: string, steps: seq<MissionStepData>)

  datatype ConversationNodeData = ConversationNodeData(id: string, nextId: string, flagsOnComplete: seq<string>)
  datatype ConversationData = ConversationData(id: string, nodes: seq<ConversationNodeData>)

  // The key each collection is indexed by.
  function ChapterKeyOf(c: ChapterData): string { c.key }
  function PuzzleKeyOf(p: PuzzleData): string { p.key }
  function MissionIdOf(m: MissionData): string { m.id }
  function FlagIdOf(f: FlagData): string { f.id }
  function CharacterIdOf(c: CharacterData): string { c.id }
  function RoutesCharacterIdOf(r: CharacterDialogueRoutes): string { r.characterId }
  function ConversationIdOf(c: ConversationData): string { c.id }
  function NodeIdOf(n: ConversationNodeData): string { n.id }

  /**
   * A source document as the loader sees it: not assigned at all, or parsed
   * into a root whose array may be missing (`Parsed(None)` stands for a null
   * root as well as a null array).
   */
  datatype Asset<T> = Missing | Parsed(items: Option<seq<T>>)

  /** What one loader leaves in its collection. */
  function LoadIndex<T>(asset: Asset<T>, key: T -> string): Index<T> {
    match asset
    case Missing => Empty()
    case Parsed(None) => Empty()
    case Parsed(Some(items)) => IndexByKey(items, key)
  }

  /** Every loader leaves a consistent collection; a missing asset or array leaves it empty. */
  lemma LoadIndexValid<T>(asset: Asset<T>, key: T -> string)
    ensures Valid(LoadIndex(asset, key), key)
    ensures asset.Missing? || asset.items.None? ==> LoadIndex(asset, key).entries == map[]
  {
    if asset.Parsed? && asset.items.Some? {
      IndexByKeyValid(asset.items.value, key);
    }
  }

  /** The loaded catalog, as the other components read it. */
  datatype Catalog = Catalog(
    chapters: Index<ChapterData>,
    puzzles: Index<PuzzleData>,
    missions: Index<MissionData>,
    flags: Index<FlagData>,
    characters: Index<CharacterData>,
    dialogueRoutes: Index<CharacterDialogueRoutes>,
    conversations: Index<ConversationData>)

  ghost predicate WellFormed(c: Catalog) {
    && Valid(c.chapters, ChapterKeyOf)
    && Valid(c.puzzles, PuzzleKeyOf)
    && Valid(c.missions, MissionIdOf)
    && Valid(c.flags, FlagIdOf)
    && Valid(c.characters, CharacterIdOf)
    && Valid(c.dialogueRoutes, RoutesCharacterIdOf)
    && Valid(c.conversations, ConversationIdOf)
  }

  /** The seven source documents. */
  datatype Sources = Sources(
    chapters: Asset<ChapterData>,
    puzzles: Asset<PuzzleData>,
    missions: Asset<MissionData>,
    flags: Asset<FlagData>,
    characters: Asset<CharacterData>,
    dialogueRoutes: Asset<CharacterDialogueRoutes>,
    conversations: Asset<ConversationData>)

  /** A map lookup that answers `None` for an uninitialised collection or an absent key. */
  function Lookup<T>(collection: Option<Index<T>>, k: string): (r: Option<T>)
    ensures r.Some? <==> collection.Some? && k in collection.value.entries
    ensures r.Some? ==> r.value == collection.value.entries[k]
  {
    if collection.None? || k !in collection.value.entries then None
    else Some(collection.value.entries[k])
  }

  /**
   * Looking up a loaded collection finds, for every non-empty key of the
   * array, the last element carrying it, and nothing for any other key.
   */
  lemma LookupAfterLoad<T>(items: seq<T>, key: T -> string, k: string)
    ensures Lookup(Some(LoadIndex(Parsed(Some(items)), key)), k).Some? <==>
      k != "" && HasKey(items, key, k)
    ensures forall i :: LastWithKey(items, key, i) && key(items[i]) == k && k != "" ==>
      Lookup(Some(LoadIndex(Parsed(Some(items)), key)), k) == Some(items[i])
  {
    IndexByKeyKeys(items, key);
    IndexByKeyLast(items, key);
  }

  /** A loader that found no usable document leaves an empty collection: every lookup misses. */
  lemma LookupAfterFailedLoad<T>(asset: Asset<T>, key: T -> string, k: string)
    requires asset.Missing? || asset.items.None?
    ensures Lookup(Some(LoadIndex(asset, key)), k) == None
  {
  }

  /** The loop of every `Load*` method, after the asset checks. */
  method LoadFrom<T>(asset: Asset<T>, key: T -> string) returns (idx: Index<T>)
    ensures idx == LoadIndex(asset, key)
  {
    match asset
    case Missing =>
      idx := Empty();
    case Parsed(None) =>
      idx := Empty();
    case Parsed(Some(items)) =>
      idx := BuildIndex(items, key);
  }

  /** A collection that is not loaded yet, or a consistent index. */
  ghost predicate Consistent<T>(collection: Option<Index<T>>, key: T -> string) {
    collection.Some? ==> KeyedIndex.Valid(collection.value, key)
  }

  class StaticDataService {
    // `None` until the collection's loader has run.
    var chapters: Option<Index<ChapterData>>
    var puzzles: Option<Index<PuzzleData>>
    var missions: Option<Index<MissionData>>
    var flags: Option<Index<FlagData>>
    var characters: Option<Index<CharacterData>>
    var dialogueRoutes: Option<Index<CharacterDialogueRoutes>>
    var conversations: Option<Index<ConversationData>>

    /** Each loaded collection is consistent. */
    ghost predicate Valid()
      reads this
    {
      && Consistent(chapters, ChapterKeyOf)
      && Consistent(puzzles, PuzzleKeyOf)
      && Consistent(missions, MissionIdOf)
      && Consistent(flags, FlagIdOf)
      && Consistent(characters, CharacterIdOf)
      && Consistent(dialogueRoutes, RoutesCharacterIdOf)
      && Consistent(conversations, ConversationIdOf)
    }

    constructor ()
      ensures Valid()
      ensures chapters.None? && puzzles.None? && missions.None? && flags.None?
      ensures characters.None? && dialogueRoutes.None? && conversations.None?
    {
      chapters, puzzles, missions, flags := None, None, None, None;
      characters, dialogueRoutes, conversations := None, None, None;
    }

    predicate IsInitialized()
      reads this
    {
      && chapters.Some? && puzzles.Some? && missions.Some? && flags.Some?
      && characters.Some? && dialogueRoutes.Some? && conversations.Some?
    }

    /** Runs the seven loaders; each one assigns only its own collection. */
    method Initialize(src: Sources)
      requires Valid()
      modifies this
      ensures Valid() && IsInitialized()
      ensures chapters == Some(LoadIndex(src.chapters, ChapterKeyOf))
      ensures puzzles == Some(LoadIndex(src.puzzles, PuzzleKeyOf))
      ensures missions == Some(LoadIndex(src.missions, MissionIdOf))
      ensures flags == Some(LoadIndex(src.flags, FlagIdOf))
      ensures characters == Some(LoadIndex(src.characters, CharacterIdOf))
      ensures dialogueRoutes == Some(LoadIndex(src.dialogueRoutes, RoutesCharacterIdOf))
      ensures conversations == Some(LoadIndex(src.conversations, ConversationIdOf))
    {
      LoadChapters(src.chapters);
      LoadPuzzles(src.puzzles);
      LoadMissions(src.missions);
      LoadFlags(src.flags);
      LoadCharacters(src.characters);
      LoadCharacterDialogueRoutes(src.dialogueRoutes);
      LoadDialogues(src.conversations);
    }

    method LoadChapters(asset: Asset<ChapterData>)
      requires Valid()
      modifies this`chapters
      ensures Valid()
      ensures chapters == Some(LoadIndex(asset, ChapterKeyOf))
    {
      var idx := LoadFrom(asset, ChapterKeyOf);
      LoadIndexValid(asset, ChapterKeyOf);
      chapters := Some(idx);
    }

    method LoadPuzzles(asset: Asset<PuzzleData>)
      requires Valid()
      modifies this`puzzles
      ensures Valid()
      ensures puzzles == Some(LoadIndex(asset, PuzzleKeyOf))
    {
      var idx := LoadFrom(asset, PuzzleKeyOf);
      LoadIndexValid(asset, PuzzleKeyOf);
      puzzles := Some(idx);
    }

    method LoadMissions(asset: Asset<MissionData>)
      requires Valid()
      modifies this`missions
      ensures Valid()
      ensures missions == Some(LoadIndex(asset, MissionIdOf))
    {
      var idx := LoadFrom(asset, MissionIdOf);
      LoadIndexValid(asset, MissionIdOf);
      missions := Some(idx);
    }

    method LoadFlags(asset: Asset<FlagData>)
      requires Valid()
      modifies this`flags
      ensures Valid()
      ensures flags == Some(LoadIndex(asset, FlagIdOf))
    {
      var idx := LoadFrom(asset, FlagIdOf);
      LoadIndexValid(asset, FlagIdOf);
      flags := Some(idx);
    }

    method LoadCharacters(asset: Asset<CharacterData>)
      requires Valid()
      modifies this`characters
      ensures Valid()
      ensures characters == Some(LoadIndex(asset, CharacterIdOf))
    {
      var idx := LoadFrom(asset, CharacterIdOf);
      LoadIndexValid(asset, CharacterIdOf);
      characters := Some(idx);
    }

    method LoadCharacterDialogueRoutes(asset: Asset<CharacterDialogueRoutes>)
      requires Valid()
      modifies this`dialogueRoutes
      ensures Valid()
      ensures dialogueRoutes == Some(LoadIndex(asset, RoutesCharacterIdOf))
    {
      var idx := LoadFrom(asset, RoutesCharacterIdOf);
      LoadIndexValid(asset, RoutesCharacterIdOf);
      dialogueRoutes := Some(idx);
    }

    method LoadDialogues(asset: Asset<ConversationData>)
      requires Valid()
      modifies this`conversations
      ensures Valid()
      ensures conversations == Some(LoadIndex(asset, ConversationIdOf))
    {
      var idx := LoadFrom(asset, ConversationIdOf);
      LoadIndexValid(asset, ConversationIdOf);
      conversations := Some(idx);
    }

    function GetChapterByKey(key: string): (r: Option<ChapterData>)
      requires Valid()
      reads this
      ensures chapters.None? ==> r.None?
      ensures r.Some? <==> chapters.Some? && key in chapters.value.entries
      ensures r.Some? ==> r.value == chapters.value.entries[key] && r.value.key == key
    {
      Lookup(chapters, key)
    }

    function GetPuzzleByKey(key: string): (r: Option<PuzzleData>)
      requires Valid()
      reads this
      ensures puzzles.None? ==> r.None?
      ensures r.Some? <==> puzzles.Some? && key in puzzles.value.entries
      ensures r.Some? ==> r.value == puzzles.value.entries[key] && r.value.key == key
    {
      Lookup(puzzles, key)
    }

    function GetMissionById(id: string): (r: Option<MissionData>)
      requires Valid()
      reads this
      ensures missions.None? ==> r.None?
      ensures r.Some? <==> missions.Some? && id in missions.value.entries
      ensures r.Some? ==> r.value == missions.value.entries[id] && r.value.id == id
    {
      Lookup(missions, id)
    }

    function GetFlagById(id: string): (r: Option<FlagData>)
      requires Valid()
      reads this
      ensures flags.None? ==> r.None?
      ensures r.Some? <==> flags.Some? && id in flags.value.entries
      ensures r.Some? ==> r.value == flags.value.entries[id] && r.value.id == id
    {
      Lookup(flags, id)
    }

    function GetCharacterById(id: string): (r: Option<CharacterData>)
      requires Valid()
      reads this
      ensures characters.None? ==> r.None?
      ensures r.Some? <==> characters.Some? && id in characters.value.entries
      ensures r.Some? ==> r.value == characters.value.entries[id] && r.value.id == id
    {
      Lookup(characters, id)
    }

    function GetDialogueRoutesForCharacter(characterId: string): (r: Option<CharacterDialogueRoutes>)
      requires Valid()
      reads this
      ensures dialogueRoutes.None? ==> r.None?
      ensures r.Some? <==> dialogueRoutes.Some? && characterId in dialogueRoutes.value.entries
      ensures r.Some? ==> r.value == dialogueRoutes.value.entries[characterId] && r.value.characterId == characterId
    {
      Lookup(dialogueRoutes, characterId)
    }

    function GetConversationById(id: string): (r: Option<ConversationData>)
      requires Valid()
      reads this
      ensures conversations.None? ==> r.None?
      ensures r.Some? <==> conversations.Some? && id in conversations.value.entries
      ensures r.Some? ==> r.value == conversations.value.entries[id] && r.value.id == id
    {
      Lookup(conversations, id)
    }

    /** The catalog the managers read once every loader has run. */
    function Loaded(): (c: Catalog)
      requires Valid() && IsInitialized()
      reads this
      ensures WellFormed(c)
      ensures c.chapters == chapters.value && c.puzzles == puzzles.value
      ensures c.missions == missions.value && c.flags == flags.value
      ensures c.characters == characters.value && c.dialogueRoutes == dialogueRoutes.value
      ensures c.conversations == conversations.value
    {
      Catalog(chapters.value, puzzles.value, missions.value, flags.value,
              characters.value, dialogueRoutes.value, conversations.value)
    }
  }
}
