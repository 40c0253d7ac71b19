/**
 * The flag store (FlagsManager): a map from flag id to boolean, seeded from
 * the catalog defaults. Setting a flag to true is the one path by which
 * missions advance.
 */
module Flags {
  import opened KeyedIndex
  import opened StaticData
  import opened Missions

  /** The ids among `flags` whose value is true. */
  function ActiveIds(flags: map<string, bool>): (ids: set<string>)
    ensures forall k :: k in ids <==> k in flags && flags[k]
  {
    set k | k in flags && flags[k]
  }

  /** Every id of `ids` set to true. */
  function AllTrue(ids: set<string>): (m: map<string, bool>)
    ensures m.Keys == ids
    ensures forall k :: k in m ==> m[k]
  {
    map k | k in ids :: true
  }

  /** The non-empty ids of `ids`, in order. */
  function NonEmpty(ids: seq<string>): (r: seq<string>)
    ensures forall k :: k in r <==> k in ids && k != ""
    decreases |ids|
  {
    if ids == [] then []
    else NonEmpty(ids[..|ids| - 1]) + (if ids[|ids| - 1] != "" then [ids[|ids| - 1]] else [])
  }

  /** A single non-empty id is kept as it is. */
  lemma NonEmptySingleton(id: string)
    requires id != ""
    ensures NonEmpty([id]) == [id]
  {
    assert [id][..0] == [];
  }

  class FlagsManager {
    const catalog: Catalog
    /** The mission manager notified on raises, if there is one. */
    const missions: MissionManager?
    var flags: map<string, bool>

    ghost predicate Valid() {
      && KeyedIndex.Valid(catalog.flags, FlagIdOf)
      && (missions != null ==> missions.Valid() && missions.catalog == catalog)
    }

    constructor (catalog: Catalog, missions: MissionManager?)
      requires KeyedIndex.Valid(catalog.flags, FlagIdOf)
      requires missions != null ==> missions.Valid() && missions.catalog == catalog
      ensures Valid() && this.catalog == catalog && this.missions == missions
      ensures flags == map[]
    {
      this.catalog := catalog;
      this.missions := missions;
      flags := map[];
    }

    /** Discards every flag and seeds each catalog flag with its default value. */
    method InitializeForNewProfile()
      requires Valid()
      modifies this`flags
      ensures flags.Keys == catalog.flags.entries.Keys
      ensures forall k :: k in flags ==> flags[k] == catalog.flags.entries[k].defaultValue
    {
      flags := map[];
      var order := catalog.flags.order;
      for i := 0 to |order|
        invariant flags.Keys == set k | k in order[..i]
        invariant forall k :: k in flags ==> k in catalog.flags.entries && flags[k] == catalog.flags.entries[k].defaultValue
      {
        var flagData := catalog.flags.entries[order[i]];
        assert FlagIdOf(flagData) == order[i];
        assert order[..i + 1] == order[..i] + [order[i]];
        flags := flags[flagData.id := flagData.defaultValue];
      }
      assert order[..|order|] == order;
    }

    /**
     * Stores `value` under `flagId` (adding an unknown id); when the value is
     * true and a mission manager exists, runs one advancement sweep for it.
     */
    method SetFlag(flagId: string, value: bool)
      requires Valid()
      modifies this`flags, missions
      ensures flags == old(flags)[flagId := value]
      ensures missions != null && value ==>
        var r := Advance(catalog.missions, old(missions.states), flagId);
        && missions.states == r.states
        && missions.events == old(missions.events) + r.events
        && missions.sweeps == old(missions.sweeps) + [flagId]
      ensures missions != null && !value ==>
        missions.states == old(missions.states) && missions.events == old(missions.events) &&
        missions.sweeps == old(missions.sweeps)
    {
      flags := flags[flagId := value];
      if value && missions != null {
        var _ := missions.TryAdvanceMissionsOnFlag(flagId);
      }
    }

    /** `SetFlag(flagId, true)`. */
    method RaiseFlag(flagId: string)
      requires Valid()
      modifies this`flags, missions
      ensures flags == old(flags)[flagId := true]
      ensures missions != null ==>
        var r := Advance(catalog.missions, old(missions.states), flagId);
        && missions.states == r.states
        && missions.events == old(missions.events) + r.events
        && missions.sweeps == old(missions.sweeps) + [flagId]
    {
      SetFlag(flagId, true);
    }

    /** An unknown flag reads as false. */
    function IsFlagActive(flagId: string): (r: bool)
      reads this
      ensures r <==> flagId in flags && flags[flagId]
      ensures flagId !in flags ==> !r
    {
      flagId in flags && flags[flagId]
    }

    method ExportFlags() returns (r: map<string, bool>)
      ensures r == flags
    {
      r := flags;
    }

    /** Clears the store, then copies every entry of `m`. */
    method ImportFlags(m: map<string, bool>)
      modifies this`flags
      ensures flags == m
    {
      flags := map[];
      var rest := m.Keys;
      while rest != {}
        invariant rest <= m.Keys
        invariant flags.Keys == m.Keys - rest
        invariant forall k :: k in flags ==> flags[k] == m[k]
        decreases rest
      {
        var k :| k in rest;
        flags := flags[k := m[k]];
        rest := rest - {k};
      }
    }
  }

  /** Importing what was exported gives back the same store. */
  method ExportImportRoundTrip(store: FlagsManager)
    modifies store`flags
    ensures store.flags == old(store.flags)
  {
    var saved := store.ExportFlags();
    store.ImportFlags(saved);
  }

  /** An unknown flag reads false until it is raised, and true afterwards. */
  method RaiseUnknownFlag(store: FlagsManager, flagId: string)
    requires store.Valid() && flagId !in store.flags
    modifies store`flags, store.missions
    ensures !old(store.IsFlagActive(flagId)) && store.IsFlagActive(flagId)
  {
    store.RaiseFlag(flagId);
  }
}
