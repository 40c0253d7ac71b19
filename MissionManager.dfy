/**
 * The mission state machine (MissionManager): a map from mission id to its
 * current state id, seeded from the catalog and advanced when a flag is raised
 * by the first step, in authored order, that matches the mission's state and
 * the raised flag. Every real change is recorded as a state-change event.
 */
module Missions {
  import opened Wrappers
  import opened KeyedIndex
  import opened StaticData

  /** The notification `(missionId, oldState, newState)`; `oldState` is `None` for an unknown mission. */
  datatype StateChange = StateChange(missionId: string, oldState: Option<string>, newState: string)

  const CompletedState := "completed"

  /** A step applies when it requires the current state and lists the flag among its (non-empty) triggers. */
  predicate StepMatches(step: MissionStepData, current: string, flagId: string) {
    step.state == current && |step.triggersOn| > 0 && flagId in step.triggersOn
  }

  /** The position of the first step that applies, if any. */
  function FirstMatchingStep(steps: seq<MissionStepData>, current: string, flagId: string): (r: Option<nat>)
    ensures r.Some? ==> r.value < |steps| && StepMatches(steps[r.value], current, flagId)
    ensures forall j :: 0 <= j < |steps| && (r.None? || j < r.value) ==> !StepMatches(steps[j], current, flagId)
  {
    if steps == [] then None
    else if StepMatches(steps[0], current, flagId) then Some(0)
    else match FirstMatchingStep(steps[1..], current, flagId)
      case None => None
      case Some(j) => Some(j + 1)
  }

  /** The state a mission is taken to be in: its stored state, or its initial state when absent. */
  function CurrentState(m: MissionData, states: map<string, string>): string {
    if m.id in states then states[m.id] else m.initialState
  }

  /** The state a mission reaches when `flagId` is raised. */
  function NewState(m: MissionData, states: map<string, string>, flagId: string): string {
    match FirstMatchingStep(m.steps, CurrentState(m, states), flagId)
    case None => CurrentState(m, states)
    case Some(j) => m.steps[j].setStateTo
  }

  /** The outcome of an advancement: new states, the events fired, and the `changedAny` result. */
  datatype Sweep = Sweep(states: map<string, string>, events: seq<StateChange>, changed: bool)

  /** One mission's turn in the sweep: materialise its state, then apply its first matching step. */
  function AdvanceMission(m: MissionData, states: map<string, string>, flagId: string): Sweep {
    var current := CurrentState(m, states);
    var materialised := if m.id in states then states else states[m.id := current];
    match FirstMatchingStep(m.steps, current, flagId)
    case None => Sweep(materialised, [], false)
    case Some(j) =>
      var target := m.steps[j].setStateTo;
      if target == current then Sweep(materialised, [], true)
      else Sweep(materialised[m.id := target], [StateChange(m.id, Some(current), target)], true)
  }

  /** The sweep over the catalog missions listed in `order`, in that order. */
  function SweepMissions(missions: Index<MissionData>, order: seq<string>, states: map<string, string>, flagId: string): Sweep
    decreases |order|
  {
    if order == [] then Sweep(states, [], false)
    else
      var before := SweepMissions(missions, order[..|order| - 1], states, flagId);
      var k := order[|order| - 1];
      if k !in missions.entries then before
      else
        var r := AdvanceMission(missions.entries[k], before.states, flagId);
        Sweep(r.states, before.events + r.events, before.changed || r.changed)
  }

  /** `TryAdvanceMissionsOnFlag` as a function of the mission map. */
  function Advance(missions: Index<MissionData>, states: map<string, string>, flagId: string): Sweep {
    SweepMissions(missions, missions.order, states, flagId)
  }

  /** Raising each of `flagIds` in turn. */
  function AdvanceEach(missions: Index<MissionData>, states: map<string, string>, flagIds: seq<string>): Sweep
    decreases |flagIds|
  {
    if flagIds == [] then Sweep(states, [], false)
    else
      var before := AdvanceEach(missions, states, flagIds[..|flagIds| - 1]);
      var r := Advance(missions, before.states, flagIds[|flagIds| - 1]);
      Sweep(r.states, before.events + r.events, before.changed || r.changed)
  }

  /** One mission's turn, stated by its new state: the map gains or updates that one entry. */
  lemma AdvanceMissionEffect(m: MissionData, states: map<string, string>, flagId: string)
    ensures var r := AdvanceMission(m, states, flagId);
      && r.states == states[m.id := NewState(m, states, flagId)]
      && (r.changed <==> FirstMatchingStep(m.steps, CurrentState(m, states), flagId).Some?)
      && r.events == if NewState(m, states, flagId) == CurrentState(m, states) then []
                     else [StateChange(m.id, Some(CurrentState(m, states)), NewState(m, states, flagId))]
  {
    if m.id in states {
      assert states[m.id := states[m.id]] == states;
    }
  }

  /** Some mission among `order` has a step that applies to `flagId`. */
  ghost predicate AnyMatch(missions: Index<MissionData>, order: seq<string>, states: map<string, string>, flagId: string)
    requires forall k :: k in order ==> k in missions.entries
  {
    exists k :: k in order &&
      FirstMatchingStep(missions.entries[k].steps, CurrentState(missions.entries[k], states), flagId).Some?
  }

  /** The last mission of a distinct `order` is not among the earlier ones, and is stored under its id. */
  lemma LastOfOrder(missions: Index<MissionData>, order: seq<string>)
    requires Valid(missions, MissionIdOf)
    requires |order| > 0 && Distinct(order) && forall k :: k in order ==> k in missions.entries
    ensures order[|order| - 1] !in order[..|order| - 1]
    ensures missions.entries[order[|order| - 1]].id == order[|order| - 1]
    ensures Distinct(order[..|order| - 1])
    ensures forall x :: x in order <==> x in order[..|order| - 1] || x == order[|order| - 1]
  {
    var n := |order| - 1;
    assert MissionIdOf(missions.entries[order[n]]) == order[n];
    forall i | 0 <= i < n ensures order[..n][i] != order[n] { assert order[i] != order[n]; }
    assert order == order[..n] + [order[n]];
  }

  /**
   * The effect of the sweep on the map: every mission in `order` gets its new
   * state (materialised from its initial state when absent) and every other
   * entry is untouched.
   */
  lemma {:induction false} SweepMissionsStates(missions: Index<MissionData>, order: seq<string>, states: map<string, string>, flagId: string)
    requires Valid(missions, MissionIdOf)
    requires Distinct(order) && forall k :: k in order ==> k in missions.entries
    ensures var r := SweepMissions(missions, order, states, flagId);
      && r.states.Keys == states.Keys + (set k | k in order)
      && (forall k :: k in states && k !in order ==> r.states[k] == states[k])
      && (forall k :: k in order ==> r.states[k] == NewState(missions.entries[k], states, flagId))
  {
    if order != [] {
      var n := |order| - 1;
      var k := order[n];
      LastOfOrder(missions, order);
      SweepMissionsStates(missions, order[..n], states, flagId);
      var before := SweepMissions(missions, order[..n], states, flagId);
      var m := missions.entries[k];
      assert CurrentState(m, before.states) == CurrentState(m, states);
      AdvanceMissionEffect(m, before.states, flagId);
    }
  }

  /** The sweep reports a change exactly when some mission in `order` had a matching step. */
  lemma {:induction false} SweepMissionsChanged(missions: Index<MissionData>, order: seq<string>, states: map<string, string>, flagId: string)
    requires Valid(missions, MissionIdOf)
    requires Distinct(order) && forall k :: k in order ==> k in missions.entries
    ensures SweepMissions(missions, order, states, flagId).changed <==> AnyMatch(missions, order, states, flagId)
  {
    if order != [] {
      var n := |order| - 1;
      var k := order[n];
      LastOfOrder(missions, order);
      SweepMissionsStates(missions, order[..n], states, flagId);
      SweepMissionsChanged(missions, order[..n], states, flagId);
      var before := SweepMissions(missions, order[..n], states, flagId);
      var m := missions.entries[k];
      assert CurrentState(m, before.states) == CurrentState(m, states);
      AdvanceMissionEffect(m, before.states, flagId);
      if AnyMatch(missions, order, states, flagId) && !AnyMatch(missions, order[..n], states, flagId) {
        var x :| x in order &&
          FirstMatchingStep(missions.entries[x].steps, CurrentState(missions.entries[x], states), flagId).Some?;
        assert x == k;
      }
    }
  }

  /** What an event of the sweep says about mission `e.missionId`: its current and its (different) new state. */
  ghost predicate DescribesChange(missions: Index<MissionData>, order: seq<string>, states: map<string, string>, flagId: string, e: StateChange)
    requires forall k :: k in order ==> k in missions.entries
  {
    && e.missionId in order
    && e.oldState == Some(CurrentState(missions.entries[e.missionId], states))
    && e.newState == NewState(missions.entries[e.missionId], states, flagId)
    && e.newState != CurrentState(missions.entries[e.missionId], states)
  }

  /** Every event of the sweep reports a real change of a distinct mission of `order`. */
  lemma {:induction false} SweepMissionsEventsSound(missions: Index<MissionData>, order: seq<string>, states: map<string, string>, flagId: string)
    requires Valid(missions, MissionIdOf)
    requires Distinct(order) && forall k :: k in order ==> k in missions.entries
    ensures var r := SweepMissions(missions, order, states, flagId);
      && (forall i :: 0 <= i < |r.events| ==> DescribesChange(missions, order, states, flagId, r.events[i]))
      && (forall i, j :: 0 <= i < j < |r.events| ==> r.events[i].missionId != r.events[j].missionId)
  {
    if order != [] {
      var n := |order| - 1;
      var k := order[n];
      LastOfOrder(missions, order);
      SweepMissionsStates(missions, order[..n], states, flagId);
      SweepMissionsEventsSound(missions, order[..n], states, flagId);
      var before := SweepMissions(missions, order[..n], states, flagId);
      var m := missions.entries[k];
      assert CurrentState(m, before.states) == CurrentState(m, states);
      AdvanceMissionEffect(m, before.states, flagId);
      var r := SweepMissions(missions, order, states, flagId);
      assert r.events == before.events + AdvanceMission(m, before.states, flagId).events;
      forall i | 0 <= i < |before.events|
        ensures DescribesChange(missions, order, states, flagId, r.events[i])
        ensures r.events[i].missionId != k
      {
        assert DescribesChange(missions, order[..n], states, flagId, before.events[i]);
      }
    }
  }

  /** Some event of `events` is about mission `k`. */
  ghost predicate HasEventFor(events: seq<StateChange>, k: string) {
    exists i :: 0 <= i < |events| && events[i].missionId == k
  }

  /** Raising `flagId` really changes the state of mission `m`. */
  predicate Changes(m: MissionData, states: map<string, string>, flagId: string) {
    NewState(m, states, flagId) != CurrentState(m, states)
  }

  /** Every mission of `order` whose state really changes has its event. */
  lemma {:induction false} SweepMissionsEventsComplete(missions: Index<MissionData>, order: seq<string>, states: map<string, string>, flagId: string)
    requires Valid(missions, MissionIdOf)
    requires Distinct(order) && forall k :: k in order ==> k in missions.entries
    ensures forall k :: k in order && Changes(missions.entries[k], states, flagId) ==>
      HasEventFor(SweepMissions(missions, order, states, flagId).events, k)
  {
    if order != [] {
      var n := |order| - 1;
      var k := order[n];
      LastOfOrder(missions, order);
      SweepMissionsStates(missions, order[..n], states, flagId);
      SweepMissionsEventsComplete(missions, order[..n], states, flagId);
      var before := SweepMissions(missions, order[..n], states, flagId);
      var m := missions.entries[k];
      assert CurrentState(m, before.states) == CurrentState(m, states);
      assert Changes(m, before.states, flagId) == Changes(m, states, flagId);
      AdvanceMissionEffect(m, before.states, flagId);
      var r := SweepMissions(missions, order, states, flagId);
      assert r.events == before.events + AdvanceMission(m, before.states, flagId).events;
      forall x | x in order && Changes(missions.entries[x], states, flagId)
        ensures HasEventFor(r.events, x)
      {
        if x == k {
          assert r.events[|before.events|].missionId == k;
        } else {
          assert x in order[..n];
          assert HasEventFor(before.events, x);
          var i :| 0 <= i < |before.events| && before.events[i].missionId == x;
          assert r.events[i] == before.events[i];
        }
      }
    }
  }

  /**
   * `TryAdvanceMissionsOnFlag` on the whole catalog: each catalog mission ends
   * in its new state, entries outside the catalog are untouched, and the
   * result is true exactly when some mission had a matching step.
   */
  lemma AdvanceStates(missions: Index<MissionData>, states: map<string, string>, flagId: string)
    requires Valid(missions, MissionIdOf)
    ensures var r := Advance(missions, states, flagId);
      && r.states.Keys == states.Keys + missions.entries.Keys
      && (forall k :: k in states && k !in missions.entries ==> r.states[k] == states[k])
      && (forall k :: k in missions.entries ==> r.states[k] == NewState(missions.entries[k], states, flagId))
      && (r.changed <==> exists k :: k in missions.entries &&
                           FirstMatchingStep(missions.entries[k].steps, CurrentState(missions.entries[k], states), flagId).Some?)
  {
    SweepMissionsStates(missions, missions.order, states, flagId);
    SweepMissionsChanged(missions, missions.order, states, flagId);
    assert (set k | k in missions.order) == missions.entries.Keys;
  }

  /**
   * The notifications of `TryAdvanceMissionsOnFlag`: exactly one per catalog
   * mission whose state really changes, carrying its current and new state.
   */
  lemma AdvanceEvents(missions: Index<MissionData>, states: map<string, string>, flagId: string)
    requires Valid(missions, MissionIdOf)
    ensures var r := Advance(missions, states, flagId);
      && (forall i :: 0 <= i < |r.events| ==> DescribesChange(missions, missions.order, states, flagId, r.events[i]))
      && (forall i, j :: 0 <= i < j < |r.events| ==> r.events[i].missionId != r.events[j].missionId)
      && (forall k :: k in missions.entries && Changes(missions.entries[k], states, flagId) ==> HasEventFor(r.events, k))
  {
    SweepMissionsEventsSound(missions, missions.order, states, flagId);
    SweepMissionsEventsComplete(missions, missions.order, states, flagId);
    assert var r := SweepMissions(missions, missions.order, states, flagId);
      && (forall i :: 0 <= i < |r.events| ==> DescribesChange(missions, missions.order, states, flagId, r.events[i]))
      && (forall i, j :: 0 <= i < j < |r.events| ==> r.events[i].missionId != r.events[j].missionId);
  }

  /** A mission that has no step matching its current state and the flag keeps that state. */
  lemma NoMatchKeepsState(missions: Index<MissionData>, states: map<string, string>, flagId: string, k: string)
    requires Valid(missions, MissionIdOf)
    requires k in missions.entries
    requires forall j :: 0 <= j < |missions.entries[k].steps| ==>
      !StepMatches(missions.entries[k].steps[j], CurrentState(missions.entries[k], states), flagId)
    ensures k in Advance(missions, states, flagId).states
    ensures Advance(missions, states, flagId).states[k] == CurrentState(missions.entries[k], states)
  {
    AdvanceStates(missions, states, flagId);
  }

  /** A step whose trigger list is empty never applies. */
  lemma EmptyTriggersNeverMatch(step: MissionStepData, current: string, flagId: string)
    requires step.triggersOn == []
    ensures !StepMatches(step, current, flagId)
  {
  }

  /**
   * A matched step counts as a change even when its target is the current
   * state; then the mission keeps its state and no event is fired for it.
   */
  lemma SelfTargetStepReportsChange(m: MissionData, states: map<string, string>, flagId: string)
    requires FirstMatchingStep(m.steps, CurrentState(m, states), flagId).Some?
    requires m.steps[FirstMatchingStep(m.steps, CurrentState(m, states), flagId).value].setStateTo == CurrentState(m, states)
    ensures var r := AdvanceMission(m, states, flagId);
      r.changed && r.events == [] && m.id in r.states && r.states[m.id] == CurrentState(m, states)
  {
  }

  /**
   * The example of two steps leaving "not_started": raising "f1" and then "f2"
   * ends in "in_progress", because once "f1" has moved the mission the step
   * triggered by "f2" no longer applies.
   */
  lemma FirstMatchWinsExample()
    ensures var m := MissionData("m", "not_started", [
                MissionStepData("not_started", ["f1"], "in_progress"),
                MissionStepData("not_started", ["f2"], "blocked")]);
      var missions := Index(["m"], map["m" := m]);
      var r := AdvanceEach(missions, map[], ["f1", "f2", "f2"]);
      r.states == map["m" := "in_progress"] &&
      r.events == [StateChange("m", Some("not_started"), "in_progress")]
  {
    var m := MissionData("m", "not_started", [
                MissionStepData("not_started", ["f1"], "in_progress"),
                MissionStepData("not_started", ["f2"], "blocked")]);
    var missions := Index(["m"], map["m" := m]);
    assert ["f1", "f2", "f2"][..2] == ["f1", "f2"];
    assert ["f1", "f2"][..1] == ["f1"];
    assert ["f1"][..0] == [];
    assert ["m"][..0] == [];
    assert FirstMatchingStep(m.steps, "not_started", "f1") == Some(0);
    assert FirstMatchingStep(m.steps, "in_progress", "f2") == None;
    var s1 := Advance(missions, map[], "f1");
    assert s1.states == map["m" := "in_progress"];
  }

  class MissionManager {
    const catalog: Catalog
    var states: map<string, string>
    /** Every `OnMissionStateChanged` notification fired, in order. */
    ghost var events: seq<StateChange>
    /** The flag ids `TryAdvanceMissionsOnFlag` was called with, in order. */
    ghost var sweeps: seq<string>

    /** The mission collection of the catalog is consistent (each mission stored under its id). */
    ghost predicate Valid() {
      KeyedIndex.Valid(catalog.missions, MissionIdOf)
    }

    constructor (catalog: Catalog)
      requires KeyedIndex.Valid(catalog.missions, MissionIdOf)
      ensures Valid() && this.catalog == catalog
      ensures states == map[] && events == [] && sweeps == []
    {
      this.catalog := catalog;
      states := map[];
      events := [];
      sweeps := [];
    }

    /** Discards every state and seeds each catalog mission with its initial state. */
    method InitializeForNewProfile()
      requires Valid()
      modifies this`states
      ensures states.Keys == catalog.missions.entries.Keys
      ensures forall k :: k in states ==> states[k] == catalog.missions.entries[k].initialState
    {
      states := map[];
      var order := catalog.missions.order;
      for i := 0 to |order|
        invariant states.Keys == set k | k in order[..i]
        invariant forall k :: k in states ==> k in catalog.missions.entries && states[k] == catalog.missions.entries[k].initialState
      {
        var mission := catalog.missions.entries[order[i]];
        assert order[..i + 1] == order[..i] + [order[i]];
        states := states[mission.id := mission.initialState];
      }
      assert order[..|order|] == order;
    }

    function GetMissionState(missionId: string): (r: Option<string>)
      reads this
      ensures r.Some? <==> missionId in states
      ensures r.Some? ==> r.value == states[missionId]
    {
      if missionId in states then Some(states[missionId]) else None
    }

    function IsMissionInState(missionId: string, stateId: string): (r: bool)
      reads this
      ensures r <==> missionId in states && states[missionId] == stateId
    {
      GetMissionState(missionId) == Some(stateId)
    }

    function IsMissionCompleted(missionId: string): (r: bool)
      reads this
      ensures r <==> missionId in states && states[missionId] == CompletedState
    {
      IsMissionInState(missionId, CompletedState)
    }

    /** Sets a state and notifies, unless the mission is already in that state. */
    method SetMissionState(missionId: string, newState: string)
      modifies this`states, this`events
      ensures if old(GetMissionState(missionId)) == Some(newState) then
          states == old(states) && events == old(events)
        else
          states == old(states)[missionId := newState] &&
          events == old(events) + [StateChange(missionId, old(GetMissionState(missionId)), newState)]
    {
      var oldState := GetMissionState(missionId);
      if oldState == Some(newState) {
        return;
      }
      states := states[missionId := newState];
      events := events + [StateChange(missionId, oldState, newState)];
    }

    /** The inner `foreach` over a step's triggers. */
    static method TriggersContain(triggersOn: seq<string>, flagId: string) returns (found: bool)
      ensures found <==> flagId in triggersOn
    {
      found := false;
      var t := 0;
      while t < |triggersOn|
        invariant 0 <= t <= |triggersOn|
        invariant flagId !in triggersOn[..t]
      {
        if triggersOn[t] == flagId {
          found := true;
          break;
        }
        assert triggersOn[..t + 1] == triggersOn[..t] + [triggersOn[t]];
        t := t + 1;
      }
      assert !found ==> triggersOn[..t] == triggersOn;
    }

    /** The `foreach` over a mission's steps, up to its first match. */
    static method FindMatchingStep(steps: seq<MissionStepData>, currentState: string, flagId: string) returns (r: Option<nat>)
      ensures r == FirstMatchingStep(steps, currentState, flagId)
    {
      r := None;
      var s := 0;
      while s < |steps|
        invariant 0 <= s <= |steps|
        invariant forall j :: 0 <= j < s ==> !StepMatches(steps[j], currentState, flagId)
      {
        var step := steps[s];
        if step.state != currentState {
          s := s + 1;
          continue;
        }
        if |step.triggersOn| == 0 {
          s := s + 1;
          continue;
        }
        var matchesFlag := TriggersContain(step.triggersOn, flagId);
        if !matchesFlag {
          s := s + 1;
          continue;
        }
        r := Some(s);
        break;
      }
    }

    method TryAdvanceMissionsOnFlag(flagId: string) returns (changedAny: bool)
      requires Valid()
      modifies this`states, this`events, this`sweeps
      ensures var r := Advance(catalog.missions, old(states), flagId);
        states == r.states && events == old(events) + r.events && changedAny == r.changed
      ensures sweeps == old(sweeps) + [flagId]
    {
      sweeps := sweeps + [flagId];
      ghost var start := states;
      ghost var events0 := events;
      var order := catalog.missions.order;
      changedAny := false;
      for i := 0 to |order|
        invariant var r := SweepMissions(catalog.missions, order[..i], start, flagId);
          states == r.states && events == events0 + r.events && changedAny == r.changed
        invariant sweeps == old(sweeps) + [flagId]
      {
        assert order[..i + 1][..i] == order[..i];
        assert order[i] in catalog.missions.entries;
        ghost var before := SweepMissions(catalog.missions, order[..i], start, flagId);
        var mission := catalog.missions.entries[order[i]];
        var matched := AdvanceMissionOnFlag(mission, flagId);
        ghost var step := AdvanceMission(mission, before.states, flagId);
        assert SweepMissions(catalog.missions, order[..i + 1], start, flagId)
            == Sweep(step.states, before.events + step.events, before.changed || step.changed);
        assert events == events0 + (before.events + step.events);
        changedAny := changedAny || matched;
      }
      assert order[..|order|] == order;
    }

    /** The body of the sweep for one mission: materialise its state, apply its first matching step. */
    method AdvanceMissionOnFlag(mission: MissionData, flagId: string) returns (matched: bool)
      modifies this`states, this`events
      ensures var r := AdvanceMission(mission, old(states), flagId);
        states == r.states && events == old(events) + r.events && matched == r.changed
    {
      var currentState;
      if mission.id in states {
        currentState := states[mission.id];
      } else {
        currentState := mission.initialState;
        states := states[mission.id := currentState];
      }
      var j := FindMatchingStep(mission.steps, currentState, flagId);
      matched := j.Some?;
      if matched {
        SetMissionState(mission.id, mission.steps[j.value].setStateTo);
      }
    }

    method ExportMissionStates() returns (r: map<string, string>)
      ensures r == states
    {
      r := states;
    }

    /** Clears the map, then copies every entry of `m`. */
    method ImportMissionStates(m: map<string, string>)
      modifies this`states
      ensures states == m
    {
      states := map[];
      var rest := m.Keys;
      while rest != {}
        invariant rest <= m.Keys
        invariant states.Keys == m.Keys - rest
        invariant forall k :: k in states ==> states[k] == m[k]
        decreases rest
      {
        var k :| k in rest;
        states := states[k := m[k]];
        rest := rest - {k};
      }
    }
  }
}
