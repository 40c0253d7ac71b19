/**
 * The linear conversation walker (DialogueManager): a cursor over one
 * conversation's nodes, indexed by node id. Leaving a node raises its flags.
 */
module Dialogue {
  import opened Wrappers
  import opened KeyedIndex
  import opened StaticData
  import opened Missions
  import opened Flags

  /** Every conversation opens at the node with this id. */
  const StartNodeId := "n1"
  /** A `nextId` with this value ends the conversation. */
  const EndMarker := "end"

  /** The node index of a conversation: non-empty ids, a later duplicate replacing an earlier one. */
  function NodeIndex(conv: ConversationData): map<string, ConversationNodeData> {
    IndexByKey(conv.nodes, NodeIdOf).entries
  }

  /** What leaving a node with these flags does to the flag store: each non-empty id, in order, set to true. */
  function RaisedFlags(flags: map<string, bool>, flagIds: seq<string>): map<string, bool>
    decreases |flagIds|
  {
    if flagIds == [] then flags
    else
      var before := RaisedFlags(flags, flagIds[..|flagIds| - 1]);
      var last := flagIds[|flagIds| - 1];
      if last != "" then before[last := true] else before
  }

  /** One turn of the node-flag loop, on the flag side: a non-empty id is set to true, an empty one skipped. */
  lemma RaisedFlagsStep(flags: map<string, bool>, flagIds: seq<string>, i: int)
    requires 0 <= i < |flagIds|
    ensures RaisedFlags(flags, flagIds[..i + 1]) ==
      if flagIds[i] != "" then RaisedFlags(flags, flagIds[..i])[flagIds[i] := true] else RaisedFlags(flags, flagIds[..i])
  {
    assert flagIds[..i + 1][..i] == flagIds[..i];
  }

  /** Leaving a node makes its non-empty flag ids true and leaves every other flag as it was. */
  lemma {:induction false} RaisedFlagsEffect(flags: map<string, bool>, flagIds: seq<string>)
    ensures forall k :: k in RaisedFlags(flags, flagIds) <==> k in flags || (k in flagIds && k != "")
    ensures forall k :: k in flagIds && k != "" ==> RaisedFlags(flags, flagIds)[k]
    ensures forall k :: k in flags && (k !in flagIds || k == "") ==> RaisedFlags(flags, flagIds)[k] == flags[k]
    decreases |flagIds|
  {
    if flagIds != [] {
      var front := flagIds[..|flagIds| - 1];
      RaisedFlagsEffect(flags, front);
      assert flagIds == front + [flagIds[|flagIds| - 1]];
      forall k | k in flags && (k !in flagIds || k == "")
        ensures RaisedFlags(flags, flagIds)[k] == flags[k]
      {
        assert k !in front || k == "";
      }
    }
  }

  /**
   * One turn of the node-flag loop, on the mission side: raising `flagIds[i]`
   * runs one more sweep when the id is not empty, and none when it is.
   */
  lemma RaiseStep(missions: Index<MissionData>, states0: map<string, string>, events0: seq<StateChange>,
                  flagIds: seq<string>, i: int,
                  states: map<string, string>, events: seq<StateChange>,
                  states': map<string, string>, events': seq<StateChange>)
    requires 0 <= i < |flagIds|
    requires states == AdvanceEach(missions, states0, NonEmpty(flagIds[..i])).states
    requires events == events0 + AdvanceEach(missions, states0, NonEmpty(flagIds[..i])).events
    requires flagIds[i] != "" ==>
      states' == Advance(missions, states, flagIds[i]).states &&
      events' == events + Advance(missions, states, flagIds[i]).events
    requires flagIds[i] == "" ==> states' == states && events' == events
    ensures NonEmpty(flagIds[..i + 1]) == NonEmpty(flagIds[..i]) + (if flagIds[i] != "" then [flagIds[i]] else [])
    ensures states' == AdvanceEach(missions, states0, NonEmpty(flagIds[..i + 1])).states
    ensures events' == events0 + AdvanceEach(missions, states0, NonEmpty(flagIds[..i + 1])).events
  {
    var done := NonEmpty(flagIds[..i]);
    assert flagIds[..i + 1][..i] == flagIds[..i];
    if flagIds[i] != "" {
      assert (done + [flagIds[i]])[..|done|] == done;
      assert events0 + AdvanceEach(missions, states0, done).events + Advance(missions, states, flagIds[i]).events
          == events0 + (AdvanceEach(missions, states0, done).events + Advance(missions, states, flagIds[i]).events);
    } else {
      assert done + [] == done;
    }
  }

  /** A next id that ends the conversation instead of naming a node. */
  predicate EndsConversation(nextId: string) {
    nextId == "" || nextId == EndMarker
  }

  class DialogueManager {
    const catalog: Catalog
    const flagsManager: FlagsManager
    var conversation: Option<ConversationData>
    var node: Option<ConversationNodeData>
    var nodesById: Option<map<string, ConversationNodeData>>

    /** Either idle (all three unset) or walking a conversation whose index holds the current node. */
    ghost predicate Valid()
      reads this
    {
      && flagsManager.Valid() && flagsManager.catalog == catalog
      && (conversation.Some? <==> node.Some?)
      && (conversation.Some? <==> nodesById.Some?)
      && (conversation.Some? ==>
            && nodesById.value == NodeIndex(conversation.value)
            && node.value in nodesById.value.Values)
    }

    predicate Idle()
      reads this
    {
      conversation.None? && node.None? && nodesById.None?
    }

    constructor (catalog: Catalog, flagsManager: FlagsManager)
      requires flagsManager.Valid() && flagsManager.catalog == catalog
      ensures Valid() && Idle()
      ensures this.catalog == catalog && this.flagsManager == flagsManager
    {
      this.catalog := catalog;
      this.flagsManager := flagsManager;
      conversation := None;
      node := None;
      nodesById := None;
    }

    /** Active exactly when a conversation is set; the cursor is then a node of its index. */
    predicate IsConversationActive()
      requires Valid()
      reads this
      ensures IsConversationActive() ==> node.Some? && nodesById.Some? && node.value in nodesById.value.Values
      ensures !IsConversationActive() ==> Idle()
    {
      conversation.Some?
    }

    /**
     * Opens the conversation with this id at node "n1". An unknown id leaves
     * the walker as it was; a conversation without "n1" leaves it idle.
     */
    method StartConversation(conversationId: string)
      requires Valid()
      modifies this
      ensures Valid()
      ensures conversationId !in catalog.conversations.entries ==>
        conversation == old(conversation) && node == old(node) && nodesById == old(nodesById)
      ensures conversationId in catalog.conversations.entries ==>
        var conv := catalog.conversations.entries[conversationId];
        if StartNodeId in NodeIndex(conv) then
          conversation == Some(conv) && nodesById == Some(NodeIndex(conv)) &&
          node == Some(NodeIndex(conv)[StartNodeId]) && node.value.id == StartNodeId
        else Idle()
    {
      var found := Lookup(Some(catalog.conversations), conversationId);
      if found.None? {
        return;
      }
      var conv := found.value;
      conversation := Some(conv);
      var index := BuildIndex(conv.nodes, NodeIdOf);
      nodesById := Some(index.entries);
      IndexByKeyValid(conv.nodes, NodeIdOf);
      if StartNodeId !in index.entries {
        conversation := None;
        node := None;
        nodesById := None;
        return;
      }
      node := Some(index.entries[StartNodeId]);
    }

    /** Raises every non-empty flag id of the node, in order. */
    method ApplyFlagsFromNode(n: ConversationNodeData)
      requires flagsManager.Valid() && flagsManager.catalog == catalog
      modifies flagsManager`flags, flagsManager.missions
      ensures flagsManager.flags == RaisedFlags(old(flagsManager.flags), n.flagsOnComplete)
      ensures flagsManager.missions != null ==>
        var missions := flagsManager.missions;
        && missions.states == AdvanceEach(catalog.missions, old(missions.states), NonEmpty(n.flagsOnComplete)).states
        && missions.events == old(missions.events) + AdvanceEach(catalog.missions, old(missions.states), NonEmpty(n.flagsOnComplete)).events
        && missions.sweeps == old(missions.sweeps) + NonEmpty(n.flagsOnComplete)
    {
      var fs := n.flagsOnComplete;
      var store := flagsManager;
      var missions := store.missions;
      for i := 0 to |fs|
        invariant store.flags == RaisedFlags(old(store.flags), fs[..i])
        invariant missions != null ==>
          && missions.states == AdvanceEach(store.catalog.missions, old(missions.states), NonEmpty(fs[..i])).states
          && missions.events == old(missions.events) + AdvanceEach(store.catalog.missions, old(missions.states), NonEmpty(fs[..i])).events
          && missions.sweeps == old(missions.sweeps) + NonEmpty(fs[..i])
      {
        ghost var states := if missions != null then missions.states else map[];
        ghost var events := if missions != null then missions.events else [];
        RaisedFlagsStep(old(store.flags), fs, i);
        if fs[i] != "" {
          store.RaiseFlag(fs[i]);
        }
        if missions != null {
          RaiseStep(store.catalog.missions, old(missions.states), old(missions.events), fs, i,
                    states, events, missions.states, missions.events);
        }
      }
      assert fs[..|fs|] == fs;
    }

    /** Back to idle; ending twice is the same as ending once. */
    method EndConversation()
      requires Valid()
      modifies this
      ensures Valid() && Idle()
    {
      conversation := None;
      node := None;
      nodesById := None;
    }

    /**
     * Leaves the current node: raises its flags, then moves to its next node,
     * or ends the conversation when the next id is empty, "end" or unknown.
     * While idle nothing changes.
     */
    method GoToNextNode()
      requires Valid()
      modifies this, flagsManager`flags, flagsManager.missions
      ensures Valid()
      ensures !old(IsConversationActive()) ==>
        && conversation == old(conversation) && node == old(node) && nodesById == old(nodesById)
        && flagsManager.flags == old(flagsManager.flags)
        && (flagsManager.missions != null ==>
              flagsManager.missions.states == old(flagsManager.missions.states) &&
              flagsManager.missions.events == old(flagsManager.missions.events) &&
              flagsManager.missions.sweeps == old(flagsManager.missions.sweeps))
      ensures old(IsConversationActive()) ==>
        var left := old(node.value);
        && flagsManager.flags == RaisedFlags(old(flagsManager.flags), left.flagsOnComplete)
        && (flagsManager.missions != null ==>
              var missions := flagsManager.missions;
              var r := AdvanceEach(catalog.missions, old(missions.states), NonEmpty(left.flagsOnComplete));
              && missions.states == r.states
              && missions.events == old(missions.events) + r.events
              && missions.sweeps == old(missions.sweeps) + NonEmpty(left.flagsOnComplete))
        && if EndsConversation(left.nextId) || left.nextId !in old(nodesById.value) then Idle()
           else conversation == old(conversation) && nodesById == old(nodesById) &&
                node == Some(old(nodesById.value)[left.nextId])
    {
      if conversation.None? || node.None? {
        return;
      }
      var current := node.value;
      ApplyFlagsFromNode(current);
      var nextId := current.nextId;
      if nextId == "" || nextId == EndMarker {
        EndConversation();
        return;
      }
      if nextId !in nodesById.value {
        EndConversation();
        return;
      }
      node := Some(nodesById.value[nextId]);
    }
  }

  /** The node index of a conversation with nodes "n1" and "n2", in that order. */
  lemma TwoNodeIndex(conv: ConversationData)
    requires |conv.nodes| == 2 && conv.nodes[0].id == "n1" && conv.nodes[1].id == "n2"
    ensures NodeIndex(conv) == map["n1" := conv.nodes[0], "n2" := conv.nodes[1]]
  {
    assert conv.nodes[..1] == [conv.nodes[0]] && [conv.nodes[0]][..0] == [];
    assert IndexByKey([conv.nodes[0]], NodeIdOf) == Index(["n1"], map["n1" := conv.nodes[0]]);
  }

  /**
   * A two-node conversation walked to its end: the first step raises the
   * opening node's flag and moves to "n2", the second raises the closing
   * node's flag and ends the conversation. Both flags are applied, in
   * traversal order, before the walker is idle.
   */
  method WalkTwoNodes(d: DialogueManager, opening: string, closing: string)
    requires d.Valid() && d.Idle() && opening != "" && closing != ""
    requires d.catalog.conversations.entries == map["intro" := ConversationData("intro", [
               ConversationNodeData("n1", "n2", [opening]),
               ConversationNodeData("n2", "end", [closing])])]
    modifies d, d.flagsManager`flags, d.flagsManager.missions
    ensures d.Valid() && d.Idle()
    ensures d.flagsManager.flags == old(d.flagsManager.flags)[opening := true][closing := true]
    ensures d.flagsManager.IsFlagActive(opening) && d.flagsManager.IsFlagActive(closing)
    ensures d.flagsManager.missions != null ==>
              d.flagsManager.missions.sweeps == old(d.flagsManager.missions.sweeps) + [opening, closing]
  {
    var n1 := ConversationNodeData("n1", "n2", [opening]);
    var n2 := ConversationNodeData("n2", "end", [closing]);
    TwoNodeIndex(ConversationData("intro", [n1, n2]));
    assert [opening][..0] == [] && [closing][..0] == [];
    NonEmptySingleton(opening);
    NonEmptySingleton(closing);
    d.StartConversation("intro");
    assert d.node == Some(n1);
    d.GoToNextNode();
    assert d.node == Some(n2);
    d.GoToNextNode();
  }
}
