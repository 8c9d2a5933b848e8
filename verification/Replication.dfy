/** The replication manager of one node, method by method a step of the protocol. */
module Replication {
  import opened Chunks
  import opened Loro
  import opened LoroStore
  import opened ReplicationProtocol

  /** What arrives from gossip, after decoding. */
  datatype Body = Unreadable | OtherEnvelope | DeltaEnvelope(namespace: string, delta: Option<Doc>, fromNode: nat)

  datatype Message = Message(topicHex: string, body: Body)

  function NamespaceOf(name: string): Option<Namespace> {
    if name == "skill" then Some(Skill) else if name == "project" then Some(Project) else None
  }

  /** What the sender writes for a namespace. */
  function NameOf(ns: Namespace): string {
    match ns
    case Skill => "skill"
    case Project => "project"
  }

  class ReplicationManager {
    const skill: LoroMemoryStore
    const project: LoroMemoryStore
    const gossipTopicHex: string
    const localNodeId: nat

    var lastSyncVersion: PerNs<Option<Doc>>
    var pendingBroadcast: PerNs<bool>
    var listening: bool
    var stopped: bool

    /** The calls of broadcastDelta that are waiting for gossip, and what was handed over so far. */
    var waiting: map<nat, Broadcast>
    var nextCall: nat
    var log: seq<Payload>

    ghost predicate Valid()
      reads this, skill, project
    {
      && skill != project && skill.Valid() && project.Valid()
      && (forall b :: b in waiting ==> b < nextCall)
      && (stopped ==> pendingBroadcast == PerNs(false, false))
    }

    /** This manager as a node of the protocol. */
    ghost function AsNode(): Node
      reads this, skill, project
    {
      Node(PerNs(skill.doc, project.doc), lastSyncVersion, stopped, waiting, log)
    }

    constructor (skill: LoroMemoryStore, project: LoroMemoryStore, gossipTopicHex: string, localNodeId: nat)
      requires skill != project && skill.Valid() && project.Valid()
      ensures Valid() && this.skill == skill && this.project == project
      ensures this.gossipTopicHex == gossipTopicHex && this.localNodeId == localNodeId
      ensures AsNode() == Node(PerNs(skill.doc, project.doc), PerNs(None, None), false, map[], [])
      ensures skill.doc == EMPTY && project.doc == EMPTY ==> AsNode() == NewNode()
      ensures pendingBroadcast == PerNs(false, false) && !listening
    {
      this.skill, this.project := skill, project;
      this.gossipTopicHex, this.localNodeId := gossipTopicHex, localNodeId;
      lastSyncVersion, pendingBroadcast := PerNs(None, None), PerNs(false, false);
      listening, stopped, waiting, nextCall := false, false, map[], 0;
      log := [];
    }

    method Start()
      requires Valid()
      modifies this`listening
      ensures Valid() && listening && AsNode() == old(AsNode())
    {
      listening := true;
    }

    method ResetSyncVersion()
      requires Valid()
      modifies this`lastSyncVersion
      ensures Valid() && AsNode() == ResetVersions(old(AsNode()))
    {
      lastSyncVersion := PerNs(None, None);
    }

    method OnNeighborUp(topicHex: string)
      requires Valid()
      modifies this`lastSyncVersion
      ensures Valid()
      ensures AsNode() == if listening && topicHex == gossipTopicHex then ResetVersions(old(AsNode())) else old(AsNode())
    {
      if listening && topicHex == gossipTopicHex {
        ResetSyncVersion();
      }
    }

    method Stop()
      requires Valid()
      modifies this
      ensures Valid() && !listening && AsNode() == StopNode(old(AsNode()))
    {
      stopped, listening, pendingBroadcast := true, false, PerNs(false, false);
    }

    /** A local change arms the debounce timer; while it is armed, further changes ride on it. */
    method ScheduleBroadcast(ns: Namespace)
      requires Valid()
      modifies this`pendingBroadcast
      ensures Valid() && AsNode() == old(AsNode())
      ensures pendingBroadcast == if stopped then old(pendingBroadcast) else old(pendingBroadcast).With(ns, true)
    {
      if stopped || pendingBroadcast.At(ns) {
        return;
      }
      pendingBroadcast := pendingBroadcast.With(ns, true);
    }

    method DebounceElapsed(ns: Namespace) returns (call: Option<nat>)
      requires Valid() && pendingBroadcast.At(ns)
      modifies this
      ensures Valid() && !pendingBroadcast.At(ns)
      ensures call.Some? && call.value !in old(waiting) && AsNode() == StartBroadcast(old(AsNode()), ns, call.value)
    {
      pendingBroadcast := pendingBroadcast.With(ns, false);
      call := BroadcastDelta(ns);
    }

    /** broadcastDelta up to its await. */
    method BroadcastDelta(ns: Namespace) returns (call: Option<nat>)
      requires Valid()
      modifies this`waiting, this`nextCall
      ensures Valid() && call.Some? == !stopped
      ensures call.None? ==> AsNode() == old(AsNode())
      ensures call.Some? ==> call.value !in old(waiting) && AsNode() == StartBroadcast(old(AsNode()), ns, call.value)
      ensures call.Some? ==> call.value in waiting && waiting[call.value].ns == ns
      ensures call.Some? && ns == Skill ==> waiting[call.value].version == skill.doc
      ensures call.Some? && ns == Project ==> waiting[call.value].version == project.doc
    {
      if stopped {
        return None;
      }
      var store := if ns.Skill? then skill else project;
      var delta := store.ExportDelta(lastSyncVersion.At(ns));
      DeltaUnique(store.doc, lastSyncVersion.At(ns), delta);
      var version := store.GetVersionSnapshot();
      call := Some(nextCall);
      waiting := waiting[nextCall := Broadcast(ns, delta, version, None)];
      nextCall := nextCall + 1;
    }

    /** The message names the namespace of the broadcast and carries its delta under this node's id and topic. */
    method HandedToGossip(call: nat) returns (msg: Message)
      requires Valid() && call in waiting && waiting[call].sentAt.None?
      modifies this`waiting, this`log
      ensures Valid() && AsNode() == HandToGossip(old(AsNode()), call)
      ensures msg.topicHex == gossipTopicHex && msg.body.DeltaEnvelope? && msg.body.fromNode == localNodeId
      ensures msg.body.namespace == (if old(waiting)[call].ns == Skill then "skill" else "project")
      ensures msg.body.delta == Some(old(waiting)[call].delta)
    {
      var x := waiting[call];
      waiting := waiting[call := x.(sentAt := Some(|log|))];
      log := log + [Payload(x.ns, x.delta, false)];
      msg := Message(gossipTopicHex, DeltaEnvelope(NameOf(x.ns), Some(x.delta), localNodeId));
    }

    /** broadcastDelta after its await: only now does the version advance. */
    method BroadcastSucceeded(call: nat)
      requires Valid() && call in waiting && waiting[call].sentAt.Some? && waiting[call].sentAt.value < |log|
      modifies this`waiting, this`log, this`lastSyncVersion
      ensures Valid() && AsNode() == CommitBroadcast(old(AsNode()), call)
    {
      var x := waiting[call];
      lastSyncVersion := lastSyncVersion.With(x.ns, Some(x.version));
      waiting := waiting - {call};
      log := log[x.sentAt.value := log[x.sentAt.value].(acked := true)];
    }

    method BroadcastFailed(call: nat)
      requires Valid()
      modifies this`waiting
      ensures Valid() && AsNode() == FailBroadcast(old(AsNode()), call)
    {
      waiting := waiting - {call};
    }

    /** Whether a message is a delta for this node: right topic, right type, known namespace, not its own. */
    predicate Accepts(msg: Message)
      reads this
    {
      && listening && msg.topicHex == gossipTopicHex
      && msg.body.DeltaEnvelope? && msg.body.fromNode != localNodeId
      && NamespaceOf(msg.body.namespace).Some? && msg.body.delta.Some?
    }

    method OnGossipMessage(msg: Message)
      requires Valid()
      modifies skill, project
      ensures (Accepts(msg) ==> Wf(msg.body.delta.value)
                                && Coherent(AsNode().docs.At(NamespaceOf(msg.body.namespace).value).ops)) ==> Valid()
      ensures AsNode() == if Accepts(msg)
                          then Receive(old(AsNode()), NamespaceOf(msg.body.namespace).value, msg.body.delta.value)
                          else old(AsNode())
      ensures
        var taken := listening && msg.topicHex == gossipTopicHex && msg.body.DeltaEnvelope?
                     && msg.body.fromNode != localNodeId && msg.body.delta.Some?;
        && (taken && msg.body.namespace == "skill" ==>
              skill.doc.ops == old(skill.doc.ops) + msg.body.delta.value.ops && project.doc == old(project.doc))
        && (taken && msg.body.namespace == "project" ==>
              project.doc.ops == old(project.doc.ops) + msg.body.delta.value.ops && skill.doc == old(skill.doc))
        && (!taken || msg.body.namespace !in {"skill", "project"} ==>
              skill.doc == old(skill.doc) && project.doc == old(project.doc))
    {
      if !listening || msg.topicHex != gossipTopicHex {
        return;
      }
      if !msg.body.DeltaEnvelope? || msg.body.fromNode == localNodeId {
        return;
      }
      var ns := NamespaceOf(msg.body.namespace);
      if ns.None? {
        return;
      }
      var store := if ns.value.Skill? then skill else project;
      var _ := store.ImportDelta(msg.body.delta);
    }
  }

  /** From one node to another: what a broadcast carries arrives in the document of its own namespace, and in no other. */
  method Deliver(sender: ReplicationManager, call: nat, receiver: ReplicationManager)
    requires sender.Valid() && call in sender.waiting && sender.waiting[call].sentAt.None?
    requires receiver.Valid() && receiver != sender && receiver.listening
    requires receiver.gossipTopicHex == sender.gossipTopicHex && receiver.localNodeId != sender.localNodeId
    requires {sender.skill, sender.project} !! {receiver.skill, receiver.project}
    modifies sender`waiting, sender`log, receiver.skill, receiver.project
    ensures
      var x := old(sender.waiting)[call];
      if x.ns == Skill
      then receiver.skill.doc.ops == old(receiver.skill.doc.ops) + x.delta.ops && receiver.project.doc == old(receiver.project.doc)
      else receiver.project.doc.ops == old(receiver.project.doc.ops) + x.delta.ops && receiver.skill.doc == old(receiver.skill.doc)
  {
    hide LoroMemoryStore.Valid, HandToGossip, Receive;
    var msg := sender.HandedToGossip(call);
    receiver.OnGossipMessage(msg);
  }
}
