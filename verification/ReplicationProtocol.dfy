/**
 * Delta gossip between peers as a step relation. A broadcast is three steps, because the sender awaits the
 * gossip layer between exporting a delta and recording that it was sent; anything may happen in between.
 */
module ReplicationProtocol {
  import opened Chunks
  import opened Loro

  datatype Namespace = Skill | Project

  datatype PerNs<T> = PerNs(skill: T, project: T) {
    function At(ns: Namespace): T {
      if ns.Skill? then skill else project
    }

    function With(ns: Namespace, t: T): PerNs<T> {
      if ns.Skill? then PerNs(t, project) else PerNs(skill, t)
    }
  }

  /** A broadcast between export and its outcome; `sentAt` is its place in the log once handed to gossip. */
  datatype Broadcast = Broadcast(ns: Namespace, delta: Doc, version: Doc, sentAt: Option<nat>)

  /** A payload handed to gossip; `acked` once the sender saw the broadcast succeed. */
  datatype Payload = Payload(ns: Namespace, delta: Doc, acked: bool)

  datatype Node = Node(
    docs: PerNs<Doc>,
    last: PerNs<Option<Doc>>,
    stopped: bool,
    inflight: map<nat, Broadcast>,
    log: seq<Payload>)

  // ----- what one node does -----

  function Exported(n: Node, ns: Namespace): Broadcast {
    Broadcast(ns, Export(n.docs.At(ns), n.last.At(ns)), n.docs.At(ns), None)
  }

  function LocalWrite(n: Node, self: nat, ns: Namespace, c: Chunk): Node {
    n.(docs := n.docs.With(ns, Write(n.docs.At(ns), self, c)))
  }

  function StartBroadcast(n: Node, ns: Namespace, b: nat): Node {
    n.(inflight := n.inflight[b := Exported(n, ns)])
  }

  function HandToGossip(n: Node, b: nat): Node
    requires b in n.inflight
  {
    var x := n.inflight[b];
    n.(inflight := n.inflight[b := x.(sentAt := Some(|n.log|))], log := n.log + [Payload(x.ns, x.delta, false)])
  }

  function CommitBroadcast(n: Node, b: nat): Node
    requires b in n.inflight && n.inflight[b].sentAt.Some? && n.inflight[b].sentAt.value < |n.log|
  {
    var x := n.inflight[b];
    n.(last := n.last.With(x.ns, Some(x.version)),
       inflight := n.inflight - {b},
       log := n.log[x.sentAt.value := n.log[x.sentAt.value].(acked := true)])
  }

  function FailBroadcast(n: Node, b: nat): Node {
    n.(inflight := n.inflight - {b})
  }

  function ResetVersions(n: Node): Node {
    n.(last := PerNs(None, None))
  }

  function Receive(n: Node, ns: Namespace, delta: Doc): Node {
    n.(docs := n.docs.With(ns, Import(n.docs.At(ns), delta)))
  }

  function StopNode(n: Node): Node {
    n.(stopped := true)
  }

  // ----- the system -----

  type System = seq<Node>

  datatype Event =
    | Put(n: nat, ns: Namespace, chunk: Chunk)
    | Begin(n: nat, ns: Namespace, b: nat)
    | Send(n: nat, b: nat)
    | Commit(n: nat, b: nat)
    | Fail(n: nat, b: nat)
    | NeighborUp(n: nat)
    | Deliver(n: nat, from: nat, index: nat)
    | Stop(n: nat)

  predicate Enabled(s: System, e: Event) {
    && e.n < |s|
    && match e
       case Begin(n, _, b) => !s[n].stopped && b !in s[n].inflight
       case Send(n, b) => b in s[n].inflight && s[n].inflight[b].sentAt.None?
       case Commit(n, b) => b in s[n].inflight && s[n].inflight[b].sentAt.Some? && s[n].inflight[b].sentAt.value < |s[n].log|
       case Fail(n, b) => b in s[n].inflight
       case NeighborUp(n) => !s[n].stopped
       case Deliver(n, from, index) => !s[n].stopped && from < |s| && from != n && index < |s[from].log|
       case _ => true
  }

  function NodeAfter(s: System, e: Event): Node
    requires Enabled(s, e)
  {
    var n := s[e.n];
    match e
    case Put(_, ns, c) => LocalWrite(n, e.n, ns, c)
    case Begin(_, ns, b) => StartBroadcast(n, ns, b)
    case Send(_, b) => HandToGossip(n, b)
    case Commit(_, b) => CommitBroadcast(n, b)
    case Fail(_, b) => FailBroadcast(n, b)
    case NeighborUp(_) => ResetVersions(n)
    case Deliver(_, from, index) => Receive(n, s[from].log[index].ns, s[from].log[index].delta)
    case Stop(_) => StopNode(n)
  }

  function Apply(s: System, e: Event): System
    requires Enabled(s, e)
  {
    s[e.n := NodeAfter(s, e)]
  }

  /** Every event of the run can happen when its turn comes. */
  predicate Runs(s: System, es: seq<Event>)
    decreases |es|
  {
    es == [] || (Enabled(s, es[0]) && Runs(Apply(s, es[0]), es[1..]))
  }

  function Exec(s: System, es: seq<Event>): (end: System)
    requires Runs(s, es)
    ensures |end| == |s|
    decreases |es|
  {
    if es == [] then s else Exec(Apply(s, es[0]), es[1..])
  }

  lemma RunsOne(s: System, e: Event)
    requires Enabled(s, e)
    ensures Runs(s, [e]) && Exec(s, [e]) == Apply(s, e)
  {
    hide Apply, Enabled;
    var s' := Apply(s, e);
    assert [e][1..] == [];
    assert Runs(s', []) && Exec(s', []) == s';
    assert Runs(s, [e]);
  }

  function NewNode(): Node {
    Node(PerNs(EMPTY, EMPTY), PerNs(None, None), false, map[], [])
  }

  function Init(size: nat): System {
    seq(size, _ => NewNode())
  }

  // ----- the invariant -----

  /** The writes in the successful payloads of a namespace from log position `base` on. */
  ghost function AckedSince(log: seq<Payload>, ns: Namespace, base: nat): set<Op> {
    set i, o | base <= i < |log| && log[i].acked && log[i].ns == ns && o in log[i].delta.ops :: o
  }

  ghost predicate VersionCovered(n: Node, ns: Namespace, base: nat) {
    n.last.At(ns).Some? ==> n.last.At(ns).value.ops <= AckedSince(n.log, ns, base)
  }

  /** What committing `x` will add to the payloads from `base` on. */
  function Contribution(x: Broadcast, base: nat): set<Op> {
    if x.sentAt.None? || x.sentAt.value >= base then x.delta.ops else {}
  }

  ghost predicate Covered(n: Node, ns: Namespace, base: nat) {
    && VersionCovered(n, ns, base)
    && forall b :: b in n.inflight && n.inflight[b].ns == ns ==>
         n.inflight[b].version.ops <= AckedSince(n.log, ns, base) + Contribution(n.inflight[b], base)
  }

  ghost predicate BroadcastShape(n: Node, x: Broadcast) {
    && x.delta.ops <= x.version.ops <= n.docs.At(x.ns).ops
    && (x.sentAt.Some? ==>
          x.sentAt.value < |n.log| && n.log[x.sentAt.value].ns == x.ns && n.log[x.sentAt.value].delta == x.delta)
  }

  ghost predicate Shape(n: Node) {
    && (forall b :: b in n.inflight ==> BroadcastShape(n, n.inflight[b]))
    && (forall i :: 0 <= i < |n.log| ==> n.log[i].delta.ops <= n.docs.At(n.log[i].ns).ops)
    && (forall i :: 0 <= i < |n.log| ==> Wf(n.log[i].delta))
    && (forall b :: b in n.inflight ==> Wf(n.inflight[b].delta))
    && (forall ns :: Wf(n.docs.At(ns)))
  }

  /** A write is held by the node that made it. */
  ghost predicate Kept(s: System, ns: Namespace) {
    forall i, o :: 0 <= i < |s| && o in s[i].docs.At(ns).ops ==> o.peer < |s| && o in s[o.peer].docs.At(ns).ops
  }

  /** A node numbers its own writes apart. */
  ghost predicate Numbered(s: System, ns: Namespace) {
    forall i, a, b :: 0 <= i < |s| && a in s[i].docs.At(ns).ops && b in s[i].docs.At(ns).ops ==>
      (a.peer == i && b.peer == i && a.clock == b.clock ==> a == b)
  }

  ghost predicate Owned(s: System, ns: Namespace) {
    Kept(s, ns) && Numbered(s, ns)
  }

  ghost predicate Inv(s: System) {
    && (forall i :: 0 <= i < |s| ==> Shape(s[i]))
    && (forall i, ns :: 0 <= i < |s| ==> Covered(s[i], ns, 0))
    && (forall ns :: Owned(s, ns))
  }

  ghost predicate Reachable(s: System) {
    exists size, es :: Runs(Init(size), es) && s == Exec(Init(size), es)
  }

  // ----- every step keeps it -----

  lemma AckedGrows(log: seq<Payload>, log': seq<Payload>, ns: Namespace, base: nat)
    requires |log| <= |log'|
    requires forall i :: 0 <= i < |log| ==>
               log'[i].ns == log[i].ns && log'[i].delta == log[i].delta && (log[i].acked ==> log'[i].acked)
    ensures AckedSince(log, ns, base) <= AckedSince(log', ns, base)
  {
  }

  lemma CommitCovers(n: Node, b: nat, ns: Namespace, base: nat)
    requires b in n.inflight && n.inflight[b].sentAt.Some? && Shape(n) && Covered(n, ns, base)
    ensures Covered(CommitBroadcast(n, b), ns, base)
  {
    var x, n' := n.inflight[b], CommitBroadcast(n, b);
    AckedGrows(n.log, n'.log, ns, base);
    assert BroadcastShape(n, x);
    if x.ns == ns {
      forall o | o in x.version.ops ensures o in AckedSince(n'.log, ns, base) {
        if o in Contribution(x, base) {
          assert n'.log[x.sentAt.value].acked;
        }
      }
    }
  }

  lemma SendCovers(n: Node, b: nat, ns: Namespace, base: nat)
    requires b in n.inflight && n.inflight[b].sentAt.None? && Covered(n, ns, base) && base <= |n.log|
    ensures Covered(HandToGossip(n, b), ns, base)
  {
    var n' := HandToGossip(n, b);
    AckedGrows(n.log, n'.log, ns, base);
    assert n'.last == n.last;
  }

  /** Coverage from any log position on survives every step. */
  lemma StepCovers(s: System, e: Event, i: nat, ns: Namespace, base: nat)
    requires Enabled(s, e) && i < |s| && Shape(s[i]) && Covered(s[i], ns, base) && base <= |s[i].log|
    ensures Covered(Apply(s, e)[i], ns, base) && base <= |Apply(s, e)[i].log|
  {
    if e.n == i {
      match e
      case Send(_, b) => SendCovers(s[i], b, ns, base);
      case Commit(_, b) => CommitCovers(s[i], b, ns, base);
      case _ =>
    }
  }

  lemma BeginShape(n: Node, ns: Namespace, b: nat)
    requires Shape(n)
    ensures Shape(StartBroadcast(n, ns, b))
  {
    assert BroadcastShape(StartBroadcast(n, ns, b), Exported(n, ns));
  }

  lemma SendShape(n: Node, b: nat)
    requires Shape(n) && b in n.inflight
    ensures Shape(HandToGossip(n, b))
  {
  }

  lemma CommitShape(n: Node, b: nat)
    requires Shape(n) && b in n.inflight && n.inflight[b].sentAt.Some? && n.inflight[b].sentAt.value < |n.log|
    ensures Shape(CommitBroadcast(n, b))
  {
  }

  lemma StepShape(s: System, e: Event, i: nat)
    requires Enabled(s, e) && i < |s| && forall j :: 0 <= j < |s| ==> Shape(s[j])
    ensures Shape(Apply(s, e)[i])
  {
    if e.n == i {
      var n, n' := s[i], NodeAfter(s, e);
      match e
      case Put(_, _, _) =>
        forall ns ensures Wf(n'.docs.At(ns)) {
          assert Wf(n.docs.At(ns));
        }
      case Begin(_, ns, b) => BeginShape(n, ns, b);
      case Send(_, b) => SendShape(n, b);
      case Commit(_, b) => CommitShape(n, b);
      case Deliver(_, from, index) =>
        assert Shape(s[from]) && Wf(s[from].log[index].delta);
        forall ns ensures Wf(n'.docs.At(ns)) {
          assert Wf(n.docs.At(ns));
        }
      case _ =>
    }
  }

  /** Nothing a node holds is ever taken away. */
  lemma StepGrows(s: System, e: Event, i: nat, ns: Namespace)
    requires Enabled(s, e) && i < |s|
    ensures s[i].docs.At(ns).ops <= Apply(s, e)[i].docs.At(ns).ops
    ensures |s[i].log| <= |Apply(s, e)[i].log|
    ensures forall k :: 0 <= k < |s[i].log| ==> Apply(s, e)[i].log[k].(acked := true) == s[i].log[k].(acked := true)
    ensures forall k :: 0 <= k < |s[i].log| && s[i].log[k].acked ==> Apply(s, e)[i].log[k].acked
  {
  }

  lemma StepOwned(s: System, e: Event, ns: Namespace)
    requires Enabled(s, e) && Inv(s)
    ensures Owned(Apply(s, e), ns)
  {
    assert Owned(s, ns);
    StepKept(s, e, ns);
    StepNumbered(s, e, ns);
  }

  /** The writes a step adds to a document: its own new write, or some of another node's. */
  lemma NewOps(s: System, e: Event, i: nat, ns: Namespace, o: Op)
    requires Enabled(s, e) && Inv(s) && i < |s|
    requires o in Apply(s, e)[i].docs.At(ns).ops && o !in s[i].docs.At(ns).ops
    ensures (o.peer == i && o.clock == s[i].docs.At(ns).clock && e.Put? && o == Op(o.clock, i, e.chunk))
         || exists j :: 0 <= j < |s| && o in s[j].docs.At(ns).ops
  {
    match e
    case Deliver(n, from, index) =>
      assert Shape(s[from]);
    case _ =>
  }

  lemma StepKept(s: System, e: Event, ns: Namespace)
    requires Enabled(s, e) && Inv(s) && Owned(s, ns)
    ensures Kept(Apply(s, e), ns)
  {
    var s' := Apply(s, e);
    forall i, o | 0 <= i < |s'| && o in s'[i].docs.At(ns).ops
      ensures o.peer < |s'| && o in s'[o.peer].docs.At(ns).ops
    {
      if o !in s[i].docs.At(ns).ops {
        NewOps(s, e, i, ns, o);
      }
      StepGrows(s, e, o.peer, ns);
    }
  }

  lemma StepNumbered(s: System, e: Event, ns: Namespace)
    requires Enabled(s, e) && Inv(s) && Owned(s, ns)
    ensures Numbered(Apply(s, e), ns)
  {
    var s' := Apply(s, e);
    forall i, a, b | 0 <= i < |s'| && a in s'[i].docs.At(ns).ops && b in s'[i].docs.At(ns).ops
      ensures a.peer == i && b.peer == i && a.clock == b.clock ==> a == b
    {
      assert Wf(s[i].docs.At(ns)) by { assert Shape(s[i]); }
      if a.peer == i && b.peer == i {
        if a !in s[i].docs.At(ns).ops { NewOps(s, e, i, ns, a); }
        if b !in s[i].docs.At(ns).ops { NewOps(s, e, i, ns, b); }
      }
    }
  }

  lemma StepInv(s: System, e: Event)
    requires Enabled(s, e) && Inv(s)
    ensures Inv(Apply(s, e))
  {
    forall i | 0 <= i < |s| ensures Shape(Apply(s, e)[i]) {
      StepShape(s, e, i);
    }
    forall i, ns | 0 <= i < |s| ensures Covered(Apply(s, e)[i], ns, 0) {
      StepCovers(s, e, i, ns, 0);
    }
    forall ns ensures Owned(Apply(s, e), ns) {
      StepOwned(s, e, ns);
    }
  }

  lemma {:induction false} RunInv(s: System, es: seq<Event>)
    requires Inv(s) && Runs(s, es)
    ensures Inv(Exec(s, es))
    decreases |es|
  {
    if es != [] {
      StepInv(s, es[0]);
      RunInv(Apply(s, es[0]), es[1..]);
    }
  }

  lemma {:induction false} RunGrows(s: System, es: seq<Event>, i: nat, ns: Namespace)
    requires Runs(s, es) && i < |s|
    ensures s[i].docs.At(ns).ops <= Exec(s, es)[i].docs.At(ns).ops
    decreases |es|
  {
    if es != [] {
      StepGrows(s, es[0], i, ns);
      RunGrows(Apply(s, es[0]), es[1..], i, ns);
    }
  }

  lemma {:induction false} RunCovers(s: System, es: seq<Event>, i: nat, ns: Namespace, base: nat)
    requires Inv(s) && Runs(s, es) && i < |s| && Covered(s[i], ns, base) && base <= |s[i].log|
    ensures Covered(Exec(s, es)[i], ns, base)
    decreases |es|
  {
    if es != [] {
      StepInv(s, es[0]);
      StepCovers(s, es[0], i, ns, base);
      RunCovers(Apply(s, es[0]), es[1..], i, ns, base);
    }
  }

  lemma InitInv(size: nat)
    ensures Inv(Init(size))
  {
  }

  lemma ReachableInv(s: System)
    requires Reachable(s)
    ensures Inv(s)
  {
    hide Runs, Exec, Inv;
    var size, es :| Runs(Init(size), es) && s == Exec(Init(size), es);
    InitInv(size);
    RunInv(Init(size), es);
  }

  // ----- safety -----

  /**
   * Whatever failed, overlapped or arrived out of order: the version a node counts as sent
   * is made of writes that its own successful payloads carried, and that it still holds.
   */
  lemma SyncedVersionIsGossiped(s: System, i: nat, ns: Namespace)
    requires Reachable(s) && i < |s| && s[i].last.At(ns).Some?
    ensures s[i].last.At(ns).value.ops <= AckedSince(s[i].log, ns, 0) <= s[i].docs.At(ns).ops
  {
    ReachableInv(s);
    assert Covered(s[i], ns, 0) && Shape(s[i]);
  }

  /** So a delta never leaves a gap: with the payloads that succeeded before, it makes up the whole document. */
  lemma NextDeltaHasNoGap(s: System, i: nat, ns: Namespace)
    requires Reachable(s) && i < |s|
    ensures AckedSince(s[i].log, ns, 0) + Exported(s[i], ns).delta.ops == s[i].docs.At(ns).ops
  {
    ReachableInv(s);
    assert Covered(s[i], ns, 0) && Shape(s[i]);
  }

  /** The premise under which stores import: writes are identified by clock and peer, across all nodes. */
  lemma WritesAreIdentified(s: System, i: nat, j: nat, ns: Namespace)
    requires Reachable(s) && i < |s| && j < |s|
    ensures Coherent(s[i].docs.At(ns).ops + s[j].docs.At(ns).ops)
  {
    ReachableInv(s);
    assert Owned(s, ns);
    forall a, b | a in s[i].docs.At(ns).ops + s[j].docs.At(ns).ops && b in s[i].docs.At(ns).ops + s[j].docs.At(ns).ops
      ensures a.clock == b.clock && a.peer == b.peer ==> a == b
    {
      assert a in s[a.peer].docs.At(ns).ops && b in s[b.peer].docs.At(ns).ops;
    }
  }

  // ----- convergence -----

  ghost predicate AllDelivered(s: System) {
    forall i, j, k :: 0 <= i < |s| && 0 <= j < |s| && i != j && 0 <= k < |s[i].log| && s[i].log[k].acked ==>
      s[i].log[k].delta.ops <= s[j].docs.At(s[i].log[k].ns).ops
  }

  /** Every node counts its whole document as sent. */
  ghost predicate AllSynced(s: System) {
    forall i, ns :: 0 <= i < |s| ==> s[i].last.At(ns).Some? && s[i].last.At(ns).value.ops == s[i].docs.At(ns).ops
  }

  lemma SyncedNodeIsContained(s: System, i: nat, j: nat, ns: Namespace)
    requires Inv(s) && AllDelivered(s) && AllSynced(s) && i < |s| && j < |s|
    ensures s[i].docs.At(ns).ops <= s[j].docs.At(ns).ops
  {
    assert Covered(s[i], ns, 0);
    if i != j {
      forall o | o in s[i].docs.At(ns).ops ensures o in s[j].docs.At(ns).ops {
        assert o in AckedSince(s[i].log, ns, 0);
      }
    }
  }

  /** Eventual consistency: synced and delivered nodes hold the same writes and answer every read alike. */
  lemma Convergence(s: System, i: nat, j: nat, ns: Namespace, id: string)
    requires Reachable(s) && AllDelivered(s) && AllSynced(s) && i < |s| && j < |s|
    ensures s[i].docs.At(ns).ops == s[j].docs.At(ns).ops
    ensures Get(s[i].docs.At(ns).ops, id) == Get(s[j].docs.At(ns).ops, id)
  {
    ReachableInv(s);
    SyncedNodeIsContained(s, i, j, ns);
    SyncedNodeIsContained(s, j, i, ns);
  }

  /** The system after node `i` forgets `id`. */
  function Forgotten(s: System, i: nat, ns: Namespace, id: string, now: int): System
    requires i < |s|
  {
    Apply(s, Put(i, ns, Tombstone(id, now)))
  }

  /**
   * A deletion wins everywhere: if node `i` forgets an id having seen every live write of it that there will be
   * (ids are never written twice), then after any run that ends converged the id reads as absent on every node.
   */
  lemma ForgetReachesEveryone(s: System, i: nat, ns: Namespace, id: string, now: int, es: seq<Event>, j: nat)
    requires Reachable(s) && i < |s| && j < |s|
    requires Runs(Forgotten(s, i, ns, id, now), es)
    requires
      var end := Exec(Forgotten(s, i, ns, id, now), es);
      && AllDelivered(end) && AllSynced(end)
      && forall o :: o in end[j].docs.At(ns).ops && o.chunk.id == id && !o.chunk.tombstone ==> o in s[i].docs.At(ns).ops
    ensures Get(Exec(Forgotten(s, i, ns, id, now), es)[j].docs.At(ns).ops, id) == None
  {
    ReachableInv(s);
    var s1 := Forgotten(s, i, ns, id, now);
    var end := Exec(s1, es);
    StepInv(s, Put(i, ns, Tombstone(id, now)));
    RunInv(s1, es);
    RunGrows(s1, es, i, ns);
    SyncedNodeIsContained(end, i, j, ns);
    assert Shape(s[i]);
    TombstoneWins(end[j].docs.At(ns).ops, Op(s[i].docs.At(ns).clock, i, Tombstone(id, now)));
  }

  // ----- late joiners -----

  /**
   * No broadcast that straddles the reset can spoil it: one already handed to gossip carries no version,
   * one not yet handed over carries its whole version.
   */
  ghost predicate NothingPartialInFlight(n: Node, ns: Namespace) {
    forall b :: b in n.inflight && n.inflight[b].ns == ns ==>
      n.inflight[b].version.ops <= Contribution(n.inflight[b], |n.log|)
  }

  /** In every run after the reset, what node `i` counts as sent was sent since the reset. */
  ghost predicate ResetHolds(s: System, i: nat, ns: Namespace)
    requires i < |s| && !s[i].stopped
  {
    forall es :: Runs(Apply(s, NeighborUp(i)), es) ==>
      VersionCovered(Exec(Apply(s, NeighborUp(i)), es)[i], ns, |s[i].log|)
  }

  lemma NoAckedPast(log: seq<Payload>, ns: Namespace, base: nat)
    requires base >= |log|
    ensures AckedSince(log, ns, base) == {}
  {
  }

  /** A reset serves late joiners exactly when no broadcast of the namespace straddles it. */
  lemma ResetHoldsIff(s: System, i: nat, ns: Namespace)
    requires Reachable(s) && i < |s| && !s[i].stopped
    ensures ResetHolds(s, i, ns) <==> NothingPartialInFlight(s[i], ns)
  {
    ReachableInv(s);
    var s1, base := Apply(s, NeighborUp(i)), |s[i].log|;
    StepInv(s, NeighborUp(i));
    NoAckedPast(s1[i].log, ns, base);
    if NothingPartialInFlight(s[i], ns) {
      assert Covered(s1[i], ns, base);
      forall es | Runs(s1, es) ensures VersionCovered(Exec(s1, es)[i], ns, base) {
        RunCovers(s1, es, i, ns, base);
      }
    } else {
      var b :| b in s[i].inflight && s[i].inflight[b].ns == ns
               && !(s[i].inflight[b].version.ops <= Contribution(s[i].inflight[b], base));
      StraddlingBroadcastSpoils(s, i, ns, b);
    }
  }

  /** The reset is overwritten by a commit of a version that the payloads since then do not carry. */
  lemma StraddlingBroadcastSpoils(s: System, i: nat, ns: Namespace, b: nat)
    requires Inv(s) && i < |s| && !s[i].stopped && b in s[i].inflight && s[i].inflight[b].ns == ns
    requires !(s[i].inflight[b].version.ops <= Contribution(s[i].inflight[b], |s[i].log|))
    ensures !ResetHolds(s, i, ns)
  {
    var s1, x, base := Apply(s, NeighborUp(i)), s[i].inflight[b], |s[i].log|;
    assert Shape(s[i]) && BroadcastShape(s[i], x);
    var es, s2 := [], s1;
    if x.sentAt.None? {
      es, s2 := [Send(i, b)], Apply(s1, Send(i, b));
      assert s2[i].inflight[b].sentAt == Some(base);
    }
    var s3 := Apply(s2, Commit(i, b));
    RunsOne(s2, Commit(i, b));
    assert Runs(s1, es + [Commit(i, b)]) && Exec(s1, es + [Commit(i, b)]) == s3 by {
      if es != [] {
        assert (es + [Commit(i, b)])[1..] == [Commit(i, b)];
      } else {
        assert es + [Commit(i, b)] == [Commit(i, b)];
      }
    }
    assert s3[i].last.At(ns) == Some(x.version);
    forall o | o in AckedSince(s3[i].log, ns, base) ensures o in Contribution(x, base) {
    }
    assert !VersionCovered(s3[i], ns, base);
  }

  /** No payload of the namespace has succeeded since `base`. */
  ghost predicate NoneAcked(log: seq<Payload>, ns: Namespace, base: nat) {
    forall k :: base <= k < |log| && log[k].ns == ns ==> !log[k].acked
  }

  /** Until a payload succeeds, every broadcast under way carries the whole document and at least `seen`. */
  ghost predicate WholeUntilAcked(n: Node, ns: Namespace, base: nat, seen: set<Op>) {
    && base <= |n.log|
    && seen <= n.docs.At(ns).ops
    && (NoneAcked(n.log, ns, base) ==>
          && n.last.At(ns).None?
          && forall b :: b in n.inflight && n.inflight[b].ns == ns ==>
               && seen <= n.inflight[b].delta.ops == n.inflight[b].version.ops
               && (n.inflight[b].sentAt.Some? ==> n.inflight[b].sentAt.value >= base))
  }

  lemma StepWhole(s: System, e: Event, i: nat, ns: Namespace, base: nat, seen: set<Op>)
    requires Enabled(s, e) && i < |s| && Shape(s[i]) && WholeUntilAcked(s[i], ns, base, seen)
    ensures WholeUntilAcked(Apply(s, e)[i], ns, base, seen)
  {
    StepGrows(s, e, i, ns);
    if e.n == i && NoneAcked(Apply(s, e)[i].log, ns, base) {
      var n, n' := s[i], NodeAfter(s, e);
      forall k | base <= k < |n.log| && n.log[k].ns == ns ensures !n.log[k].acked {
        assert n'.log[k].(acked := true) == n.log[k].(acked := true);
      }
      if e.Commit? {
        assert BroadcastShape(n, n.inflight[e.b]);
        assert n'.log[n.inflight[e.b].sentAt.value].acked;
      }
    }
  }

  lemma {:induction false} RunWhole(s: System, es: seq<Event>, i: nat, ns: Namespace, base: nat, seen: set<Op>)
    requires Inv(s) && Runs(s, es) && i < |s| && WholeUntilAcked(s[i], ns, base, seen)
    ensures WholeUntilAcked(Exec(s, es)[i], ns, base, seen)
    decreases |es|
  {
    if es != [] {
      StepInv(s, es[0]);
      StepWhole(s, es[0], i, ns, base, seen);
      RunWhole(Apply(s, es[0]), es[1..], i, ns, base, seen);
    }
  }

  ghost predicate NoBroadcast(n: Node, ns: Namespace) {
    forall b :: b in n.inflight ==> n.inflight[b].ns != ns
  }

  /**
   * After a reset with no broadcast of the namespace under way, the first payload that succeeds
   * is a whole document, at least the one the node held at the reset.
   */
  lemma FirstPayloadIsWhole(s: System, i: nat, ns: Namespace, es: seq<Event>, b: nat)
    requires Reachable(s) && i < |s| && !s[i].stopped && NoBroadcast(s[i], ns)
    requires Runs(Apply(s, NeighborUp(i)), es)
    requires
      var end := Exec(Apply(s, NeighborUp(i)), es);
      Enabled(end, Commit(i, b)) && end[i].inflight[b].ns == ns && NoneAcked(end[i].log, ns, |s[i].log|)
    ensures
      var x := Exec(Apply(s, NeighborUp(i)), es)[i].inflight[b];
      s[i].docs.At(ns).ops <= x.delta.ops == x.version.ops
  {
    ReachableInv(s);
    var s1 := Apply(s, NeighborUp(i));
    StepInv(s, NeighborUp(i));
    assert WholeUntilAcked(s1[i], ns, |s[i].log|, s[i].docs.At(ns).ops);
    RunWhole(s1, es, i, ns, |s[i].log|, s[i].docs.At(ns).ops);
  }

  /** A peer that joined at such a reset and got only the payloads since then still reaches the full state. */
  lemma LateJoinerCatchesUp(s: System, i: nat, ns: Namespace, es: seq<Event>, joiner: Doc)
    requires Reachable(s) && i < |s| && !s[i].stopped && NoBroadcast(s[i], ns)
    requires Runs(Apply(s, NeighborUp(i)), es)
    requires
      var n := Exec(Apply(s, NeighborUp(i)), es)[i];
      && n.last.At(ns).Some? && n.last.At(ns).value.ops == n.docs.At(ns).ops
      && AckedSince(n.log, ns, |s[i].log|) <= joiner.ops
    ensures Exec(Apply(s, NeighborUp(i)), es)[i].docs.At(ns).ops <= joiner.ops
  {
    ResetHoldsIff(s, i, ns);
  }
}
