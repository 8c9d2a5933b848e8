/** Agreement is always within reach: from every state of a running system some schedule makes all nodes converge. */
module Convergence {
  import opened Chunks
  import opened Loro
  import opened ReplicationProtocol

  ghost predicate CanReach(s: System, s': System) {
    exists es :: Runs(s, es) && Exec(s, es) == s'
  }

  lemma {:induction false} RunsOn(s: System, es: seq<Event>, fs: seq<Event>)
    requires Runs(s, es) && Runs(Exec(s, es), fs)
    ensures Runs(s, es + fs) && Exec(s, es + fs) == Exec(Exec(s, es), fs)
    decreases |es|
  {
    if es == [] {
      assert es + fs == fs;
    } else {
      RunsOn(Apply(s, es[0]), es[1..], fs);
      assert (es + fs)[1..] == es[1..] + fs;
    }
  }

  lemma ReachOn(s: System, s1: System, s2: System)
    requires CanReach(s, s1) && CanReach(s1, s2)
    ensures CanReach(s, s2)
  {
    hide Runs, Exec;
    var es :| Runs(s, es) && Exec(s, es) == s1;
    var fs :| Runs(s1, fs) && Exec(s1, fs) == s2;
    RunsOn(s, es, fs);
  }

  lemma ReachSelf(s: System)
    ensures CanReach(s, s)
  {
    assert Runs(s, []) && Exec(s, []) == s;
  }

  lemma ReachStep(s: System, e: Event)
    requires Enabled(s, e)
    ensures CanReach(s, Apply(s, e))
  {
    RunsOne(s, e);
  }

  ghost predicate Running(s: System) {
    forall i :: 0 <= i < |s| ==> !s[i].stopped
  }

  function Ops(s: System, i: nat, ns: Namespace): set<Op>
    requires i < |s|
  {
    s[i].docs.At(ns).ops
  }

  lemma Unused(n: Node) returns (b: nat)
    ensures b !in n.inflight
  {
    b := 0;
    var left := n.inflight.Keys;
    while b in n.inflight
      invariant left <= n.inflight.Keys
      invariant forall k: nat :: k in n.inflight && k >= b ==> k in left
      decreases left
    {
      left := left - {b};
      b := b + 1;
    }
  }

  // ----- one node to another -----

  /** Everybody's documents but those of node `j` in `ns` are as before. */
  ghost predicate OnlyGrew(s: System, s': System, j: nat, ns: Namespace) {
    && |s'| == |s|
    && Running(s')
    && forall i, m :: 0 <= i < |s| && (i != j || m != ns) ==> Ops(s', i, m) == Ops(s, i, m)
  }

  /** A reset and a broadcast up to its hand-over: the whole document is on its way. */
  lemma SendWhole(s: System, i: nat, ns: Namespace) returns (s': System, k: nat)
    requires Running(s) && i < |s|
    ensures CanReach(s, s') && |s'| == |s| && Running(s')
    ensures forall j :: 0 <= j < |s| ==> s'[j].docs == s[j].docs
    ensures k < |s'[i].log| && s'[i].log[k].ns == ns && s'[i].log[k].delta.ops == Ops(s, i, ns)
  {
    var s1 := Apply(s, NeighborUp(i));
    var b := Unused(s1[i]);
    var s2 := Apply(s1, Begin(i, ns, b));
    s', k := Apply(s2, Send(i, b)), |s[i].log|;
    hide Apply, CanReach;
    ReachStep(s, NeighborUp(i));
    ReachStep(s1, Begin(i, ns, b));
    ReachStep(s2, Send(i, b));
    ReachOn(s, s1, s2);
    ReachOn(s, s2, s');
  }

  /** With the delivery, `j` ends with everything `i` has. */
  lemma Transfer(s: System, i: nat, j: nat, ns: Namespace) returns (s': System)
    requires Running(s) && i < |s| && j < |s| && i != j
    ensures CanReach(s, s') && OnlyGrew(s, s', j, ns)
    ensures Ops(s', j, ns) == Ops(s, j, ns) + Ops(s, i, ns)
  {
    hide CanReach;
    var s1, k := SendWhole(s, i, ns);
    s' := Apply(s1, Deliver(j, i, k));
    ReachStep(s1, Deliver(j, i, k));
    ReachOn(s, s1, s');
  }

  /** All writes of the first `n` nodes. */
  ghost function Union(s: System, n: nat, ns: Namespace): set<Op>
    requires n <= |s|
  {
    set i, o | 0 <= i < n && o in Ops(s, i, ns) :: o
  }

  /** Node 0 collects from nodes 1 to `n`-1. */
  lemma {:induction false} Collect(s: System, n: nat, ns: Namespace) returns (s': System)
    requires Running(s) && 0 < n <= |s|
    ensures CanReach(s, s') && OnlyGrew(s, s', 0, ns)
    ensures Ops(s', 0, ns) == Union(s, n, ns)
  {
    if n == 1 {
      ReachSelf(s);
      s' := s;
    } else {
      var s1 := Collect(s, n - 1, ns);
      s' := Transfer(s1, n - 1, 0, ns);
      ReachOn(s, s1, s');
      assert Union(s, n, ns) == Union(s, n - 1, ns) + Ops(s, n - 1, ns);
    }
  }

  /** Node 0 hands what it has to nodes 1 to `n`-1. */
  lemma {:induction false} Spread(s: System, n: nat, ns: Namespace) returns (s': System)
    requires Running(s) && 0 < n <= |s|
    ensures CanReach(s, s') && |s'| == |s| && Running(s')
    ensures forall i :: 0 <= i < n ==> Ops(s', i, ns) == Ops(s, i, ns) + Ops(s, 0, ns)
    ensures forall i, m :: 0 <= i < |s| && (i == 0 || m != ns) ==> Ops(s', i, m) == Ops(s, i, m)
    ensures forall i :: n <= i < |s| ==> Ops(s', i, ns) == Ops(s, i, ns)
  {
    if n == 1 {
      ReachSelf(s);
      s' := s;
    } else {
      var s1 := Spread(s, n - 1, ns);
      s' := Transfer(s1, 0, n - 1, ns);
      ReachOn(s, s1, s');
    }
  }

  /** All nodes hold the same in this namespace. */
  ghost predicate Agree(s: System, ns: Namespace) {
    forall i, j :: 0 <= i < |s| && 0 <= j < |s| ==> Ops(s, i, ns) == Ops(s, j, ns)
  }

  lemma MakeAgree(s: System, ns: Namespace) returns (s': System)
    requires Running(s) && |s| > 0
    ensures CanReach(s, s') && |s'| == |s| && Running(s') && Agree(s', ns)
    ensures forall m :: m != ns && Agree(s, m) ==> Agree(s', m)
    ensures forall i :: 0 <= i < |s| ==> Ops(s', i, ns) == Union(s, |s|, ns)
    ensures forall i, m :: 0 <= i < |s| && m != ns ==> Ops(s', i, m) == Ops(s, i, m)
  {
    var s1 := Collect(s, |s|, ns);
    s' := Spread(s1, |s|, ns);
    ReachOn(s, s1, s');
    forall i | 0 <= i < |s| ensures Ops(s', i, ns) == Union(s, |s|, ns) {
      assert Ops(s, i, ns) <= Union(s, |s|, ns);
    }
  }

  // ----- counting as sent what everyone has -----

  /** A successful broadcast: the node counts its whole document as sent, and nothing else changes for it. */
  lemma Sync(s: System, i: nat, ns: Namespace) returns (s': System)
    requires Running(s) && i < |s|
    ensures CanReach(s, s') && |s'| == |s| && Running(s')
    ensures forall j :: 0 <= j < |s| ==> s'[j].docs == s[j].docs
    ensures forall j, m :: 0 <= j < |s| && (j != i || m != ns) ==> s'[j].last.At(m) == s[j].last.At(m)
    ensures s'[i].last.At(ns) == Some(s[i].docs.At(ns))
  {
    var b := Unused(s[i]);
    var s1, s2;
    s1, s2, s' := SyncSteps(s, i, ns, b);
    hide Apply, Enabled, CanReach;
    ReachStep(s, Begin(i, ns, b));
    ReachStep(s1, Send(i, b));
    ReachStep(s2, Commit(i, b));
    ReachOn(s, s1, s2);
    ReachOn(s, s2, s');
  }

  lemma SyncSteps(s: System, i: nat, ns: Namespace, b: nat) returns (s1: System, s2: System, s': System)
    requires Running(s) && i < |s| && b !in s[i].inflight
    ensures Enabled(s, Begin(i, ns, b)) && s1 == Apply(s, Begin(i, ns, b))
    ensures Enabled(s1, Send(i, b)) && s2 == Apply(s1, Send(i, b))
    ensures Enabled(s2, Commit(i, b)) && s' == Apply(s2, Commit(i, b))
    ensures |s'| == |s| && Running(s')
    ensures forall j :: 0 <= j < |s| ==> s'[j].docs == s[j].docs
    ensures forall j, m :: 0 <= j < |s| && (j != i || m != ns) ==> s'[j].last.At(m) == s[j].last.At(m)
    ensures s'[i].last.At(ns) == Some(s[i].docs.At(ns))
  {
    s1 := Apply(s, Begin(i, ns, b));
    s2 := Apply(s1, Send(i, b));
    s' := Apply(s2, Commit(i, b));
  }

  ghost predicate Synced(s: System, i: nat)
    requires i < |s|
  {
    forall ns :: s[i].last.At(ns) == Some(s[i].docs.At(ns))
  }

  lemma {:induction false} SyncFirst(s: System, n: nat) returns (s': System)
    requires Running(s) && n <= |s|
    ensures CanReach(s, s') && |s'| == |s| && Running(s')
    ensures forall j :: 0 <= j < |s| ==> s'[j].docs == s[j].docs
    ensures forall j :: 0 <= j < n ==> Synced(s', j)
  {
    if n == 0 {
      ReachSelf(s);
      s' := s;
    } else {
      var s1 := SyncFirst(s, n - 1);
      var s2 := Sync(s1, n - 1, Skill);
      s' := Sync(s2, n - 1, Project);
      ReachOn(s, s1, s2);
      ReachOn(s, s2, s');
      forall j, ns | 0 <= j < n ensures s'[j].last.At(ns) == Some(s'[j].docs.At(ns)) {
        assert j < n - 1 ==> Synced(s1, j);
        assert s2[j].docs == s1[j].docs && s'[j].docs == s2[j].docs;
      }
    }
  }

  lemma ReachableOn(s: System, s': System)
    requires Reachable(s) && CanReach(s, s')
    ensures Reachable(s')
  {
    hide Runs, Exec;
    var size, es :| Runs(Init(size), es) && s == Exec(Init(size), es);
    var fs :| Runs(s, fs) && Exec(s, fs) == s';
    RunsOn(Init(size), es, fs);
  }

  lemma AgreedIsDelivered(s: System)
    requires Inv(s) && forall ns :: Agree(s, ns)
    ensures AllDelivered(s)
  {
    forall i, j, k | 0 <= i < |s| && 0 <= j < |s| && i != j && 0 <= k < |s[i].log| && s[i].log[k].acked
      ensures s[i].log[k].delta.ops <= s[j].docs.At(s[i].log[k].ns).ops
    {
      var ns := s[i].log[k].ns;
      assert Shape(s[i]) && Agree(s, ns);
      assert Ops(s, i, ns) == Ops(s, j, ns);
    }
  }

  /**
   * From every state that running nodes can get into, whatever failed or overlapped before, a schedule leads to a
   * state where all payloads are delivered and every node counts its document as sent, with no write lost.
   */
  lemma AgreementInReach(s: System) returns (s': System)
    requires Reachable(s) && Running(s) && |s| > 0
    ensures CanReach(s, s') && Reachable(s') && |s'| == |s|
    ensures AllDelivered(s') && AllSynced(s')
    ensures forall i, ns :: 0 <= i < |s| ==> Ops(s', i, ns) == Union(s, |s|, ns)
  {
    hide CanReach, Reachable, AllDelivered, Union, Inv;
    var s1 := MakeAgree(s, Skill);
    var s2 := MakeAgree(s1, Project);
    s' := SyncFirst(s2, |s|);
    ReachOn(s, s1, s2);
    ReachOn(s, s2, s');
    ReachableOn(s, s');
    ReachableInv(s');
    SameUnion(s, s1, Project);
    forall i, ns | 0 <= i < |s| ensures Ops(s', i, ns) == Union(s, |s|, ns) {
      assert s'[i].docs == s2[i].docs;
      match ns
      case Skill => assert Ops(s2, i, Skill) == Ops(s1, i, Skill);
      case Project => assert Ops(s2, i, Project) == Union(s1, |s1|, Project);
    }
    assert forall ns :: Agree(s', ns);
    AgreedIsDelivered(s');
    forall i, ns | 0 <= i < |s| ensures s'[i].last.At(ns).Some? && s'[i].last.At(ns).value.ops == s'[i].docs.At(ns).ops {
      assert Synced(s', i);
    }
  }

  lemma SameUnion(s: System, s': System, ns: Namespace)
    requires |s'| == |s| && forall i :: 0 <= i < |s| ==> Ops(s', i, ns) == Ops(s, i, ns)
    ensures Union(s', |s'|, ns) == Union(s, |s|, ns)
  {
  }
}
