/** The relay's mailbox: envelopes by id, the ids waiting for each recipient, and two quotas. */
module RelayStore {
  import opened Chunks
  import Sorting

  datatype MailEnvelope = MailEnvelope(id: string, to: string, timestamp: int, ttl: int, payload: string)

  predicate EnvelopeExpired(e: MailEnvelope, now: int) {
    now > e.timestamp + e.ttl * 1000
  }

  /** The two maps. A set of ids keeps the order in which they were added. */
  datatype Relay = Relay(envelopes: map<string, MailEnvelope>, byRecipient: map<string, seq<string>>)

  datatype Quotas = Quotas(perRecipient: int, total: int)

  function Ids(s: Relay, to: string): seq<string> {
    if to in s.byRecipient then s.byRecipient[to] else []
  }

  predicate Holds(s: Relay, id: string, to: string) {
    id in s.envelopes && s.envelopes[id].to == to
  }

  /** The ids of every recipient are those of the envelopes addressed to it, each once. */
  ghost predicate Exact(s: Relay) {
    && (forall id :: id in s.envelopes ==> s.envelopes[id].id == id)
    && (forall to, id :: id in Ids(s, to) <==> Holds(s, id, to))
    && (forall to :: NoRepeats(Ids(s, to)))
  }

  predicate Within(n: nat, quota: int) {
    n == 0 || n <= quota
  }

  ghost predicate QuotasHold(s: Relay, q: Quotas) {
    Within(|s.envelopes|, q.total) && forall to :: Within(|Ids(s, to)|, q.perRecipient)
  }

  // ----- what the operations do to the two maps -----

  predicate Admits(s: Relay, q: Quotas, e: MailEnvelope, now: int) {
    !EnvelopeExpired(e, now) && |s.envelopes| < q.total && |Ids(s, e.to)| < q.perRecipient
  }

  function Add(ids: seq<string>, id: string): seq<string> {
    if id in ids then ids else ids + [id]
  }

  function Deposited(s: Relay, e: MailEnvelope): Relay {
    Relay(s.envelopes[e.id := e], s.byRecipient[e.to := Add(Ids(s, e.to), e.id)])
  }

  /** The ids in order, without those that are `gone` from this recipient. */
  function Remaining(ids: seq<string>, s: Relay, to: string, gone: set<string>): seq<string> {
    if ids == [] then []
    else (if ids[0] in gone && Holds(s, ids[0], to) then [] else [ids[0]]) + Remaining(ids[1..], s, to, gone)
  }

  function Removed(s: Relay, gone: set<string>): Relay {
    Relay(s.envelopes - gone, map to | to in s.byRecipient :: Remaining(s.byRecipient[to], s, to, gone))
  }

  ghost function Named(s: Relay, ids: seq<string>): set<string> {
    set id | id in s.envelopes && id in ids
  }

  ghost function ExpiredIds(s: Relay, now: int): set<string> {
    set id | id in s.envelopes && EnvelopeExpired(s.envelopes[id], now)
  }

  // ----- removal -----

  lemma {:induction false} RemainingMembers(ids: seq<string>, s: Relay, to: string, gone: set<string>)
    requires NoRepeats(ids)
    ensures forall id :: id in Remaining(ids, s, to, gone) <==> id in ids && !(id in gone && Holds(s, id, to))
    ensures NoRepeats(Remaining(ids, s, to, gone))
    ensures |Remaining(ids, s, to, gone)| <= |ids|
  {
    if ids != [] {
      var rest := ids[1..];
      RemainingMembers(rest, s, to, gone);
      assert ids == [ids[0]] + rest && ids[0] !in rest;
    }
  }

  lemma {:induction false} RemainingTwice(ids: seq<string>, s: Relay, to: string, gone: set<string>, s': Relay, id: string)
    requires s'.envelopes == s.envelopes - gone && id in s'.envelopes
    ensures Remaining(Remaining(ids, s, to, gone), s', to, {id}) == Remaining(ids, s, to, gone + {id})
  {
    if ids != [] {
      var head, rest := ids[0], Remaining(ids[1..], s, to, gone);
      RemainingTwice(ids[1..], s, to, gone, s', id);
      if head in gone && Holds(s, head, to) {
        assert [] + rest == rest;
      } else {
        assert ([head] + rest)[1..] == rest;
        assert Holds(s', head, to) ==> Holds(s, head, to);
        assert head == id ==> (Holds(s', head, to) <==> Holds(s, head, to));
      }
    }
  }

  lemma {:induction false} RemainingNone(ids: seq<string>, s: Relay, to: string)
    ensures Remaining(ids, s, to, {}) == ids
  {
    if ids != [] {
      RemainingNone(ids[1..], s, to);
    }
  }

  lemma RemovedNone(s: Relay)
    ensures Removed(s, {}) == s
  {
    forall to | to in s.byRecipient ensures Remaining(s.byRecipient[to], s, to, {}) == s.byRecipient[to] {
      RemainingNone(s.byRecipient[to], s, to);
    }
  }

  /** Removing one more is removing it from what is left. */
  lemma RemovedOneMore(s: Relay, gone: set<string>, id: string)
    requires id in s.envelopes && id !in gone
    ensures Removed(Removed(s, gone), {id}) == Removed(s, gone + {id})
  {
    var s' := Removed(s, gone);
    forall to | to in s.byRecipient
      ensures Remaining(s'.byRecipient[to], s', to, {id}) == Remaining(s.byRecipient[to], s, to, gone + {id})
    {
      RemainingTwice(s.byRecipient[to], s, to, gone, s', id);
    }
    assert s.envelopes - gone - {id} == s.envelopes - (gone + {id});
  }

  /** Deleting an id from the set of its own recipient, and from the envelopes, removes exactly it. */
  lemma {:induction false} RemainingOthers(ids: seq<string>, s: Relay, to: string, id: string)
    requires !Holds(s, id, to)
    ensures Remaining(ids, s, to, {id}) == ids
  {
    if ids != [] {
      RemainingOthers(ids[1..], s, to, id);
    }
  }

  lemma RemovedOne(s: Relay, id: string)
    requires id in s.envelopes
    ensures
      var to := s.envelopes[id].to;
      Removed(s, {id}) == Relay(s.envelopes - {id},
                                if to in s.byRecipient then s.byRecipient[to := Remaining(s.byRecipient[to], s, to, {id})] else s.byRecipient)
  {
    forall to | to in s.byRecipient && to != s.envelopes[id].to ensures Remaining(s.byRecipient[to], s, to, {id}) == s.byRecipient[to] {
      RemainingOthers(s.byRecipient[to], s, to, id);
    }
  }

  // ----- one step keeps the maps exact and within the quotas -----

  lemma DepositIds(s: Relay, e: MailEnvelope, to: string)
    ensures Ids(Deposited(s, e), to) == if to == e.to then Add(Ids(s, to), e.id) else Ids(s, to)
  {
  }

  lemma AddKeepsOrder(ids: seq<string>, id: string)
    requires NoRepeats(ids)
    ensures NoRepeats(Add(ids, id))
    ensures forall x :: x in Add(ids, id) <==> x in ids || x == id
  {
  }

  lemma DepositInverse(s: Relay, e: MailEnvelope, to: string)
    requires Exact(s) && (e.id in s.envelopes ==> s.envelopes[e.id].to == e.to)
    ensures NoRepeats(Ids(Deposited(s, e), to))
    ensures forall id :: id in Ids(Deposited(s, e), to) <==> Holds(Deposited(s, e), id, to)
  {
    assert NoRepeats(Ids(s, to));
    assert forall id :: id in Ids(s, to) <==> Holds(s, id, to);
    hide Exact, NoRepeats;
    DepositIds(s, e, to);
    AddKeepsOrder(Ids(s, to), e.id);
  }

  /**
   * A deposit keeps the id sets exact precisely when its id is new or is held for the same recipient: depositing
   * a held id for someone else leaves it in the old recipient's set.
   */
  lemma DepositExactIff(s: Relay, e: MailEnvelope)
    requires Exact(s)
    ensures Exact(Deposited(s, e)) <==> (e.id in s.envelopes ==> s.envelopes[e.id].to == e.to)
  {
    var s' := Deposited(s, e);
    if e.id in s.envelopes && s.envelopes[e.id].to != e.to {
      var was := s.envelopes[e.id].to;
      assert Holds(s, e.id, was);
      DepositIds(s, e, was);
      assert e.id in Ids(s', was) && !Holds(s', e.id, was);
    } else {
      forall to
        ensures NoRepeats(Ids(s', to))
        ensures forall id :: id in Ids(s', to) <==> Holds(s', id, to)
      {
        DepositInverse(s, e, to);
      }
      assert forall id :: id in s'.envelopes ==> s'.envelopes[id].id == id;
    }
  }

  lemma DepositWithinQuotas(s: Relay, q: Quotas, e: MailEnvelope, now: int)
    requires QuotasHold(s, q) && Admits(s, q, e, now)
    ensures QuotasHold(Deposited(s, e), q)
  {
    var s' := Deposited(s, e);
    assert s'.envelopes.Keys == s.envelopes.Keys + {e.id};
    assert |s'.envelopes.Keys| <= |s.envelopes.Keys| + 1;
    forall to ensures Within(|Ids(s', to)|, q.perRecipient) {
      assert Within(|Ids(s, to)|, q.perRecipient);
    }
  }

  lemma RemovalKeeps(s: Relay, q: Quotas, gone: set<string>)
    requires Exact(s)
    ensures Exact(Removed(s, gone))
    ensures QuotasHold(s, q) ==> QuotasHold(Removed(s, gone), q)
  {
    var s' := Removed(s, gone);
    forall to
      ensures |Ids(s', to)| <= |Ids(s, to)| && NoRepeats(Ids(s', to))
      ensures forall id :: id in Ids(s', to) <==> Holds(s', id, to)
    {
      RemainingMembers(Ids(s, to), s, to, gone);
      assert forall id :: id in Ids(s, to) <==> Holds(s, id, to);
      assert Ids(s', to) == Remaining(Ids(s, to), s, to, gone);
    }
    SubsetCount(s'.envelopes.Keys, s.envelopes.Keys);
    if QuotasHold(s, q) {
      forall to ensures Within(|Ids(s', to)|, q.perRecipient) {
        assert Within(|Ids(s, to)|, q.perRecipient);
      }
    }
  }

  // ----- whole runs -----

  datatype Op = Deposit(envelope: MailEnvelope, now: int) | Ack(ids: seq<string>) | Evict(now: int)

  /** The mailbox with the books kept beside it. */
  datatype Ledger = Ledger(relay: Relay, deposited: set<string>, acked: set<string>, evicted: set<string>)

  const EMPTY_LEDGER := Ledger(Relay(map[], map[]), {}, {}, {})

  ghost function Step(q: Quotas, l: Ledger, op: Op): Ledger {
    match op
    case Deposit(e, now) =>
      if Admits(l.relay, q, e, now) then l.(relay := Deposited(l.relay, e), deposited := l.deposited + {e.id}) else l
    case Ack(ids) =>
      l.(relay := Removed(l.relay, Named(l.relay, ids)), acked := l.acked + Named(l.relay, ids))
    case Evict(now) =>
      l.(relay := Removed(l.relay, ExpiredIds(l.relay, now)), evicted := l.evicted + ExpiredIds(l.relay, now))
  }

  ghost function Run(q: Quotas, l: Ledger, ops: seq<Op>): Ledger
    decreases |ops|
  {
    if ops == [] then l else Run(q, Step(q, l, ops[0]), ops[1..])
  }

  /** No deposit reuses an id that was deposited before. */
  ghost predicate FreshIds(q: Quotas, l: Ledger, ops: seq<Op>)
    decreases |ops|
  {
    ops != [] ==> (ops[0].Deposit? ==> ops[0].envelope.id !in l.deposited) && FreshIds(q, Step(q, l, ops[0]), ops[1..])
  }

  /** Everything deposited is held, acknowledged or evicted, and only one of these. */
  ghost predicate Balanced(l: Ledger) {
    && l.deposited == l.relay.envelopes.Keys + l.acked + l.evicted
    && l.relay.envelopes.Keys !! l.acked !! l.evicted
  }

  ghost predicate Lawful(q: Quotas, l: Ledger) {
    Exact(l.relay) && QuotasHold(l.relay, q) && Balanced(l)
  }

  lemma RemovalBalances(s: Relay, deposited: set<string>, acked: set<string>, evicted: set<string>, gone: set<string>)
    requires gone <= s.envelopes.Keys && Balanced(Ledger(s, deposited, acked, evicted))
    ensures Balanced(Ledger(Removed(s, gone), deposited, acked + gone, evicted))
    ensures Balanced(Ledger(Removed(s, gone), deposited, acked, evicted + gone))
  {
    assert Removed(s, gone).envelopes.Keys == s.envelopes.Keys - gone;
  }

  lemma DepositBalances(l: Ledger, e: MailEnvelope)
    requires Balanced(l) && e.id !in l.deposited
    ensures Balanced(Ledger(Deposited(l.relay, e), l.deposited + {e.id}, l.acked, l.evicted))
    ensures e.id !in l.relay.envelopes
  {
    assert Deposited(l.relay, e).envelopes.Keys == l.relay.envelopes.Keys + {e.id};
  }

  lemma DepositLawful(q: Quotas, l: Ledger, e: MailEnvelope, now: int)
    requires Lawful(q, l) && e.id !in l.deposited
    ensures Lawful(q, Step(q, l, Deposit(e, now)))
  {
    hide Exact, QuotasHold, Admits, Deposited, Balanced;
    if Admits(l.relay, q, e, now) {
      DepositBalances(l, e);
      DepositExactIff(l.relay, e);
      DepositWithinQuotas(l.relay, q, e, now);
    }
  }

  lemma StepLawful(q: Quotas, l: Ledger, op: Op)
    requires Lawful(q, l) && (op.Deposit? ==> op.envelope.id !in l.deposited)
    ensures Lawful(q, Step(q, l, op))
  {
    hide Exact, QuotasHold, Removed, Admits;
    match op
    case Deposit(e, now) =>
      DepositLawful(q, l, e, now);
    case Ack(ids) =>
      RemovalKeeps(l.relay, q, Named(l.relay, ids));
      RemovalBalances(l.relay, l.deposited, l.acked, l.evicted, Named(l.relay, ids));
    case Evict(now) =>
      RemovalKeeps(l.relay, q, ExpiredIds(l.relay, now));
      RemovalBalances(l.relay, l.deposited, l.acked, l.evicted, ExpiredIds(l.relay, now));
  }

  lemma {:induction false} RunLawful(q: Quotas, l: Ledger, ops: seq<Op>)
    requires Lawful(q, l) && FreshIds(q, l, ops)
    ensures Lawful(q, Run(q, l, ops))
    decreases |ops|
  {
    hide Lawful;
    if ops != [] {
      StepLawful(q, l, ops[0]);
      RunLawful(q, Step(q, l, ops[0]), ops[1..]);
    }
  }

  /** From an empty mailbox, whatever happens: exact sets, quotas kept, and no envelope lost or counted twice. */
  lemma EveryRun(q: Quotas, ops: seq<Op>)
    requires FreshIds(q, EMPTY_LEDGER, ops)
    ensures Lawful(q, Run(q, EMPTY_LEDGER, ops))
    ensures
      var l := Run(q, EMPTY_LEDGER, ops);
      |l.deposited| == |l.relay.envelopes| + |l.acked| + |l.evicted|
  {
    assert forall to :: Ids(EMPTY_LEDGER.relay, to) == [];
    RunLawful(q, EMPTY_LEDGER, ops);
    var l := Run(q, EMPTY_LEDGER, ops);
    assert |l.relay.envelopes.Keys + l.acked| == |l.relay.envelopes.Keys| + |l.acked|;
    assert |l.relay.envelopes.Keys + l.acked + l.evicted| == |l.relay.envelopes.Keys + l.acked| + |l.evicted|;
  }

  /** Nothing in the run acknowledges the envelope, replaces it, or evicts at a time when it has expired. */
  predicate LeavesAlone(e: MailEnvelope, ops: seq<Op>) {
    forall op :: op in ops ==>
                   match op
                   case Deposit(d, _) => d.id != e.id
                   case Ack(ids) => e.id !in ids
                   case Evict(now) => !EnvelopeExpired(e, now)
  }

  /** A held envelope stays until it is acknowledged or expires, whatever else is deposited or removed. */
  lemma {:induction false} HeldUntilDone(q: Quotas, l: Ledger, ops: seq<Op>, e: MailEnvelope)
    requires e.id in l.relay.envelopes && l.relay.envelopes[e.id] == e && LeavesAlone(e, ops)
    ensures
      var held := Run(q, l, ops).relay.envelopes;
      e.id in held && held[e.id] == e
    decreases |ops|
  {
    if ops != [] {
      assert ops[0] in ops;
      assert forall op :: op in ops[1..] ==> op in ops;
      HeldUntilDone(q, Step(q, l, ops[0]), ops[1..], e);
    }
  }

  // ----- reading -----

  predicate Wanted(s: Relay, id: string, since: Option<int>, now: int) {
    && id in s.envelopes
    && !EnvelopeExpired(s.envelopes[id], now)
    && (since.Some? ==> s.envelopes[id].timestamp > since.value)
  }

  function Pending(s: Relay, ids: seq<string>, since: Option<int>, now: int): seq<MailEnvelope> {
    if ids == [] then []
    else Pending(s, ids[..|ids| - 1], since, now) + if Wanted(s, ids[|ids| - 1], since, now) then [s.envelopes[ids[|ids| - 1]]] else []
  }

  function AtMost<T>(s: seq<T>, limit: int): seq<T> {
    if s == [] || |s| <= limit then s else if limit < 1 then s[..1] else s[..limit]
  }

  function Stamp(e: MailEnvelope): int {
    e.timestamp
  }

  /** The first `limit` pending envelopes in the order of their deposit (one if the limit is below one), by timestamp. */
  function Answer(s: Relay, to: string, since: Option<int>, limit: int, now: int): seq<MailEnvelope> {
    Sorting.Sort(AtMost(Pending(s, Ids(s, to), since, now), limit), Stamp)
  }

  lemma {:induction false} PendingMembers(s: Relay, ids: seq<string>, since: Option<int>, now: int)
    ensures forall e :: e in Pending(s, ids, since, now) <==> exists id :: id in ids && Wanted(s, id, since, now) && s.envelopes[id] == e
  {
    if ids != [] {
      PendingMembers(s, ids[..|ids| - 1], since, now);
      assert ids == ids[..|ids| - 1] + [ids[|ids| - 1]];
    }
  }

  lemma {:induction false} PendingOnce(s: Relay, ids: seq<string>, since: Option<int>, now: int)
    requires NoRepeats(ids) && forall id :: id in s.envelopes ==> s.envelopes[id].id == id
    ensures NoRepeats(Pending(s, ids, since, now))
  {
    if ids != [] {
      var init, last := ids[..|ids| - 1], ids[|ids| - 1];
      PendingOnce(s, init, since, now);
      PendingMembers(s, init, since, now);
      if Wanted(s, last, since, now) {
        assert last !in init;
        assert s.envelopes[last] !in Pending(s, init, since, now);
      }
    }
  }

  /** What a recipient is told: its own unexpired envelopes newer than `since`, oldest first, all of them unless cut at the limit. */
  lemma AnswerIs(s: Relay, to: string, since: Option<int>, limit: int, now: int)
    requires Exact(s)
    ensures
      var r := Answer(s, to, since, limit, now);
      && (forall e :: e in r ==>
            && e.to == to && e.id in s.envelopes && s.envelopes[e.id] == e
            && now <= e.timestamp + e.ttl * 1000 && (since.Some? ==> since.value < e.timestamp))
      && (forall i, j :: 0 <= i < j < |r| ==> r[i].timestamp <= r[j].timestamp)
      && NoRepeats(r)
      && |r| <= (if limit < 1 then 1 else limit)
      && (|r| < limit ==> forall id :: id in s.envelopes && s.envelopes[id].to == to
                                       && now <= s.envelopes[id].timestamp + s.envelopes[id].ttl * 1000
                                       && (since.Some? ==> since.value < s.envelopes[id].timestamp) ==>
                                         s.envelopes[id] in r)
  {
    var ids := Ids(s, to);
    var pending := Pending(s, ids, since, now);
    var cut, r := AtMost(pending, limit), Answer(s, to, since, limit, now);
    PendingMembers(s, ids, since, now);
    assert NoRepeats(ids);
    PendingOnce(s, ids, since, now);
    Sorting.SortContents(cut, Stamp);
    Sorting.SortDistinct(cut, Stamp);
    Sorting.SortAscending(cut, Stamp);
    forall e ensures e in r <==> e in cut {
      Sorting.SortElements(cut, Stamp, e);
    }
    forall i, j | 0 <= i < j < |r| ensures r[i].timestamp <= r[j].timestamp {
      assert Stamp(r[i]) <= Stamp(r[j]);
    }
    forall e | e in r ensures e.to == to && e.id in s.envelopes && s.envelopes[e.id] == e && Wanted(s, e.id, since, now) {
      assert e in pending;
      var id :| id in ids && Wanted(s, id, since, now) && s.envelopes[id] == e;
      assert Holds(s, id, to);
    }
    if |r| < limit {
      assert cut == pending;
      forall id | Holds(s, id, to) && Wanted(s, id, since, now) ensures s.envelopes[id] in r {
        assert id in ids;
      }
    }
  }

  // ----- the store -----

  class MemoryRelayStore {
    const quotas: Quotas
    var envelopes: map<string, MailEnvelope>
    var byRecipient: map<string, seq<string>>

    ghost function State(): Relay
      reads this
    {
      Relay(envelopes, byRecipient)
    }

    constructor (quotas: Quotas)
      ensures State() == EMPTY_LEDGER.relay && this.quotas == quotas
    {
      this.quotas := quotas;
      envelopes, byRecipient := map[], map[];
    }

    method Deposit(envelope: MailEnvelope, now: int) returns (accepted: bool)
      modifies this
      ensures accepted <==> Admits(old(State()), quotas, envelope, now)
      ensures State() == if accepted then Deposited(old(State()), envelope) else old(State())
      ensures accepted <==>
                && now <= envelope.timestamp + envelope.ttl * 1000
                && |old(envelopes)| < quotas.total
                && (if envelope.to in old(byRecipient) then |old(byRecipient)[envelope.to]| else 0) < quotas.perRecipient
    {
      if EnvelopeExpired(envelope, now) || |envelopes| >= quotas.total {
        return false;
      }
      var recipientSet := if envelope.to in byRecipient then byRecipient[envelope.to] else [];
      if |recipientSet| >= quotas.perRecipient {
        return false;
      }
      envelopes := envelopes[envelope.id := envelope];
      recipientSet := if envelope.id in recipientSet then recipientSet else recipientSet + [envelope.id];
      byRecipient := byRecipient[envelope.to := recipientSet];
      accepted := true;
    }

    method Check(recipientPeerId: string, since: Option<int>, limit: int, now: int) returns (r: seq<MailEnvelope>)
      ensures r == Answer(State(), recipientPeerId, since, limit, now)
    {
      var ids := if recipientPeerId in byRecipient then byRecipient[recipientPeerId] else [];
      ghost var s := State();
      var result: seq<MailEnvelope> := [];
      var i := 0;
      while i < |ids|
        invariant 0 <= i <= |ids|
        invariant result == Pending(s, ids[..i], since, now)
        invariant result == [] || |result| < limit
      {
        var id := ids[i];
        assert ids[..i + 1][..i] == ids[..i];
        PendingGrows(s, ids, since, now, i + 1);
        i := i + 1;
        if id !in envelopes || EnvelopeExpired(envelopes[id], now) {
          continue;
        }
        if since.Some? && envelopes[id].timestamp <= since.value {
          continue;
        }
        result := result + [envelopes[id]];
        if |result| >= limit {
          break;
        }
      }
      assert i == |ids| ==> ids[..i] == ids;
      assert result == AtMost(Pending(s, ids, since, now), limit);
      r := Sorting.Sort(result, Stamp);
    }

    /** Each named envelope that is held goes, and is counted once however often it is named. */
    method Ack(envelopeIds: seq<string>) returns (count: nat)
      modifies this
      ensures State() == Removed(old(State()), Named(old(State()), envelopeIds))
      ensures count == |Named(old(State()), envelopeIds)|
    {
      hide Removed, Remaining;
      ghost var s, gone: set<string> := State(), {};
      count := 0;
      RemovedNone(s);
      var i := 0;
      while i < |envelopeIds|
        invariant 0 <= i <= |envelopeIds|
        invariant gone == Named(s, envelopeIds[..i]) && count == |gone|
        invariant State() == Removed(s, gone)
      {
        var id := envelopeIds[i];
        NamedOneMore(s, envelopeIds, i);
        StillHeld(s, gone, id);
        i := i + 1;
        if id !in envelopes {
          continue;
        }
        RemovedOneMore(s, gone, id);
        Delete(id);
        gone := gone + {id};
        count := count + 1;
      }
      assert envelopeIds[..i] == envelopeIds;
    }

    /** Exactly the expired envelopes go. */
    method Evict(now: int) returns (count: nat)
      modifies this
      ensures State() == Removed(old(State()), ExpiredIds(old(State()), now))
      ensures count == |ExpiredIds(old(State()), now)|
      ensures forall id :: id in envelopes <==>
                id in old(envelopes) && now <= old(envelopes)[id].timestamp + old(envelopes)[id].ttl * 1000
      ensures forall id :: id in envelopes ==> envelopes[id] == old(envelopes)[id]
    {
      ghost var s := State();
      count := 0;
      var todo := envelopes.Keys;
      RemovedNone(s);
      assert Swept(s, now, todo) == {};
      hide Removed, Remaining, Swept, EnvelopeExpired;
      while todo != {}
        invariant todo <= s.envelopes.Keys
        invariant State() == Removed(s, Swept(s, now, todo)) && count == |Swept(s, now, todo)|
        decreases |todo|
      {
        var id :| id in todo;
        SweepOneMore(s, now, todo, id);
        todo := todo - {id};
        if EnvelopeExpired(envelopes[id], now) {
          Delete(id);
          count := count + 1;
        }
      }
      SweptAll(s, now);
      EvictedByTime(s, now);
    }

    method Delete(id: string)
      requires id in envelopes
      modifies this
      ensures State() == Removed(old(State()), {id})
    {
      ghost var s := State();
      RemovedOne(s, id);
      var to := envelopes[id].to;
      envelopes := envelopes - {id};
      if to in byRecipient {
        var kept := Without(byRecipient[to], id);
        WithoutIs(byRecipient[to], s, to, id);
        byRecipient := byRecipient[to := kept];
      }
    }

    method Count(recipientPeerId: string) returns (n: nat)
      ensures n == |Ids(State(), recipientPeerId)|
    {
      n := if recipientPeerId in byRecipient then |byRecipient[recipientPeerId]| else 0;
    }
  }

  function Without(ids: seq<string>, id: string): seq<string> {
    if ids == [] then [] else (if ids[0] == id then [] else [ids[0]]) + Without(ids[1..], id)
  }

  lemma {:induction false} WithoutIs(ids: seq<string>, s: Relay, to: string, id: string)
    requires Holds(s, id, to)
    ensures Without(ids, id) == Remaining(ids, s, to, {id})
  {
    if ids != [] {
      WithoutIs(ids[1..], s, to, id);
    }
  }

  lemma StillHeld(s: Relay, gone: set<string>, id: string)
    ensures id in Removed(s, gone).envelopes <==> id in s.envelopes && id !in gone
    ensures id in s.envelopes && id !in gone ==> Removed(s, gone).envelopes[id] == s.envelopes[id]
  {
  }

  /** The expired envelopes that a sweep with `todo` still ahead of it has passed. */
  ghost function Swept(s: Relay, now: int, todo: set<string>): set<string> {
    ExpiredIds(s, now) - todo
  }

  lemma SweepOneMore(s: Relay, now: int, todo: set<string>, id: string)
    requires id in todo && todo <= s.envelopes.Keys
    ensures
      var before, after := Swept(s, now, todo), Swept(s, now, todo - {id});
      && id in Removed(s, before).envelopes
      && Removed(s, before).envelopes[id] == s.envelopes[id]
      && if EnvelopeExpired(s.envelopes[id], now)
         then Removed(Removed(s, before), {id}) == Removed(s, after) && |after| == |before| + 1
         else after == before
  {
    var before := Swept(s, now, todo);
    if EnvelopeExpired(s.envelopes[id], now) {
      RemovedOneMore(s, before, id);
      assert Swept(s, now, todo - {id}) == before + {id};
    }
  }

  lemma EvictedByTime(s: Relay, now: int)
    ensures
      var after := Removed(s, ExpiredIds(s, now)).envelopes;
      && (forall id :: id in after <==> id in s.envelopes && now <= s.envelopes[id].timestamp + s.envelopes[id].ttl * 1000)
      && (forall id :: id in after ==> after[id] == s.envelopes[id])
  {
  }

  lemma SweptAll(s: Relay, now: int)
    ensures Swept(s, now, {}) == ExpiredIds(s, now)
  {
  }

  lemma NamedOneMore(s: Relay, ids: seq<string>, i: nat)
    requires i < |ids|
    ensures Named(s, ids[..i + 1]) == Named(s, ids[..i]) + if ids[i] in s.envelopes then {ids[i]} else {}
  {
    assert ids[..i + 1] == ids[..i] + [ids[i]];
  }

  lemma {:induction false} PendingGrows(s: Relay, ids: seq<string>, since: Option<int>, now: int, i: nat)
    requires i <= |ids|
    ensures Pending(s, ids[..i], since, now) <= Pending(s, ids, since, now)
    decreases |ids| - i
  {
    if i == |ids| {
      assert ids[..i] == ids;
    } else {
      PendingGrows(s, ids, since, now, i + 1);
      assert ids[..i + 1][..i] == ids[..i];
    }
  }

  /** The count a recipient is given is the number of envelopes held for it. */
  lemma CountIs(s: Relay, to: string)
    requires Exact(s)
    ensures |Ids(s, to)| == |set id | id in s.envelopes && s.envelopes[id].to == to|
  {
    assert NoRepeats(Ids(s, to));
    AsSet(Ids(s, to));
    assert forall id :: id in Ids(s, to) <==> Holds(s, id, to);
    assert (set id | id in Ids(s, to)) == set id | id in s.envelopes && s.envelopes[id].to == to;
  }

  lemma {:induction false} AsSet(ids: seq<string>)
    requires NoRepeats(ids)
    ensures |set id | id in ids| == |ids|
  {
    if ids != [] {
      var init, last := ids[..|ids| - 1], ids[|ids| - 1];
      AsSet(init);
      assert (set id | id in ids) == (set id | id in init) + {last};
    }
  }
}
