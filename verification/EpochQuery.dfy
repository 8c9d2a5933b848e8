/**
 * Querying across epochs resolves heads twice: inside every epoch, then over the union of the answers.
 * This file compares that with resolving once over everything.
 */
module EpochQuery {
  import opened Chunks
  import opened Query

  ghost function All(parts: seq<set<Chunk>>): set<Chunk> {
    set i, c | 0 <= i < |parts| && c in parts[i] :: c
  }

  /** `kept` are the answers of the single epochs, pooled. */
  ghost predicate Pools(parts: seq<set<Chunk>>, answers: seq<seq<Chunk>>, kept: set<Chunk>) {
    && |answers| == |parts|
    && (forall i :: 0 <= i < |parts| ==> ResolvesTo(parts[i], answers[i]))
    && kept == set i, c | 0 <= i < |answers| && c in answers[i] :: c
  }

  /** Some part shows the chunk: nothing in that part supersedes it. */
  ghost predicate ShownSomewhere(parts: seq<set<Chunk>>, c: Chunk) {
    exists i :: 0 <= i < |parts| && Candidate(parts[i], c)
  }

  /** A chunk hidden inside every epoch it is in never supersedes one that its own epoch shows. */
  ghost predicate NothingHiddenSupersedes(parts: seq<set<Chunk>>) {
    forall c, d :: ShownSomewhere(parts, c) && d in All(parts) && Supersedes(d, c) ==> ShownSomewhere(parts, d)
  }

  /** The pooled chunks are those nothing in their own epoch supersedes. */
  lemma KeptIs(parts: seq<set<Chunk>>, answers: seq<seq<Chunk>>, kept: set<Chunk>, c: Chunk)
    requires ForkFree(All(parts)) && Pools(parts, answers, kept)
    ensures c in kept <==> ShownSomewhere(parts, c)
  {
    forall i | 0 <= i < |parts| ensures c in answers[i] <==> Candidate(parts[i], c) {
      SubsetForkFree(All(parts), parts[i]);
      ForkFreeHeads(parts[i], answers[i]);
    }
  }

  lemma KeptCandidate(parts: seq<set<Chunk>>, answers: seq<seq<Chunk>>, kept: set<Chunk>, c: Chunk)
    requires ForkFree(All(parts)) && Pools(parts, answers, kept) && Candidate(All(parts), c)
    ensures Candidate(kept, c)
  {
    var i :| 0 <= i < |parts| && c in parts[i];
    assert Candidate(parts[i], c);
    KeptIs(parts, answers, kept, c);
    forall d | d in kept ensures d in All(parts) {
      KeptIs(parts, answers, kept, d);
    }
  }

  lemma PooledForkFree(parts: seq<set<Chunk>>, answers: seq<seq<Chunk>>, kept: set<Chunk>)
    requires ForkFree(All(parts)) && Pools(parts, answers, kept)
    ensures kept <= All(parts) && ForkFree(kept)
  {
    forall d | d in kept ensures d in All(parts) {
      KeptIs(parts, answers, kept, d);
    }
    SubsetForkFree(All(parts), kept);
  }

  /**
   * On chains without forks, querying epoch by epoch gives the answer of one flat store exactly when no chunk
   * hidden in its own epoch supersedes a chunk shown by another; it never misses one of that answer.
   */
  lemma QueryIsFlatIff(parts: seq<set<Chunk>>, answers: seq<seq<Chunk>>, kept: set<Chunk>, twice: seq<Chunk>, flat: seq<Chunk>)
    requires ForkFree(All(parts)) && Pools(parts, answers, kept)
    requires ResolvesTo(kept, twice) && ResolvesTo(All(parts), flat)
    ensures Elems(flat) <= Elems(twice)
    ensures Elems(twice) == Elems(flat) <==> NothingHiddenSupersedes(parts)
  {
    var all := All(parts);
    PooledForkFree(parts, answers, kept);
    forall c ensures c in kept <==> ShownSomewhere(parts, c) {
      KeptIs(parts, answers, kept, c);
    }
    ForkFreeHeads(all, flat);
    ForkFreeHeads(kept, twice);
    forall c | c in flat ensures c in twice {
      KeptCandidate(parts, answers, kept, c);
    }
    if NothingHiddenSupersedes(parts) {
      forall c | c in twice ensures c in flat {
        ShownCandidate(parts, kept, c);
      }
    } else {
      var c := HiddenSpoils(parts, kept);
      assert c in Elems(twice) && c !in Elems(flat);
    }
  }

  lemma ShownCandidate(parts: seq<set<Chunk>>, kept: set<Chunk>, c: Chunk)
    requires kept <= All(parts) && (forall d :: d in kept <==> ShownSomewhere(parts, d))
    requires NothingHiddenSupersedes(parts) && Candidate(kept, c)
    ensures Candidate(All(parts), c)
  {
  }

  lemma HiddenSpoils(parts: seq<set<Chunk>>, kept: set<Chunk>) returns (c: Chunk)
    requires ForkFree(All(parts)) && kept <= All(parts) && (forall d :: d in kept <==> ShownSomewhere(parts, d))
    requires !NothingHiddenSupersedes(parts)
    ensures Candidate(kept, c) && !Candidate(All(parts), c)
  {
    var x, d :| ShownSomewhere(parts, x) && d in All(parts) && Supersedes(d, x) && !ShownSomewhere(parts, d);
    c := x;
    forall e | e in kept ensures !Supersedes(e, c) {
      assert Supersedes(e, c) ==> e == d;
    }
  }

  // ----- with forks -----

  /** Some part returns the chunk: it is a winner there. */
  ghost predicate Won(parts: seq<set<Chunk>>, c: Chunk) {
    exists i :: 0 <= i < |parts| && Newest(parts[i], c)
  }

  ghost predicate Superseded(live: set<Chunk>, c: Chunk) {
    exists d :: d in live && Supersedes(d, c)
  }

  /** No winner of a part supersedes the chunk. */
  ghost predicate Unopposed(parts: seq<set<Chunk>>, c: Chunk) {
    forall d :: Won(parts, d) ==> !Supersedes(d, c)
  }

  /** The winners over everything win in some part of their own, and are not hidden by a sibling that is stale itself. */
  ghost predicate WinnersShown(parts: seq<set<Chunk>>) {
    forall c :: Newest(All(parts), c) ==> Won(parts, c)
  }

  ghost predicate Outdone(parts: seq<set<Chunk>>, c: Chunk) {
    exists e :: Won(parts, e) && ForkKey(e) == ForkKey(c) && e.timestamp > c.timestamp && Unopposed(parts, e)
  }

  /** A superseded chunk that wins its part is superseded by a winner, or outdone by a newer unopposed sibling. */
  ghost predicate NoStaleWins(parts: seq<set<Chunk>>) {
    forall c :: Won(parts, c) && Superseded(All(parts), c) && Unopposed(parts, c) ==> Outdone(parts, c)
  }

  lemma KeptWon(parts: seq<set<Chunk>>, answers: seq<seq<Chunk>>, kept: set<Chunk>)
    requires DistinctForkTimes(All(parts)) && Pools(parts, answers, kept)
    ensures kept <= All(parts) && DistinctForkTimes(kept)
    ensures forall c :: c in kept <==> Won(parts, c)
  {
    forall i, c | 0 <= i < |parts| ensures c in answers[i] <==> Newest(parts[i], c) {
      assert parts[i] <= All(parts);
      ResolvesToNewest(parts[i], answers[i], c);
    }
  }

  /**
   * With forks, as long as no two chunks of a fork have one timestamp, there are exactly two ways to fail: a winner over
   * everything loses in its own epoch to a sibling that another epoch supersedes, or a superseded chunk wins twice.
   */
  lemma QueryWithForksIsFlatIff(parts: seq<set<Chunk>>, answers: seq<seq<Chunk>>, kept: set<Chunk>, twice: seq<Chunk>, flat: seq<Chunk>)
    requires DistinctForkTimes(All(parts)) && Pools(parts, answers, kept)
    requires ResolvesTo(kept, twice) && ResolvesTo(All(parts), flat)
    ensures Elems(twice) == Elems(flat) <==> WinnersShown(parts) && NoStaleWins(parts)
  {
    hide ResolvesTo, Pools;
    var all := All(parts);
    KeptWon(parts, answers, kept);
    forall c ensures (c in twice <==> Newest(kept, c)) && (c in flat <==> Newest(all, c)) {
      ResolvesToNewest(kept, twice, c);
      ResolvesToNewest(all, flat, c);
    }
    if WinnersShown(parts) && NoStaleWins(parts) {
      forall c | c in twice ensures c in flat {
        TwiceIsFlat(parts, kept, flat, c);
      }
      forall c | c in flat ensures c in twice {
        FlatIsTwice(parts, kept, twice, flat, c);
      }
    }
    if Elems(twice) == Elems(flat) {
      forall c | Newest(all, c) ensures Won(parts, c) {
        assert c in Elems(flat);
      }
      forall c | Won(parts, c) && Superseded(all, c) && Unopposed(parts, c) ensures Outdone(parts, c) {
        assert c in Elems(twice) <==> c in Elems(flat);
        assert !Newest(kept, c);
        StaleOutdone(parts, kept, c);
      }
    }
  }

  lemma StaleOutdone(parts: seq<set<Chunk>>, kept: set<Chunk>, c: Chunk)
    requires (forall d :: d in kept <==> Won(parts, d)) && Won(parts, c) && Unopposed(parts, c) && !Newest(kept, c)
    ensures Outdone(parts, c)
  {
    assert Candidate(kept, c);
    var e :| Siblings(kept, c, e) && e.timestamp > c.timestamp;
    assert Unopposed(parts, e);
  }

  lemma WinnerNotOutdone(parts: seq<set<Chunk>>, kept: set<Chunk>, c: Chunk)
    requires (forall d :: d in kept <==> Won(parts, d)) && Newest(kept, c)
    ensures Unopposed(parts, c) && !Outdone(parts, c)
  {
    forall e | Won(parts, e) && ForkKey(e) == ForkKey(c) && Unopposed(parts, e) ensures e.timestamp <= c.timestamp {
      var i :| 0 <= i < |parts| && Newest(parts[i], e);
      assert Siblings(kept, c, e);
    }
  }

  lemma TwiceIsFlat(parts: seq<set<Chunk>>, kept: set<Chunk>, flat: seq<Chunk>, c: Chunk)
    requires DistinctForkTimes(All(parts)) && ResolvesTo(All(parts), flat)
    requires kept <= All(parts) && forall d :: d in kept <==> Won(parts, d)
    requires WinnersShown(parts) && NoStaleWins(parts) && Newest(kept, c)
    ensures c in flat
  {
    var all := All(parts);
    WinnerNotOutdone(parts, kept, c);
    assert !Superseded(all, c) && Candidate(all, c);
    assert Answers(flat, ForkKey(c));
    var l :| l in flat && ForkKey(l) == ForkKey(c);
    assert Newest(all, l) && Won(parts, l);
    assert Siblings(all, l, c) && Siblings(kept, c, l);
  }

  lemma FlatIsTwice(parts: seq<set<Chunk>>, kept: set<Chunk>, twice: seq<Chunk>, flat: seq<Chunk>, l: Chunk)
    requires DistinctForkTimes(All(parts)) && ResolvesTo(All(parts), flat) && ResolvesTo(kept, twice)
    requires kept <= All(parts) && forall d :: d in kept <==> Won(parts, d)
    requires WinnersShown(parts) && NoStaleWins(parts) && l in flat
    ensures l in twice
  {
    assert Newest(All(parts), l) && Candidate(kept, l);
    assert Answers(twice, ForkKey(l));
    var e :| e in twice && ForkKey(e) == ForkKey(l);
    assert Newest(kept, e);
    TwiceIsFlat(parts, kept, flat, e);
    assert Newest(All(parts), e) && Siblings(All(parts), l, e) && Siblings(All(parts), e, l);
  }

  /**
   * The failure is real: with a in an old epoch and its successors b, c in the new one, b is hidden by c,
   * nothing is left to hide a, and the query returns a beside c.
   */
  lemma StaleVersionReturned(a: Chunk, b: Chunk, c: Chunk)
    requires Supersedes(b, a) && Supersedes(c, b) && !a.tombstone && !b.tombstone && !c.tombstone
    requires a.id != b.id && a.id != c.id && b.id != c.id && a.supersedes.None?
    ensures a in Heads(Heads([b, c]) + Heads([a])) && c in Heads(Heads([b, c]) + Heads([a]))
    ensures a !in Heads([b, c] + [a])
  {
    hide Heads;
    assert a !in Heads([b, c] + [a]) by {
      HeadsResolve([b, c] + [a]);
      assert b in Elems([b, c] + [a]);
    }
    SuccessorHead(b, c);
    LoneHead(a);
    var pooled := Heads([b, c]) + Heads([a]);
    assert a in pooled && c in pooled && forall d :: d in pooled ==> d == a || d == c;
    UnrelatedPool(pooled, a, c);
  }

  lemma SuccessorHead(b: Chunk, c: Chunk)
    requires Supersedes(c, b) && !Supersedes(b, c) && !Supersedes(c, c) && b.id != c.id
    requires !b.tombstone && !c.tombstone && Truthy(b.supersedes) && b.supersedes != c.supersedes
    ensures forall d :: d in Heads([b, c]) <==> d == c
  {
    hide Heads;
    SetHeads([b, c], {b, c});
    assert Candidate({b, c}, c) && !Candidate({b, c}, b);
  }

  lemma LoneHead(a: Chunk)
    requires !a.tombstone && a.supersedes.None?
    ensures forall d :: d in Heads([a]) <==> d == a
  {
    hide Heads;
    SetHeads([a], {a});
    assert Candidate({a}, a);
  }

  lemma UnrelatedPool(pooled: seq<Chunk>, a: Chunk, c: Chunk)
    requires a in pooled && c in pooled && forall d :: d in pooled ==> d == a || d == c
    requires !a.tombstone && !c.tombstone && a.id != c.id && a.supersedes.None? && Truthy(c.supersedes)
    requires !Supersedes(c, a) && !Supersedes(c, c)
    ensures a in Heads(pooled) && c in Heads(pooled)
  {
    hide Heads;
    assert Elems(pooled) == {a, c};
    SetHeads(pooled, {a, c});
    assert Candidate({a, c}, a) && Candidate({a, c}, c);
  }

  /**
   * With a fork the query can also miss a current chunk: w beats its sibling l in one epoch, x in another epoch
   * supersedes w, and of the three only x is returned, where one flat store returns x and l.
   */
  lemma ForkLoserMissed(w: Chunk, l: Chunk, x: Chunk)
    requires w.supersedes.Some? && l.supersedes == w.supersedes && w.timestamp > l.timestamp && Supersedes(x, w)
    requires !w.tombstone && !l.tombstone && !x.tombstone && w.id != l.id && x.id != w.id
    requires w.supersedes.value !in {w.id, l.id, x.id} && x.id != l.id
    ensures l !in Heads(Heads([x]) + Heads([w, l])) && l in Heads([x] + [w, l])
  {
    hide Heads;
    LoserHidden([w, l], w, l);
    HeadsResolve([x]);
    assert forall c :: c in Heads([x]) ==> Newest(Elems([x]), c);
    assert l !in Heads([x]);
    HeadsResolve(Heads([x]) + Heads([w, l]));
    assert l !in Elems(Heads([x]) + Heads([w, l]));
    assert Elems([x] + [w, l]) == {x, w, l};
    SoleHead([x] + [w, l], l);
  }

  lemma LoserHidden(cs: seq<Chunk>, w: Chunk, l: Chunk)
    requires w in cs && Siblings(Elems(cs), l, w) && w.timestamp > l.timestamp
    ensures l !in Heads(cs)
  {
    HeadsResolve(cs);
  }

  lemma SoleHead(cs: seq<Chunk>, l: Chunk)
    requires Candidate(Elems(cs), l) && forall c :: Siblings(Elems(cs), l, c) ==> c == l
    ensures l in Heads(cs)
  {
    HeadsResolve(cs);
    assert Answers(Heads(cs), ForkKey(l));
    var c :| c in Heads(cs) && ForkKey(c) == ForkKey(l);
    assert Newest(Elems(cs), c);
    assert Siblings(Elems(cs), l, c);
  }

  lemma SetHeads(cs: seq<Chunk>, live: set<Chunk>)
    requires Elems(cs) == live && ForkFree(live)
    ensures forall c :: c in Heads(cs) <==> Candidate(live, c)
  {
    HeadsResolve(cs);
    ForkFreeHeads(live, Heads(cs));
  }
}
