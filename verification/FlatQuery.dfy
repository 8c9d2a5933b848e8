/**
 * What a query across epochs comes to: against one flat store holding everything, and against its own limit.
 */
module FlatQuery {
  import opened Chunks
  import opened Query
  import opened QueryApply
  import opened EpochManager
  import EpochQuery
  import Sorting

  // ----- against one flat store -----

  ghost function Matching(listings: seq<seq<Chunk>>, q: MemoryQuery, now: int, lower: string -> string): seq<set<Chunk>> {
    seq(|listings|, i requires 0 <= i < |listings| => Passing(listings[i], q, now, lower))
  }

  lemma MatchingAll(listings: seq<seq<Chunk>>, q: MemoryQuery, now: int, lower: string -> string)
    ensures EpochQuery.All(Matching(listings, q, now, lower)) == Passing(Flatten(listings), q, now, lower)
  {
    hide Matches;
    FlattenElements(listings);
    var parts := Matching(listings, q, now, lower);
    forall c ensures c in EpochQuery.All(parts) <==> c in Passing(Flatten(listings), q, now, lower) {
      if i :| 0 <= i < |parts| && c in parts[i] {
        assert c in listings[i];
      }
      if c in Passing(Flatten(listings), q, now, lower) {
        var i :| 0 <= i < |listings| && c in listings[i];
        assert c in parts[i];
      }
    }
  }

  lemma MatchingPools(listings: seq<seq<Chunk>>, answers: seq<seq<Chunk>>, q: MemoryQuery, now: int, lower: string -> string)
    requires |answers| == |listings| && q.limit.None?
    requires forall i :: 0 <= i < |listings| ==> answers[i] == ApplyQuery(listings[i], q, now, lower)
    ensures EpochQuery.Pools(Matching(listings, q, now, lower), answers, Elems(Flatten(answers)))
  {
    hide ApplyQuery, Passing, ResolvesTo;
    FlattenElements(answers);
    forall i | 0 <= i < |listings| ensures ResolvesTo(Matching(listings, q, now, lower)[i], answers[i]) {
      UnlimitedResolves(listings[i], q, now, lower);
    }
  }

  /**
   * What `Query` returns, without a limit and where no matching chunks fork, is what one flat store holding
   * everything would return, exactly when no match hidden in its own epoch supersedes one shown by another.
   * In any case it contains that answer.
   */
  lemma QueryMatchesFlatStoreIff(listings: seq<seq<Chunk>>, answers: seq<seq<Chunk>>, q: MemoryQuery, now: int, lower: string -> string)
    requires |answers| == |listings| && q.limit.None?
    requires forall i :: 0 <= i < |listings| ==> answers[i] == ApplyQuery(listings[i], q, now, lower)
    requires ForkFree(Passing(Flatten(listings), q, now, lower))
    ensures Elems(ApplyQuery(Flatten(listings), q, now, lower)) <= Elems(Heads(Flatten(answers)))
    ensures
      Elems(Heads(Flatten(answers))) == Elems(ApplyQuery(Flatten(listings), q, now, lower)) <==>
      EpochQuery.NothingHiddenSupersedes(Matching(listings, q, now, lower))
  {
    hide ApplyQuery, Passing, ResolvesTo, Heads, EpochQuery.Pools, ForkFree, EpochQuery.NothingHiddenSupersedes, EpochQuery.All,
      Flatten, Matching;
    var parts, pooled := Matching(listings, q, now, lower), Flatten(answers);
    MatchingAll(listings, q, now, lower);
    MatchingPools(listings, answers, q, now, lower);
    UnlimitedResolves(Flatten(listings), q, now, lower);
    HeadsResolve(pooled);
    EpochQuery.QueryIsFlatIff(parts, answers, Elems(pooled), Heads(pooled), ApplyQuery(Flatten(listings), q, now, lower));
  }

  /** The same with forks, as long as no two matching chunks of a fork have one timestamp. */
  lemma QueryMatchesFlatStoreWithForksIff(listings: seq<seq<Chunk>>, answers: seq<seq<Chunk>>, q: MemoryQuery, now: int, lower: string -> string)
    requires |answers| == |listings| && q.limit.None?
    requires forall i :: 0 <= i < |listings| ==> answers[i] == ApplyQuery(listings[i], q, now, lower)
    requires DistinctForkTimes(Passing(Flatten(listings), q, now, lower))
    ensures
      var parts := Matching(listings, q, now, lower);
      Elems(Heads(Flatten(answers))) == Elems(ApplyQuery(Flatten(listings), q, now, lower)) <==>
      EpochQuery.WinnersShown(parts) && EpochQuery.NoStaleWins(parts)
  {
    hide ApplyQuery, Passing, ResolvesTo, Heads, EpochQuery.Pools, EpochQuery.WinnersShown, EpochQuery.NoStaleWins, EpochQuery.All,
      Flatten, Matching;
    var parts, pooled := Matching(listings, q, now, lower), Flatten(answers);
    MatchingAll(listings, q, now, lower);
    MatchingPools(listings, answers, q, now, lower);
    UnlimitedResolves(Flatten(listings), q, now, lower);
    HeadsResolve(pooled);
    EpochQuery.QueryWithForksIsFlatIff(parts, answers, Elems(pooled), Heads(pooled), ApplyQuery(Flatten(listings), q, now, lower));
  }

  // ----- against its limit -----

  function Min(a: nat, b: nat): nat {
    if a <= b then a else b
  }

  function Sum(hs: seq<nat>): nat {
    if hs == [] then 0 else Sum(hs[..|hs| - 1]) + hs[|hs| - 1]
  }

  function Capped(hs: seq<nat>, limit: nat): (r: seq<nat>)
    ensures |r| == |hs| && forall i :: 0 <= i < |hs| ==> r[i] == Min(limit, hs[i])
  {
    seq(|hs|, i requires 0 <= i < |hs| => Min(limit, hs[i]))
  }

  predicate AtMostOnePositive(hs: seq<nat>) {
    forall i, j :: 0 <= i < j < |hs| ==> hs[i] == 0 || hs[j] == 0
  }

  lemma {:induction false} SumOfZeros(hs: seq<nat>)
    requires forall i :: 0 <= i < |hs| ==> hs[i] == 0
    ensures Sum(hs) == 0
  {
    if hs != [] {
      SumOfZeros(hs[..|hs| - 1]);
    }
  }

  lemma {:induction false} SumAtLeastOne(hs: seq<nat>, i: nat)
    requires i < |hs|
    ensures Sum(hs) >= hs[i]
  {
    if i < |hs| - 1 {
      SumAtLeastOne(hs[..|hs| - 1], i);
    }
  }

  lemma {:induction false} SumAtLeastTwo(hs: seq<nat>, i: nat, j: nat)
    requires i < j < |hs|
    ensures Sum(hs) >= hs[i] + hs[j]
  {
    if j < |hs| - 1 {
      SumAtLeastTwo(hs[..|hs| - 1], i, j);
    } else {
      SumAtLeastOne(hs[..|hs| - 1], i);
    }
  }

  lemma {:induction false} SumOfOne(hs: seq<nat>)
    requires AtMostOnePositive(hs)
    ensures Sum(hs) == 0 || exists i :: 0 <= i < |hs| && Sum(hs) == hs[i]
  {
    if hs != [] {
      var init, last := hs[..|hs| - 1], hs[|hs| - 1];
      if last == 0 {
        SumOfOne(init);
        if i :| 0 <= i < |init| && Sum(init) == init[i] {
          assert hs[i] == init[i];
        }
      } else {
        SumOfZeros(init);
        assert Sum(hs) == hs[|hs| - 1];
      }
    }
  }

  lemma {:induction false} SumGrows(hs: seq<nat>, limit: nat)
    ensures Sum(Capped(hs, limit)) <= Sum(hs)
    ensures (forall i :: 0 <= i < |hs| ==> hs[i] <= limit) ==> Sum(Capped(hs, limit)) == Sum(hs)
  {
    if hs != [] {
      SumGrows(hs[..|hs| - 1], limit);
      assert Capped(hs, limit)[..|hs| - 1] == Capped(hs[..|hs| - 1], limit);
    }
  }

  /** Capping each number keeps the sum below the cap only if the sum was below it, or one number made it up alone. */
  lemma CappedSumIff(hs: seq<nat>, limit: nat)
    requires limit > 0
    ensures Sum(Capped(hs, limit)) <= limit <==> Sum(hs) <= limit || AtMostOnePositive(hs)
  {
    var capped := Capped(hs, limit);
    SumGrows(hs, limit);
    if AtMostOnePositive(hs) {
      SumOfOne(capped);
    } else {
      var i, j :| 0 <= i < j < |hs| && hs[i] > 0 && hs[j] > 0;
      if k :| 0 <= k < |hs| && hs[k] > limit {
        if k < i {
          SumAtLeastTwo(capped, k, i);
        } else if k == i {
          SumAtLeastTwo(capped, i, j);
        } else {
          SumAtLeastTwo(capped, i, k);
        }
      }
    }
  }

  /** How many heads each epoch has among its matches. */
  function HeadCounts(listings: seq<seq<Chunk>>, q: MemoryQuery, now: int, lower: string -> string): seq<nat> {
    seq(|listings|, i requires 0 <= i < |listings| => |Heads(Filter(listings[i], q, now, lower))|)
  }

  /** Chunks of different forks that do not supersede each other are all heads, in their order. */
  lemma UnrelatedHeads(cs: seq<Chunk>)
    requires forall c, d :: c in cs && d in cs ==> !c.tombstone && !Supersedes(d, c)
    requires forall i, j :: 0 <= i < j < |cs| ==> ForkKey(cs[i]) != ForkKey(cs[j])
    ensures Heads(cs) == cs
  {
    forall c | c in cs ensures c.id !in SupersededIds(cs) {
      assert forall d :: d in cs && Truthy(d.supersedes) ==> d.supersedes.value != c.id;
    }
    AllCandidates(cs, SupersededIds(cs));
    DistinctKeysKept(cs);
    KeysHaveGroups(cs);
    forall i | 0 <= i < |cs| ensures Heads(cs)[i] == cs[i] {
      SingletonWinner(cs, i);
    }
  }

  predicate DistinctForks(cs: seq<Chunk>) {
    forall i, j :: 0 <= i < j < |cs| ==> ForkKey(cs[i]) != ForkKey(cs[j])
  }

  /** An epoch's answer has as many chunks as it has heads, or the limit if that is less. */
  lemma LimitedAnswer(cs: seq<Chunk>, q: MemoryQuery, now: int, lower: string -> string)
    requires q.limit.Some? && q.limit.value > 0
    ensures |ApplyQuery(cs, q, now, lower)| == Min(q.limit.value, |Heads(Filter(cs, q, now, lower))|)
  {
    var heads := Heads(Filter(cs, q, now, lower));
    Sorting.SortContents(heads, Newness);
    hide Heads, Filter;
  }

  /** An epoch's answer has one chunk a fork, whatever the limit. */
  lemma AnswerForks(cs: seq<Chunk>, q: MemoryQuery, now: int, lower: string -> string)
    ensures
      var r := ApplyQuery(cs, q, now, lower);
      DistinctForks(r) && forall c :: c in r ==> Candidate(Passing(cs, q, now, lower), c)
  {
    var heads, r := Heads(Filter(cs, q, now, lower)), ApplyQuery(cs, q, now, lower);
    HeadsResolve(Filter(cs, q, now, lower));
    Sorting.SortContents(heads, Newness);
    QueryAnswer(cs, q, now, lower);
    hide Heads, Filter, Passing, Matches;
    var sorted := Sorting.Sort(heads, Newness);
    forall i, j | 0 <= i < j < |r| ensures ForkKey(r[i]) != ForkKey(r[j]) {
      Sorting.NoDuplicatesKept(heads, sorted, i, j);
      Sorting.SortElements(heads, Newness, sorted[i]);
      Sorting.SortElements(heads, Newness, sorted[j]);
    }
  }

  ghost predicate Unrelated(these: set<Chunk>, those: set<Chunk>) {
    forall c, d :: c in these && d in those ==> c != d && !Supersedes(d, c)
  }

  /** Matches of different epochs are different chunks, and none supersedes another. */
  ghost predicate Apart(parts: seq<set<Chunk>>) {
    forall i, j :: 0 <= i < |parts| && 0 <= j < |parts| && i != j ==> Unrelated(parts[i], parts[j])
  }

  lemma ForksApart(live: set<Chunk>, c: Chunk, d: Chunk)
    requires ForkFree(live) && c in live && d in live && c != d && !Supersedes(c, d) && !Supersedes(d, c)
    ensures ForkKey(c) != ForkKey(d)
  {
  }

  lemma {:induction false} PooledForks(parts: seq<set<Chunk>>, answers: seq<seq<Chunk>>, live: set<Chunk>)
    requires |answers| == |parts| && Apart(parts) && ForkFree(live)
    requires forall i :: 0 <= i < |parts| ==> parts[i] <= live
    requires forall i :: 0 <= i < |answers| ==> DistinctForks(answers[i])
    requires forall i :: 0 <= i < |answers| ==> forall c :: c in answers[i] ==> c in parts[i]
    ensures DistinctForks(Flatten(answers))
  {
    hide ForkFree;
    if answers != [] {
      var n := |answers| - 1;
      var before, last := Flatten(answers[..n]), answers[n];
      assert forall i :: 0 <= i < n ==> parts[..n][i] == parts[i];
      PooledForks(parts[..n], answers[..n], live);
      FlattenElements(answers[..n]);
      forall i, j | 0 <= i < |before| && 0 <= j < |last| ensures ForkKey(before[i]) != ForkKey(last[j]) {
        assert before[i] in before && last[j] in answers[n];
        var k :| 0 <= k < n && before[i] in answers[..n][k];
        assert before[i] in answers[k] && before[i] in parts[k] && last[j] in parts[n];
        assert Unrelated(parts[k], parts[n]) && Unrelated(parts[n], parts[k]);
        ForksApart(live, before[i], last[j]);
      }
    }
  }

  lemma {:induction false} FlattenLength(answers: seq<seq<Chunk>>, hs: seq<nat>)
    requires |hs| == |answers| && forall i :: 0 <= i < |hs| ==> hs[i] == |answers[i]|
    ensures |Flatten(answers)| == Sum(hs)
  {
    if answers != [] {
      FlattenLength(answers[..|answers| - 1], hs[..|hs| - 1]);
    }
  }

  /**
   * Where matches neither fork nor supersede across epochs, a limited query returns as many chunks as the epochs have
   * heads, each counted up to the limit. So the limit holds for the whole exactly when all heads together are within it,
   * or all of them are in one epoch.
   */
  lemma LimitKeptIff(listings: seq<seq<Chunk>>, answers: seq<seq<Chunk>>, q: MemoryQuery, now: int, lower: string -> string)
    requires |answers| == |listings| && q.limit.Some? && q.limit.value > 0
    requires forall i :: 0 <= i < |listings| ==> answers[i] == ApplyQuery(listings[i], q, now, lower)
    requires ForkFree(Passing(Flatten(listings), q, now, lower)) && Apart(Matching(listings, q, now, lower))
    ensures
      var r, hs := Heads(Flatten(answers)), HeadCounts(listings, q, now, lower);
      && |r| == Sum(Capped(hs, q.limit.value))
      && (|r| <= q.limit.value <==> Sum(hs) <= q.limit.value || AtMostOnePositive(hs))
  {
    hide ApplyQuery, Heads, Filter;
    var hs := HeadCounts(listings, q, now, lower);
    forall i | 0 <= i < |listings| ensures |answers[i]| == Capped(hs, q.limit.value)[i] {
      LimitedAnswer(listings[i], q, now, lower);
    }
    hide HeadCounts;
    ApartHeads(listings, answers, q, now, lower);
    FlattenLength(answers, Capped(hs, q.limit.value));
    CappedSumIff(hs, q.limit.value);
  }

  /** Then resolving the pooled answers once more changes nothing. */
  lemma ApartHeads(listings: seq<seq<Chunk>>, answers: seq<seq<Chunk>>, q: MemoryQuery, now: int, lower: string -> string)
    requires |answers| == |listings|
    requires forall i :: 0 <= i < |listings| ==> answers[i] == ApplyQuery(listings[i], q, now, lower)
    requires ForkFree(Passing(Flatten(listings), q, now, lower)) && Apart(Matching(listings, q, now, lower))
    ensures Heads(Flatten(answers)) == Flatten(answers)
  {
    hide ApplyQuery, Heads, Matches, ForkFree;
    var parts, live := Matching(listings, q, now, lower), Passing(Flatten(listings), q, now, lower);
    MatchingAll(listings, q, now, lower);
    forall i | 0 <= i < |listings|
      ensures parts[i] <= live && DistinctForks(answers[i]) && forall c :: c in answers[i] ==> Candidate(parts[i], c)
    {
      AnswerForks(listings[i], q, now, lower);
      assert forall c :: c in parts[i] ==> c in EpochQuery.All(parts);
    }
    hide Passing, Matching;
    PooledForks(parts, answers, live);
    PooledUnrelated(parts, answers);
    UnrelatedHeads(Flatten(answers));
  }

  lemma PooledUnrelated(parts: seq<set<Chunk>>, answers: seq<seq<Chunk>>)
    requires |answers| == |parts| && Apart(parts)
    requires forall i, c :: 0 <= i < |answers| && c in answers[i] ==> Candidate(parts[i], c)
    ensures forall c, d :: c in Flatten(answers) && d in Flatten(answers) ==> !c.tombstone && !Supersedes(d, c)
  {
    FlattenElements(answers);
    forall c, d | c in Flatten(answers) && d in Flatten(answers) ensures !c.tombstone && !Supersedes(d, c) {
      var i :| 0 <= i < |answers| && c in answers[i];
      var j :| 0 <= j < |answers| && d in answers[j];
      assert Candidate(parts[i], c) && Candidate(parts[j], d);
      assert i != j ==> Unrelated(parts[i], parts[j]);
    }
  }

  // ----- in general -----

  lemma {:induction false} FewKeys(hs: seq<Chunk>)
    ensures |Keys(hs)| <= |hs|
  {
    if hs != [] {
      FewKeys(hs[..|hs| - 1]);
    }
  }

  lemma {:induction false} FewCandidates(cs: seq<Chunk>, superseded: set<string>)
    ensures |Candidates(cs, superseded)| <= |cs|
  {
    if cs != [] {
      FewCandidates(cs[..|cs| - 1], superseded);
    }
  }

  /** How many epochs answer anything. */
  function Answering(answers: seq<seq<Chunk>>): nat {
    if answers == [] then 0 else Answering(answers[..|answers| - 1]) + if answers[|answers| - 1] == [] then 0 else 1
  }

  /** In any case a query returns no more than the limit for every epoch that has an answer. */
  lemma LimitBound(listings: seq<seq<Chunk>>, answers: seq<seq<Chunk>>, q: MemoryQuery, now: int, lower: string -> string)
    requires |answers| == |listings| && q.limit.Some? && q.limit.value > 0
    requires forall i :: 0 <= i < |listings| ==> answers[i] == ApplyQuery(listings[i], q, now, lower)
    ensures |Heads(Flatten(answers))| <= q.limit.value * Answering(answers)
  {
    var pool := Flatten(answers);
    FewCandidates(pool, SupersededIds(pool));
    FewKeys(Candidates(pool, SupersededIds(pool)));
    KeysHaveGroups(Candidates(pool, SupersededIds(pool)));
    forall i | 0 <= i < |answers| ensures |answers[i]| <= q.limit.value {
      QueryAnswer(listings[i], q, now, lower);
    }
    PoolBound(answers, q.limit.value);
  }

  lemma {:induction false} PoolBound(answers: seq<seq<Chunk>>, limit: nat)
    requires forall i :: 0 <= i < |answers| ==> |answers[i]| <= limit
    ensures |Flatten(answers)| <= limit * Answering(answers)
  {
    if answers != [] {
      var n := |answers| - 1;
      PoolBound(answers[..n], limit);
      var k := Answering(answers[..n]);
      assert limit * (k + 1) == limit * k + limit;
    }
  }

  /** The limit can fail: with limit 1, two unrelated matches in two epochs are both returned. */
  lemma LimitPerEpochOnly(a: Chunk, b: Chunk, q: MemoryQuery, now: int, lower: string -> string)
    requires q.limit == Some(1) && Matches(a, q, now, lower) && Matches(b, q, now, lower)
    requires a.id != b.id && a.supersedes.None? && b.supersedes.None?
    ensures |Heads(Flatten([ApplyQuery([a], q, now, lower), ApplyQuery([b], q, now, lower)]))| == 2
  {
    assert !a.tombstone && !b.tombstone;
    hide Matches, Heads, ApplyQuery, Flatten;
    OneMatch(a, q, now, lower);
    OneMatch(b, q, now, lower);
    TwoHeads(a, b);
  }

  lemma TwoHeads(a: Chunk, b: Chunk)
    requires a.id != b.id && a.supersedes.None? && b.supersedes.None? && !a.tombstone && !b.tombstone
    ensures Heads(Flatten([[a], [b]])) == [a, b]
  {
    hide Heads, Flatten;
    FlattenTwo([a], [b]);
    assert [a] + [b] == [a, b];
    UnrelatedHeads([a, b]);
  }

  lemma FlattenTwo(x: seq<Chunk>, y: seq<Chunk>)
    ensures Flatten([x, y]) == x + y
  {
    assert [x, y][..1] == [x] && [x][..0] == [];
    assert Flatten([x]) == Flatten([]) + x;
  }

  lemma OneMatch(a: Chunk, q: MemoryQuery, now: int, lower: string -> string)
    requires Matches(a, q, now, lower) && a.supersedes.None?
    ensures ApplyQuery([a], q, now, lower) == [a]
  {
    assert !a.tombstone;
    hide Matches, Heads;
    assert [a][1..] == [];
    assert Filter([a], q, now, lower) == [a];
    UnrelatedHeads([a]);
    assert Sorting.Sort<Chunk>([], Newness) == [];
    assert Sorting.Sort([a], Newness) == Sorting.Insert(a, [], Newness);
  }
}
