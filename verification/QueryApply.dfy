/** Filtering, sorting and limiting around head resolution: the query a caller sees. */
module QueryApply {
  import opened Chunks
  import opened Query
  import Sorting

  datatype MemoryQuery = MemoryQuery(
    topics: Option<seq<string>>,
    chunkType: Option<string>,
    namespace: Option<string>,
    project: Option<string>,
    peerId: Option<string>,
    collection: Option<string>,
    contentFormat: Option<string>,
    minConfidence: Option<real>,
    since: Option<int>,
    until: Option<int>,
    limit: Option<int>)

  predicate Wants<T(==)>(wanted: Option<T>, actual: Option<T>) {
    wanted.Some? ==> actual == wanted
  }

  /** `lower` stands for String.prototype.toLowerCase. */
  predicate Matches(c: Chunk, q: MemoryQuery, now: int, lower: string -> string) {
    && !c.tombstone
    && !Expired(c, now)
    && Wants(q.chunkType, Some(c.chunkType))
    && Wants(q.namespace, Some(c.namespace))
    && Wants(q.project, c.project)
    && Wants(q.peerId, Some(c.peerId))
    && Wants(q.collection, c.collection)
    && Wants(q.contentFormat, c.contentFormat)
    && (q.minConfidence.Some? ==> c.confidence >= q.minConfidence.value)
    && (q.since.Some? ==> c.timestamp >= q.since.value)
    && (q.until.Some? ==> c.timestamp <= q.until.value)
    && (q.topics.Some? ==>
          var have := set t | t in c.topic :: lower(t);
          forall t :: t in q.topics.value ==> lower(t) in have)
  }

  function Filter(cs: seq<Chunk>, q: MemoryQuery, now: int, lower: string -> string): seq<Chunk> {
    if cs == [] then []
    else (if Matches(cs[0], q, now, lower) then [cs[0]] else []) + Filter(cs[1..], q, now, lower)
  }

  function Newness(c: Chunk): int {
    -c.timestamp
  }

  function ApplyQuery(cs: seq<Chunk>, q: MemoryQuery, now: int, lower: string -> string): seq<Chunk> {
    var sorted := Sorting.Sort(Heads(Filter(cs, q, now, lower)), Newness);
    if q.limit.Some? && q.limit.value > 0 && q.limit.value < |sorted| then sorted[..q.limit.value] else sorted
  }

  lemma {:induction false} FilterMembers(cs: seq<Chunk>, q: MemoryQuery, now: int, lower: string -> string)
    ensures forall c :: c in Filter(cs, q, now, lower) <==> c in cs && Matches(c, q, now, lower)
  {
    if cs != [] {
      FilterMembers(cs[1..], q, now, lower);
      assert cs == [cs[0]] + cs[1..];
    }
  }

  /** The matching chunks of a list. */
  ghost function Passing(cs: seq<Chunk>, q: MemoryQuery, now: int, lower: string -> string): set<Chunk> {
    set c | c in cs && Matches(c, q, now, lower)
  }

  /**
   * A query answers with newest heads among the matching chunks, newest first, and cuts only at the limit,
   * where whatever is cut is no newer than anything kept. A superseder hides a match only if it matches too.
   */
  lemma QueryAnswer(cs: seq<Chunk>, q: MemoryQuery, now: int, lower: string -> string)
    ensures
      var r, live := ApplyQuery(cs, q, now, lower), Passing(cs, q, now, lower);
      && (forall c :: c in r ==> c in cs && Matches(c, q, now, lower) && Newest(live, c))
      && (forall c, d :: c in r && d in cs && Supersedes(d, c) ==> !Matches(d, q, now, lower))
      && (forall i, j :: 0 <= i < j < |r| ==> r[i].timestamp >= r[j].timestamp)
      && (q.limit.Some? && q.limit.value > 0 ==> |r| <= q.limit.value)
      && (q.limit.None? || q.limit.value <= 0 || |r| < q.limit.value ==> forall d :: Candidate(live, d) ==> Answers(r, ForkKey(d)))
    ensures
      var r, heads := ApplyQuery(cs, q, now, lower), Heads(Filter(cs, q, now, lower));
      forall c, h :: c in r && h in heads && h !in r ==> h.timestamp <= c.timestamp
  {
    var passing, live := Filter(cs, q, now, lower), Passing(cs, q, now, lower);
    var heads := Heads(passing);
    var sorted, r := Sorting.Sort(heads, Newness), ApplyQuery(cs, q, now, lower);
    FilterMembers(cs, q, now, lower);
    assert Elems(passing) == live;
    HeadsResolve(passing);
    Sorting.SortAscending(heads, Newness);
    forall c ensures c in sorted <==> c in heads {
      Sorting.SortElements(heads, Newness, c);
    }
    forall c | c in r ensures Newest(live, c) && c in heads {
      assert c in sorted;
    }
    forall i, j | 0 <= i < j < |r| ensures r[i].timestamp >= r[j].timestamp {
      assert Newness(sorted[i]) <= Newness(sorted[j]);
    }
    forall c, h | c in r && h in heads && h !in r ensures h.timestamp <= c.timestamp {
      assert h in sorted;
      CutIsOlder(sorted, |r|, c, h);
    }
    if r == sorted {
      forall d | Candidate(live, d) ensures Answers(r, ForkKey(d)) {
        assert Answers(heads, ForkKey(d));
        var c :| c in heads && ForkKey(c) == ForkKey(d);
        assert c in r;
      }
    }
  }

  lemma CutIsOlder(sorted: seq<Chunk>, n: nat, c: Chunk, h: Chunk)
    requires Sorting.Ascending(sorted, Newness) && n <= |sorted| && c in sorted[..n] && h in sorted && h !in sorted[..n]
    ensures h.timestamp <= c.timestamp
  {
    var i :| 0 <= i < n && sorted[..n][i] == c;
    var j :| 0 <= j < |sorted| && sorted[j] == h;
    assert j >= n;
    assert Newness(sorted[i]) <= Newness(sorted[j]);
  }

  /** Without a limit a query is a complete head resolution of the matching chunks. */
  lemma UnlimitedResolves(cs: seq<Chunk>, q: MemoryQuery, now: int, lower: string -> string)
    requires q.limit.None?
    ensures ResolvesTo(Passing(cs, q, now, lower), ApplyQuery(cs, q, now, lower))
  {
    var heads, r := Heads(Filter(cs, q, now, lower)), ApplyQuery(cs, q, now, lower);
    QueryAnswer(cs, q, now, lower);
    HeadsResolve(Filter(cs, q, now, lower));
    Sorting.SortContents(heads, Newness);
    forall i, j | 0 <= i < j < |r| ensures ForkKey(r[i]) != ForkKey(r[j]) {
      Sorting.NoDuplicatesKept(heads, r, i, j);
      Sorting.SortElements(heads, Newness, r[i]);
      Sorting.SortElements(heads, Newness, r[j]);
    }
  }

  /** Every result meets every field of the query, is no tombstone and has not expired. */
  lemma AnswerMeetsQuery(cs: seq<Chunk>, q: MemoryQuery, now: int, lower: string -> string, c: Chunk)
    requires c in ApplyQuery(cs, q, now, lower)
    ensures c in cs && !c.tombstone && (c.ttl.None? || c.ttl.value >= now)
    ensures (q.since.Some? ==> q.since.value <= c.timestamp) && (q.until.Some? ==> c.timestamp <= q.until.value)
    ensures (q.chunkType.Some? ==> c.chunkType == q.chunkType.value) && (q.namespace.Some? ==> c.namespace == q.namespace.value)
    ensures (q.peerId.Some? ==> c.peerId == q.peerId.value) && (q.project.Some? ==> c.project == Some(q.project.value))
    ensures (q.collection.Some? ==> c.collection == Some(q.collection.value))
    ensures (q.contentFormat.Some? ==> c.contentFormat == Some(q.contentFormat.value))
    ensures q.minConfidence.Some? ==> c.confidence >= q.minConfidence.value
    ensures q.topics.Some? ==> forall w :: w in q.topics.value ==> exists t :: t in c.topic && lower(t) == lower(w)
  {
    QueryAnswer(cs, q, now, lower);
    hide ApplyQuery;
    assert Matches(c, q, now, lower);
  }

  /**
   * And nothing that does is missing: a chunk that meets every field is answered, the limit permitting, if no chunk of the
   * list supersedes it or supersedes what it supersedes.
   */
  lemma MeetingQueryIsAnswered(cs: seq<Chunk>, q: MemoryQuery, now: int, lower: string -> string, c: Chunk)
    requires c in cs && !c.tombstone && (c.ttl.None? || c.ttl.value >= now)
    requires (q.since.Some? ==> q.since.value <= c.timestamp) && (q.until.Some? ==> c.timestamp <= q.until.value)
    requires (q.chunkType.Some? ==> c.chunkType == q.chunkType.value) && (q.namespace.Some? ==> c.namespace == q.namespace.value)
    requires (q.peerId.Some? ==> c.peerId == q.peerId.value) && (q.project.Some? ==> c.project == Some(q.project.value))
    requires (q.collection.Some? ==> c.collection == Some(q.collection.value))
    requires (q.contentFormat.Some? ==> c.contentFormat == Some(q.contentFormat.value))
    requires q.minConfidence.Some? ==> c.confidence >= q.minConfidence.value
    requires q.topics.Some? ==> forall w :: w in q.topics.value ==> exists t :: t in c.topic && lower(t) == lower(w)
    requires q.limit.None? || q.limit.value <= 0
    requires forall d :: d in cs ==> d.supersedes != Some(c.id)
    requires c.supersedes != Some("") && forall d :: d in cs && d != c ==> c.supersedes.None? || d.supersedes != c.supersedes
    requires forall d :: d in cs && d.id == c.id ==> d == c
    ensures c in ApplyQuery(cs, q, now, lower)
  {
    var live, r := Passing(cs, q, now, lower), ApplyQuery(cs, q, now, lower);
    assert Matches(c, q, now, lower);
    QueryAnswer(cs, q, now, lower);
    hide ApplyQuery, Matches;
    assert c in live && Candidate(live, c);
    var d :| d in r && ForkKey(d) == ForkKey(c);
    assert Candidate(live, d);
    assert !Supersedes(c, d);
  }

  ghost predicate Outdated(cs: seq<Chunk>, c: Chunk) {
    exists d :: d in cs && Supersedes(d, c)
  }

  ghost predicate OutdatedByMatch(cs: seq<Chunk>, c: Chunk, q: MemoryQuery, now: int, lower: string -> string) {
    exists d :: d in cs && Matches(d, q, now, lower) && Supersedes(d, c)
  }

  /**
   * Where no matching chunks fork, an unlimited answer is the matching chunks that no match supersedes. So it holds an
   * outdated chunk exactly when some match has superseders and none of them matches.
   */
  lemma StaleAnswerIff(cs: seq<Chunk>, q: MemoryQuery, now: int, lower: string -> string)
    requires q.limit.None? && ForkFree(Passing(cs, q, now, lower))
    ensures forall c :: c in ApplyQuery(cs, q, now, lower) <==>
                        c in cs && Matches(c, q, now, lower) && !OutdatedByMatch(cs, c, q, now, lower)
    ensures (exists c :: c in ApplyQuery(cs, q, now, lower) && Outdated(cs, c)) <==>
            (exists c :: c in cs && Matches(c, q, now, lower) && Outdated(cs, c) && !OutdatedByMatch(cs, c, q, now, lower))
  {
    hide ApplyQuery, ResolvesTo;
    var live := Passing(cs, q, now, lower);
    UnlimitedResolves(cs, q, now, lower);
    ForkFreeHeads(live, ApplyQuery(cs, q, now, lower));
    CandidateMatches(cs, q, now, lower);
    hide Matches, ForkFree;
  }

  /** `c` is a current match of its fork and no current match of that fork is newer. */
  ghost predicate NewestMatch(cs: seq<Chunk>, c: Chunk, q: MemoryQuery, now: int, lower: string -> string) {
    && c in cs && Matches(c, q, now, lower) && !OutdatedByMatch(cs, c, q, now, lower)
    && forall d :: d in cs && Matches(d, q, now, lower) && !OutdatedByMatch(cs, d, q, now, lower) && ForkKey(d) == ForkKey(c) ==>
                     d.timestamp <= c.timestamp
  }

  /**
   * With forks, as long as no two matches of one fork have the same timestamp: an unlimited answer is the newest in every
   * fork of the matches that no match supersedes. It holds an outdated chunk exactly when such a newest one has a superseder,
   * which then does not match.
   */
  lemma StaleAnswerWithForksIff(cs: seq<Chunk>, q: MemoryQuery, now: int, lower: string -> string)
    requires q.limit.None? && DistinctForkTimes(Passing(cs, q, now, lower))
    ensures forall c :: c in ApplyQuery(cs, q, now, lower) <==> NewestMatch(cs, c, q, now, lower)
    ensures (exists c :: c in ApplyQuery(cs, q, now, lower) && Outdated(cs, c)) <==>
            (exists c :: NewestMatch(cs, c, q, now, lower) && Outdated(cs, c))
  {
    hide ApplyQuery, ResolvesTo;
    var live, r := Passing(cs, q, now, lower), ApplyQuery(cs, q, now, lower);
    UnlimitedResolves(cs, q, now, lower);
    CandidateMatches(cs, q, now, lower);
    forall c ensures c in r <==> NewestMatch(cs, c, q, now, lower) {
      ResolvesToNewest(live, r, c);
      hide Passing, Matches, OutdatedByMatch;
    }
  }

  lemma CandidateMatches(cs: seq<Chunk>, q: MemoryQuery, now: int, lower: string -> string)
    ensures forall c :: Candidate(Passing(cs, q, now, lower), c) <==>
                        c in cs && Matches(c, q, now, lower) && !OutdatedByMatch(cs, c, q, now, lower)
  {
    var live := Passing(cs, q, now, lower);
    MatchesLive(cs, q, now, lower);
    hide Matches;
    forall c ensures Candidate(live, c) <==> c in cs && Matches(c, q, now, lower) && !OutdatedByMatch(cs, c, q, now, lower) {
      if c in live && OutdatedByMatch(cs, c, q, now, lower) {
        var d :| d in cs && Matches(d, q, now, lower) && Supersedes(d, c);
        assert d in live;
      }
    }
  }

  lemma MatchesLive(cs: seq<Chunk>, q: MemoryQuery, now: int, lower: string -> string)
    ensures forall c :: c in Passing(cs, q, now, lower) ==> !c.tombstone
  {
  }

  /** Filtering comes first: a superseded chunk is returned when the chunk that supersedes it does not match. */
  lemma StaleAnswer(stale: Chunk, fresher: Chunk, q: MemoryQuery, now: int, lower: string -> string)
    requires Supersedes(fresher, stale) && !Supersedes(stale, stale) && q.limit.None?
    requires Matches(stale, q, now, lower) && !Matches(fresher, q, now, lower)
    ensures ApplyQuery([stale, fresher], q, now, lower) == [stale]
  {
    assert [stale, fresher][1..] == [fresher] && [fresher][1..] == [];
    assert Filter([fresher], q, now, lower) == [];
    assert Filter([stale, fresher], q, now, lower) == [stale];
    AllCandidates([stale], SupersededIds([stale]));
    DistinctKeysKept([stale]);
    KeysHaveGroups([stale]);
    SingletonWinner([stale], 0);
    assert Heads([stale]) == [stale];
    assert [stale][1..] == [];
    assert Sorting.Sort<Chunk>([], Newness) == [];
    assert Sorting.Sort([stale], Newness) == Sorting.Insert(stale, [], Newness);
  }
}
