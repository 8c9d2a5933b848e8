/**
 * In what order a query across epochs answers. Each epoch answers newest first; the answers are pooled epoch by epoch,
 * newest epoch first, and resolved without being sorted again.
 */
module AnswerOrder {
  import opened Chunks
  import opened Query
  import opened QueryApply
  import opened EpochManager
  import opened FlatQuery
  import EpochQuery

  predicate LatestFirst(cs: seq<Chunk>) {
    forall i, j :: 0 <= i < j < |cs| ==> cs[i].timestamp >= cs[j].timestamp
  }

  predicate NoneNewer(these: seq<Chunk>, those: seq<Chunk>) {
    forall c, d :: c in these && d in those ==> c.timestamp >= d.timestamp
  }

  /** No chunk of a later epoch is newer than one of an earlier. */
  predicate Descending(answers: seq<seq<Chunk>>) {
    forall i, j :: 0 <= i < j < |answers| ==> NoneNewer(answers[i], answers[j])
  }

  lemma InOrderParts(a: seq<Chunk>, b: seq<Chunk>)
    ensures LatestFirst(a + b) <==> LatestFirst(a) && LatestFirst(b) && NoneNewer(a, b)
  {
    var s := a + b;
    if LatestFirst(s) {
      assert forall i :: 0 <= i < |a| ==> a[i] == s[i];
      assert forall i :: 0 <= i < |b| ==> b[i] == s[|a| + i];
    }
  }

  lemma NoneNewerThanParts(blocks: seq<seq<Chunk>>, last: seq<Chunk>)
    ensures NoneNewer(Flatten(blocks), last) <==> forall i :: 0 <= i < |blocks| ==> NoneNewer(blocks[i], last)
  {
    FlattenElements(blocks);
    hide Flatten;
  }

  /** Blocks that are in order each make up a list in order exactly when they descend. */
  lemma {:induction false} FlattenInOrderIff(blocks: seq<seq<Chunk>>)
    requires forall i :: 0 <= i < |blocks| ==> LatestFirst(blocks[i])
    ensures LatestFirst(Flatten(blocks)) <==> Descending(blocks)
  {
    if blocks != [] {
      hide LatestFirst, NoneNewer;
      var n := |blocks| - 1;
      var init := blocks[..n];
      FlattenInOrderIff(init);
      InOrderParts(Flatten(init), blocks[n]);
      NoneNewerThanParts(init, blocks[n]);
    }
  }

  // ----- where no later sibling is newer, head resolution takes the first of every fork -----

  /** In every fork of the list, nothing is newer than what comes before it. */
  ghost predicate FirstWins(cs: seq<Chunk>) {
    forall i, j :: 0 <= i < j < |cs| && Siblings(Elems(cs), cs[i], cs[j]) ==> cs[i].timestamp >= cs[j].timestamp
  }

  /** The elements of `s` that are the first of their fork in `before + s`. */
  ghost function NewForks(before: seq<Chunk>, s: seq<Chunk>): seq<Chunk> {
    if s == [] then []
    else
      var init, c := s[..|s| - 1], s[|s| - 1];
      NewForks(before, init) + if Answers(before + init, ForkKey(c)) then [] else [c]
  }

  lemma {:induction false} NewForksSplit(a: seq<Chunk>, b: seq<Chunk>)
    ensures NewForks([], a + b) == NewForks([], a) + NewForks(a, b)
  {
    hide Answers, ForkKey;
    if b == [] {
      assert a + b == a;
    } else {
      var init, c := b[..|b| - 1], b[|b| - 1];
      NewForksSplit(a, init);
      assert (a + b)[..|a + b| - 1] == a + init && (a + b)[|a + b| - 1] == c;
      assert [] + (a + init) == a + init;
    }
  }

  lemma ForksBefore(init: seq<Chunk>, c: Chunk)
    ensures DistinctForks(init + [c]) <==> DistinctForks(init) && !Answers(init, ForkKey(c))
  {
    var s := init + [c];
    if DistinctForks(s) {
      assert forall i :: 0 <= i < |init| ==> init[i] == s[i];
      forall d | d in init ensures ForkKey(d) != ForkKey(c) {
        var i :| 0 <= i < |init| && s[i] == d;
        assert s[|init|] == c;
      }
    }
    if DistinctForks(init) && !Answers(init, ForkKey(c)) {
      forall i, j | 0 <= i < j < |s| ensures ForkKey(s[i]) != ForkKey(s[j]) {
        assert s[i] == init[i] && init[i] in init;
      }
    }
  }

  lemma {:induction false} NewForksMembers(before: seq<Chunk>, s: seq<Chunk>)
    ensures forall c :: c in NewForks(before, s) ==> c in s && !Answers(before, ForkKey(c))
    ensures DistinctForks(s) ==> forall c :: c in s && !Answers(before, ForkKey(c)) ==> c in NewForks(before, s)
    ensures LatestFirst(s) ==> LatestFirst(NewForks(before, s))
  {
    if s != [] {
      var init, c := s[..|s| - 1], s[|s| - 1];
      NewForksMembers(before, init);
      assert s == init + [c];
      if !Answers(before + init, ForkKey(c)) {
        forall d | d in before ensures ForkKey(d) != ForkKey(c) {
          assert d in before + init;
        }
      }
      if DistinctForks(s) {
        ForksBefore(init, c);
        if !Answers(before, ForkKey(c)) {
          assert !Answers(before + init, ForkKey(c));
        }
      }
      InOrderParts(init, [c]);
      InOrderParts(NewForks(before, init), [c]);
    }
  }

  lemma {:induction false} CandidatesInOrder(cs: seq<Chunk>, superseded: set<string>)
    ensures LatestFirst(cs) ==> LatestFirst(Candidates(cs, superseded))
    ensures DistinctForks(cs) ==> DistinctForks(Candidates(cs, superseded))
  {
    if cs != [] {
      var init, c := cs[..|cs| - 1], cs[|cs| - 1];
      var kept := Candidates(init, superseded);
      CandidatesInOrder(init, superseded);
      CandidatesMembers(init, superseded);
      assert cs == init + [c];
      assert Candidates(cs, superseded) == if c.id !in superseded && !c.tombstone then kept + [c] else kept;
      hide LatestFirst, DistinctForks, ForkKey, Candidates;
      InOrderParts(init, [c]);
      InOrderParts(kept, [c]);
      ForksBefore(init, c);
      ForksBefore(kept, c);
    }
  }

  lemma {:induction false} CandidatesJoin(a: seq<Chunk>, b: seq<Chunk>, superseded: set<string>)
    ensures Candidates(a + b, superseded) == Candidates(a, superseded) + Candidates(b, superseded)
  {
    if b == [] {
      assert a + b == a;
    } else {
      var init, c := b[..|b| - 1], b[|b| - 1];
      CandidatesJoin(a, init, superseded);
      assert (a + b)[..|a + b| - 1] == a + init && (a + b)[|a + b| - 1] == c;
    }
  }

  /** Nothing is newer than what comes before it under the same key. */
  ghost predicate NoNewer(hs: seq<Chunk>) {
    forall i, j :: 0 <= i < j < |hs| && ForkKey(hs[i]) == ForkKey(hs[j]) ==> hs[i].timestamp >= hs[j].timestamp
  }

  lemma {:induction false} CandidatesNoNewer(cs: seq<Chunk>, superseded: set<string>)
    requires forall i, j :: 0 <= i < j < |cs| && ForkKey(cs[i]) == ForkKey(cs[j])
                            && cs[i].id !in superseded && cs[j].id !in superseded && !cs[i].tombstone && !cs[j].tombstone
                            ==> cs[i].timestamp >= cs[j].timestamp
    ensures NoNewer(Candidates(cs, superseded))
  {
    if cs != [] {
      var init, c := cs[..|cs| - 1], cs[|cs| - 1];
      CandidatesNoNewer(init, superseded);
      CandidatesMembers(init, superseded);
      forall d | c.id !in superseded && !c.tombstone && d in Candidates(init, superseded) && ForkKey(d) == ForkKey(c)
        ensures d.timestamp >= c.timestamp
      {
        var i :| 0 <= i < |init| && init[i] == d;
        assert cs[i] == d;
      }
    }
  }

  lemma FirstNewestKept(g: seq<Chunk>, c: Chunk)
    requires g != [] && c.timestamp <= FirstNewest(g).timestamp
    ensures FirstNewest(g + [c]) == FirstNewest(g)
  {
    assert (g + [c])[..|g + [c]| - 1] == g;
  }

  lemma {:induction false} WinnersAreFirst(hs: seq<Chunk>)
    requires NoNewer(hs)
    ensures forall k :: k in Keys(hs) ==> Group(hs, k) != []
    ensures Winners(hs, Keys(hs)) == NewForks([], hs)
  {
    KeysHaveGroups(hs);
    if hs != [] {
      hide Keys, Group, FirstNewest, Winners, Answers;
      var init, c := hs[..|hs| - 1], hs[|hs| - 1];
      WinnersAreFirst(init);
      assert hs == init + [c];
      WinnersStep(init, c);
      assert [] + init == init;
    }
  }

  lemma KeysAnswered(hs: seq<Chunk>, k: string)
    ensures Answers(hs, k) <==> k in Keys(hs)
    ensures k in Keys(hs) <==> Group(hs, k) != []
  {
    GroupMembers(hs, k);
    hide Keys, Group;
    if Group(hs, k) != [] {
      assert Group(hs, k)[0] in hs;
    }
    if Answers(hs, k) {
      var d :| d in hs && ForkKey(d) == k;
      assert d in Group(hs, k);
    }
  }

  lemma WinnersStep(init: seq<Chunk>, c: Chunk)
    requires NoNewer(init + [c])
    ensures forall k :: k in Keys(init) ==> Group(init, k) != []
    ensures forall k :: k in Keys(init + [c]) ==> Group(init + [c], k) != []
    ensures Winners(init + [c], Keys(init + [c])) == Winners(init, Keys(init)) + if Answers(init, ForkKey(c)) then [] else [c]
  {
    var hs, key := init + [c], ForkKey(c);
    KeysHaveGroups(init);
    KeysHaveGroups(hs);
    assert hs[..|init|] == init && hs[..|init| + 1] == hs;
    GroupsGrow(hs, |init|);
    KeysAnswered(init, key);
    assert FirstNewest([c]) == c;
    if Group(init, key) != [] {
      WinnerKept(init, c);
    }
    hide Keys, Group, FirstNewest, NoNewer, Answers, Winners;
    forall k | k in Keys(init) ensures FirstNewest(Group(init, k)) == FirstNewest(Group(hs, k)) {
      assert k != key ==> Group(hs, k) == Group(init, k);
    }
    SameWinners(init, Keys(init), hs, Keys(init));
    if key !in Keys(init) {
      assert Group(hs, key) == [c];
      OneMoreWinner(hs, Keys(init), key);
    }
  }

  lemma OneMoreWinner(hs: seq<Chunk>, ks: seq<string>, k: string)
    requires Group(hs, k) != [] && forall k' :: k' in ks ==> Group(hs, k') != []
    ensures Winners(hs, ks + [k]) == Winners(hs, ks) + [FirstNewest(Group(hs, k))]
  {
    hide Group, FirstNewest;
  }

  lemma SameWinners(hs: seq<Chunk>, ks: seq<string>, hs': seq<Chunk>, ks': seq<string>)
    requires ks == ks' && forall k :: k in ks ==> Group(hs, k) != [] && Group(hs', k) != []
    requires forall k :: k in ks ==> FirstNewest(Group(hs, k)) == FirstNewest(Group(hs', k))
    ensures Winners(hs, ks) == Winners(hs', ks')
  {
    hide Group, FirstNewest;
  }

  lemma WinnerKept(init: seq<Chunk>, c: Chunk)
    requires NoNewer(init + [c]) && Group(init, ForkKey(c)) != []
    ensures FirstNewest(Group(init, ForkKey(c)) + [c]) == FirstNewest(Group(init, ForkKey(c)))
  {
    var best, hs := FirstNewest(Group(init, ForkKey(c))), init + [c];
    GroupMembers(init, ForkKey(c));
    FirstNewestIsNewest(Group(init, ForkKey(c)));
    hide Group, FirstNewest;
    var i :| 0 <= i < |init| && init[i] == best;
    assert hs[i] == best && hs[|init|] == c;
    FirstNewestKept(Group(init, ForkKey(c)), c);
  }

  // ----- the blocks of an answer -----

  /** What every epoch contributes: its candidates of the forks that no epoch before it has answered. */
  ghost function Blocks(answers: seq<seq<Chunk>>, superseded: set<string>): (r: seq<seq<Chunk>>)
    ensures |r| == |answers|
  {
    if answers == [] then []
    else
      var init := answers[..|answers| - 1];
      Blocks(init, superseded)
      + [NewForks(Candidates(Flatten(init), superseded), Candidates(answers[|answers| - 1], superseded))]
  }

  lemma {:induction false} BlocksMakeUp(answers: seq<seq<Chunk>>, superseded: set<string>)
    ensures Flatten(Blocks(answers, superseded)) == NewForks([], Candidates(Flatten(answers), superseded))
  {
    if answers != [] {
      var init, last := answers[..|answers| - 1], answers[|answers| - 1];
      var blocks := Blocks(answers, superseded);
      BlocksMakeUp(init, superseded);
      assert blocks[..|blocks| - 1] == Blocks(init, superseded);
      CandidatesJoin(Flatten(init), last, superseded);
      NewForksSplit(Candidates(Flatten(init), superseded), Candidates(last, superseded));
    }
  }

  lemma {:induction false} BlockAt(answers: seq<seq<Chunk>>, superseded: set<string>, i: nat)
    requires i < |answers|
    ensures Blocks(answers, superseded)[i] ==
            NewForks(Candidates(Flatten(answers[..i]), superseded), Candidates(answers[i], superseded))
  {
    if i < |answers| - 1 {
      var init := answers[..|answers| - 1];
      BlockAt(init, superseded, i);
      assert init[..i] == answers[..i];
    }
  }

  /** `c` is a head of the pooled answers, and epoch `i` is the first to answer its fork. */
  ghost predicate FirstShown(answers: seq<seq<Chunk>>, i: nat, c: Chunk)
    requires i < |answers|
  {
    && c in answers[i]
    && Candidate(Elems(Flatten(answers)), c)
    && forall k, d :: 0 <= k < i && d in answers[k] ==> !Siblings(Elems(Flatten(answers)), c, d)
  }

  lemma BlockIs(answers: seq<seq<Chunk>>, i: nat, c: Chunk)
    requires i < |answers| && DistinctForks(answers[i])
    ensures c in Blocks(answers, SupersededIds(Flatten(answers)))[i] <==> FirstShown(answers, i, c)
  {
    hide Flatten, Candidates, SupersededIds, Candidate, Blocks, NewForks, DistinctForks, Answers, ForkKey, LatestFirst;
    var pool, before := Flatten(answers), Flatten(answers[..i]);
    var sup := SupersededIds(pool);
    BlockAt(answers, sup, i);
    CandidatesInOrder(answers[i], sup);
    NewForksMembers(Candidates(before, sup), Candidates(answers[i], sup));
    CandidatesIn(answers, i, c);
    EarlierForks(answers, i, ForkKey(c));
    if k, d :| 0 <= k < i && d in answers[k] && Candidate(Elems(pool), d) && ForkKey(d) == ForkKey(c) {
      assert FirstShown(answers, i, c) ==> !Siblings(Elems(pool), c, d);
    }
  }

  lemma CandidatesIn(answers: seq<seq<Chunk>>, i: nat, c: Chunk)
    requires i < |answers|
    ensures c in Candidates(answers[i], SupersededIds(Flatten(answers))) <==> c in answers[i] && Candidate(Elems(Flatten(answers)), c)
  {
    var pool := Flatten(answers);
    CandidatesMembers(answers[i], SupersededIds(pool));
    CandidatesMembers(pool, SupersededIds(pool));
    CandidatesAreCandidates(pool);
    FlattenElements(answers);
    hide Flatten, Candidates, SupersededIds, Candidate;
    if c in answers[i] {
      assert c in pool;
    }
  }

  lemma EarlierForks(answers: seq<seq<Chunk>>, i: nat, key: string)
    requires i <= |answers|
    ensures Answers(Candidates(Flatten(answers[..i]), SupersededIds(Flatten(answers))), key) <==>
            exists k, d :: 0 <= k < i && d in answers[k] && Candidate(Elems(Flatten(answers)), d) && ForkKey(d) == key
  {
    var pool, before := Flatten(answers), Flatten(answers[..i]);
    var sup := SupersededIds(pool);
    CandidatesMembers(before, sup);
    CandidatesMembers(pool, sup);
    CandidatesAreCandidates(pool);
    forall d ensures d in before <==> exists k :: 0 <= k < i && d in answers[k] {
      FlattenElements(answers[..i]);
      if k :| 0 <= k < i && d in answers[k] {
        assert d in answers[..i][k];
      }
      if d in before {
        var k :| 0 <= k < i && d in answers[..i][k];
        assert d in answers[k];
      }
    }
    FlattenElements(answers);
    hide Flatten, Candidates, SupersededIds, Candidate, ForkKey;
    forall d | d in before ensures d in pool {
    }
  }

  // ----- newest first -----

  /** A query whose epochs are asked newest first: the answers of the epochs. */
  ghost predicate AnswersTo(answers: seq<seq<Chunk>>, listings: seq<seq<Chunk>>, q: MemoryQuery, now: int, lower: string -> string) {
    && |answers| == |listings|
    && forall i :: 0 <= i < |listings| ==> answers[i] == ApplyQuery(listings[i], q, now, lower)
  }

  lemma AnswersInOrder(answers: seq<seq<Chunk>>, listings: seq<seq<Chunk>>, q: MemoryQuery, now: int, lower: string -> string, i: nat)
    requires AnswersTo(answers, listings, q, now, lower) && i < |answers|
    ensures LatestFirst(answers[i]) && DistinctForks(answers[i])
  {
    QueryAnswer(listings[i], q, now, lower);
    AnswerForks(listings[i], q, now, lower);
  }

  /**
   * As long as no epoch holds a newer sibling of a fork that one before it answers, the whole answer consists of one
   * block an epoch, each newest first. So the whole is newest first, as a query promises, exactly when nothing that
   * a later epoch is the first to show is newer than what an earlier one is the first to show.
   */
  lemma NewestFirstIff(answers: seq<seq<Chunk>>, listings: seq<seq<Chunk>>, q: MemoryQuery, now: int, lower: string -> string)
    requires AnswersTo(answers, listings, q, now, lower) && FirstWins(Flatten(answers))
    ensures
      var blocks := Blocks(answers, SupersededIds(Flatten(answers)));
      && Heads(Flatten(answers)) == Flatten(blocks)
      && forall i :: 0 <= i < |answers| ==> LatestFirst(blocks[i]) && forall c :: c in blocks[i] <==> FirstShown(answers, i, c)
    ensures
      LatestFirst(Heads(Flatten(answers))) <==>
      forall i, j, c, d :: 0 <= i < j < |answers| && FirstShown(answers, i, c) && FirstShown(answers, j, d) ==> c.timestamp >= d.timestamp
  {
    var pool := Flatten(answers);
    var sup := SupersededIds(pool);
    var blocks := Blocks(answers, sup);
    PoolHeads(pool);
    BlocksMakeUp(answers, sup);
    forall i | 0 <= i < |answers| ensures LatestFirst(blocks[i]) && forall c :: c in blocks[i] <==> FirstShown(answers, i, c) {
      AnswersInOrder(answers, listings, q, now, lower, i);
      BlockAt(answers, sup, i);
      CandidatesInOrder(answers[i], sup);
      NewForksMembers(Candidates(Flatten(answers[..i]), sup), Candidates(answers[i], sup));
      forall c ensures c in blocks[i] <==> FirstShown(answers, i, c) {
        BlockIs(answers, i, c);
      }
    }
    FlattenInOrderIff(blocks);
    hide Flatten, Heads, LatestFirst, FirstShown, Blocks, SupersededIds;
    if Descending(blocks) {
      forall i, j, c, d | 0 <= i < j < |answers| && FirstShown(answers, i, c) && FirstShown(answers, j, d)
        ensures c.timestamp >= d.timestamp
      {
        assert NoneNewer(blocks[i], blocks[j]);
      }
    }
  }

  lemma PoolHeads(pool: seq<Chunk>)
    requires FirstWins(pool)
    ensures Heads(pool) == NewForks([], Candidates(pool, SupersededIds(pool)))
  {
    var sup := SupersededIds(pool);
    CandidatesMembers(pool, sup);
    CandidatesAreCandidates(pool);
    forall i, j | 0 <= i < j < |pool| && ForkKey(pool[i]) == ForkKey(pool[j])
                  && pool[i].id !in sup && pool[j].id !in sup && !pool[i].tombstone && !pool[j].tombstone
      ensures pool[i].timestamp >= pool[j].timestamp
    {
      assert pool[i] in Candidates(pool, sup) && pool[j] in Candidates(pool, sup);
      assert Siblings(Elems(pool), pool[i], pool[j]);
    }
    CandidatesNoNewer(pool, sup);
    WinnersAreFirst(Candidates(pool, sup));
  }

  /** Whatever forks or is superseded: if the epochs' answers descend, the whole answer is newest first. */
  lemma DescendingSuffices(answers: seq<seq<Chunk>>, listings: seq<seq<Chunk>>, q: MemoryQuery, now: int, lower: string -> string)
    requires AnswersTo(answers, listings, q, now, lower) && Descending(answers)
    ensures LatestFirst(Heads(Flatten(answers)))
  {
    forall i | 0 <= i < |answers| ensures LatestFirst(answers[i]) {
      AnswersInOrder(answers, listings, q, now, lower, i);
    }
    FlattenInOrderIff(answers);
    NewestFirstIff(answers, listings, q, now, lower);
  }

  /**
   * Where matches neither fork nor supersede across epochs, that is also necessary: the whole answer is newest first
   * exactly when no chunk of a later epoch's answer is newer than one of an earlier.
   */
  lemma DescendingIff(answers: seq<seq<Chunk>>, listings: seq<seq<Chunk>>, q: MemoryQuery, now: int, lower: string -> string)
    requires AnswersTo(answers, listings, q, now, lower)
    requires ForkFree(Passing(Flatten(listings), q, now, lower)) && Apart(Matching(listings, q, now, lower))
    ensures LatestFirst(Heads(Flatten(answers))) <==> Descending(answers)
  {
    forall i | 0 <= i < |answers| ensures LatestFirst(answers[i]) {
      AnswersInOrder(answers, listings, q, now, lower, i);
    }
    ApartHeads(listings, answers, q, now, lower);
    FlattenInOrderIff(answers);
  }

  /** Without forks among the matches nothing is displaced, copies of one chunk in several epochs included. */
  lemma ForkFreeFirstWins(answers: seq<seq<Chunk>>, listings: seq<seq<Chunk>>, q: MemoryQuery, now: int, lower: string -> string)
    requires AnswersTo(answers, listings, q, now, lower) && ForkFree(Passing(Flatten(listings), q, now, lower))
    ensures FirstWins(Flatten(answers))
  {
    hide ApplyQuery, Matches;
    var live, pool := Passing(Flatten(listings), q, now, lower), Flatten(answers);
    FlattenElements(answers);
    FlattenElements(listings);
    forall c | c in pool ensures c in live {
      var i :| 0 <= i < |answers| && c in answers[i];
      AnswerForks(listings[i], q, now, lower);
      assert c in listings[i];
    }
    hide Flatten, Passing;
    SubsetForkFree(live, Elems(pool));
    forall c, d | Siblings(Elems(pool), c, d) ensures c == d {
      SiblingsEqual(Elems(pool), c, d);
    }
  }

  /**
   * It fails when a newer epoch holds an older match, which rotations bring about: they copy the old
   * unexpired chunks into the newest epoch. Two unrelated matches then come oldest first.
   */
  lemma OldestFirst(a: Chunk, b: Chunk, q: MemoryQuery, now: int, lower: string -> string)
    requires Matches(a, q, now, lower) && Matches(b, q, now, lower) && a.timestamp < b.timestamp
    requires a.id != b.id && a.supersedes.None? && b.supersedes.None?
    ensures Heads(Flatten([ApplyQuery([a], q, now, lower), ApplyQuery([b], q, now, lower)])) == [a, b]
    ensures !LatestFirst([a, b])
  {
    assert !a.tombstone && !b.tombstone;
    assert !LatestFirst([a, b]) by {
      assert [a, b][0] == a && [a, b][1] == b;
    }
    hide Matches, Heads, ApplyQuery, Flatten, LatestFirst;
    OneMatch(a, q, now, lower);
    OneMatch(b, q, now, lower);
    TwoHeads(a, b);
  }
}
