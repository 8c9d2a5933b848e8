/** HEAD-of-chain resolution: which chunks of a pile of versions are current. */
module Query {
  import opened Chunks

  // ----- what the answer means -----

  ghost predicate Candidate(live: set<Chunk>, c: Chunk) {
    c in live && !c.tombstone && forall d :: d in live ==> !Supersedes(d, c)
  }

  /** Two candidates with one key are siblings of a fork. */
  function ForkKey(c: Chunk): string {
    if c.supersedes.Some? then c.supersedes.value else c.id
  }

  ghost predicate Siblings(live: set<Chunk>, c: Chunk, d: Chunk) {
    Candidate(live, c) && Candidate(live, d) && ForkKey(c) == ForkKey(d)
  }

  ghost predicate Newest(live: set<Chunk>, c: Chunk) {
    Candidate(live, c) && forall d :: Siblings(live, c, d) ==> d.timestamp <= c.timestamp
  }

  ghost predicate Answers(r: seq<Chunk>, k: string) {
    exists c :: c in r && ForkKey(c) == k
  }

  /** `r` lists exactly one newest candidate of every fork of `live`. */
  ghost predicate ResolvesTo(live: set<Chunk>, r: seq<Chunk>) {
    && (forall c :: c in r ==> Newest(live, c))
    && (forall d :: Candidate(live, d) ==> Answers(r, ForkKey(d)))
    && (forall i, j :: 0 <= i < j < |r| ==> ForkKey(r[i]) != ForkKey(r[j]))
  }

  ghost predicate DistinctSiblingTimes(live: set<Chunk>) {
    forall c, d :: Siblings(live, c, d) && c.timestamp == d.timestamp ==> c == d
  }

  // ----- the computation, as functions of the input order -----

  function SupersededIds(cs: seq<Chunk>): set<string> {
    set c | c in cs && Truthy(c.supersedes) :: c.supersedes.value
  }

  function Candidates(cs: seq<Chunk>, superseded: set<string>): seq<Chunk> {
    if cs == [] then []
    else
      var c := cs[|cs| - 1];
      Candidates(cs[..|cs| - 1], superseded) + if c.id !in superseded && !c.tombstone then [c] else []
  }

  /** The fork keys in order of first appearance: a JavaScript Map iterates in insertion order. */
  function Keys(hs: seq<Chunk>): seq<string> {
    if hs == [] then []
    else
      var ks, k := Keys(hs[..|hs| - 1]), ForkKey(hs[|hs| - 1]);
      if k in ks then ks else ks + [k]
  }

  function Group(hs: seq<Chunk>, k: string): seq<Chunk> {
    if hs == [] then []
    else
      var c := hs[|hs| - 1];
      Group(hs[..|hs| - 1], k) + if ForkKey(c) == k then [c] else []
  }

  /** The first element with the highest timestamp: later ones win only when strictly newer. */
  function FirstNewest(g: seq<Chunk>): Chunk
    requires g != []
  {
    if |g| == 1 then g[0]
    else
      var best, c := FirstNewest(g[..|g| - 1]), g[|g| - 1];
      if c.timestamp > best.timestamp then c else best
  }

  lemma {:induction false} GroupMembers(hs: seq<Chunk>, k: string)
    ensures forall c :: c in Group(hs, k) <==> c in hs && ForkKey(c) == k
    ensures k in Keys(hs) <==> Group(hs, k) != []
  {
    if hs != [] {
      GroupMembers(hs[..|hs| - 1], k);
      assert hs == hs[..|hs| - 1] + [hs[|hs| - 1]];
    }
  }

  function Winners(hs: seq<Chunk>, ks: seq<string>): seq<Chunk>
    requires forall k :: k in ks ==> Group(hs, k) != []
  {
    seq(|ks|, i requires 0 <= i < |ks| => FirstNewest(Group(hs, ks[i])))
  }

  lemma KeysHaveGroups(hs: seq<Chunk>)
    ensures forall k :: k in Keys(hs) ==> Group(hs, k) != []
  {
    forall k { GroupMembers(hs, k); }
  }

  function Heads(cs: seq<Chunk>): seq<Chunk> {
    var hs := Candidates(cs, SupersededIds(cs));
    KeysHaveGroups(hs);
    Winners(hs, Keys(hs))
  }

  // ----- the loops of resolveHeads -----

  method ResolveHeads(chunks: seq<Chunk>) returns (result: seq<Chunk>)
    ensures result == Heads(chunks)
  {
    if |chunks| == 0 {
      return [];
    }
    hide Candidates, SupersededIds, Keys, Group, FirstNewest, Winners;
    var heads := CollectCandidates(chunks);
    var keys, groups := GroupByFork(heads);
    KeysHaveGroups(heads);
    result := PickWinners(heads, keys, groups);
  }

  method PickWinners(ghost heads: seq<Chunk>, keys: seq<string>, groups: map<string, seq<Chunk>>) returns (result: seq<Chunk>)
    requires forall k :: k in keys ==> k in groups && groups[k] == Group(heads, k) != []
    ensures result == Winners(heads, keys)
  {
    hide Group, FirstNewest;
    result := [];
    for i := 0 to |keys|
      invariant |result| == i
      invariant forall j :: 0 <= j < i ==> result[j] == FirstNewest(Group(heads, keys[j]))
    {
      var winner := PickWinner(groups[keys[i]]);
      result := result + [winner];
    }
  }

  /** The chunks no other chunk of the list supersedes, tombstones apart. */
  method CollectCandidates(chunks: seq<Chunk>) returns (heads: seq<Chunk>)
    ensures heads == Candidates(chunks, SupersededIds(chunks))
  {
    var supersededIds: set<string> := {};
    for i := 0 to |chunks|
      invariant supersededIds == SupersededIds(chunks[..i])
    {
      assert chunks[..i + 1] == chunks[..i] + [chunks[i]];
      if Truthy(chunks[i].supersedes) {
        supersededIds := supersededIds + {chunks[i].supersedes.value};
      }
    }
    assert chunks[..|chunks|] == chunks;
    heads := [];
    for i := 0 to |chunks|
      invariant heads == Candidates(chunks[..i], supersededIds)
    {
      assert chunks[..i + 1][..i] == chunks[..i];
      if chunks[i].id !in supersededIds && !chunks[i].tombstone {
        heads := heads + [chunks[i]];
      }
    }
  }

  lemma GroupsGrow(heads: seq<Chunk>, i: nat)
    requires i < |heads|
    ensures
      var was, key := heads[..i], ForkKey(heads[i]);
      && Keys(heads[..i + 1]) == (if key in Keys(was) then Keys(was) else Keys(was) + [key])
      && (key in Keys(was) <==> Group(was, key) != [])
      && forall k :: Group(heads[..i + 1], k) == if key == k then Group(was, k) + [heads[i]] else Group(was, k)
  {
    assert heads[..i + 1][..i] == heads[..i];
    GroupMembers(heads[..i], ForkKey(heads[i]));
  }

  ghost predicate Grouped(heads: seq<Chunk>, keys: seq<string>, groups: map<string, seq<Chunk>>) {
    && keys == Keys(heads)
    && (forall k :: k in groups <==> k in keys)
    && forall k :: k in groups ==> groups[k] == Group(heads, k)
  }

  /** `c` is put at the end of its group, whether that is new or not. */
  ghost predicate Filed(groups: map<string, seq<Chunk>>, groups': map<string, seq<Chunk>>, c: Chunk) {
    && (forall k :: k in groups' <==> k in groups || k == ForkKey(c))
    && (forall k :: k in groups && k != ForkKey(c) ==> groups'[k] == groups[k])
    && groups'[ForkKey(c)] == (if ForkKey(c) in groups then groups[ForkKey(c)] else []) + [c]
  }

  lemma GroupedOneMore(heads: seq<Chunk>, i: nat, keys: seq<string>, groups: map<string, seq<Chunk>>, groups': map<string, seq<Chunk>>)
    requires i < |heads| && Grouped(heads[..i], keys, groups) && Filed(groups, groups', heads[i])
    ensures Grouped(heads[..i + 1], if ForkKey(heads[i]) in groups then keys else keys + [ForkKey(heads[i])], groups')
  {
    hide Filed;
    GroupsGrow(heads, i);
    GroupedAfter(heads[..i], heads[i], heads[..i + 1], keys, groups, groups');
  }

  lemma GroupedAfter(was: seq<Chunk>, c: Chunk, heads: seq<Chunk>, keys: seq<string>, groups: map<string, seq<Chunk>>, groups': map<string, seq<Chunk>>)
    requires Grouped(was, keys, groups) && Filed(groups, groups', c) && (Group(was, ForkKey(c)) == [] <==> ForkKey(c) !in keys)
    requires Keys(heads) == if ForkKey(c) in keys then keys else keys + [ForkKey(c)]
    requires forall k :: Group(heads, k) == if ForkKey(c) == k then Group(was, k) + [c] else Group(was, k)
    ensures Grouped(heads, if ForkKey(c) in groups then keys else keys + [ForkKey(c)], groups')
  {
    hide Keys, Group, ForkKey;
    forall k | k in groups' ensures groups'[k] == Group(heads, k) {
      if k != ForkKey(c) {
        assert groups'[k] == groups[k];
      }
    }
  }

  /** The Map of groups, as its keys in insertion order and the groups themselves. */
  method GroupByFork(heads: seq<Chunk>) returns (keys: seq<string>, groups: map<string, seq<Chunk>>)
    ensures keys == Keys(heads) && groups.Keys == Elems(keys)
    ensures forall k :: k in groups ==> groups[k] == Group(heads, k)
  {
    keys, groups := [], map[];
    assert Grouped(heads[..0], keys, groups);
    for i := 0 to |heads|
      invariant Grouped(heads[..i], keys, groups)
    {
      hide Grouped, ForkKey, Keys, Group;
      var key := ForkKey(heads[i]);
      ghost var before, was := keys, groups;
      if key !in groups {
        keys, groups := keys + [key], groups[key := []];
      }
      groups := groups[key := groups[key] + [heads[i]]];
      assert Filed(was, groups, heads[i]);
      GroupedOneMore(heads, i, before, was, groups);
    }
    assert heads[..|heads|] == heads;
    assert groups.Keys == Elems(keys);
  }

  method PickWinner(group: seq<Chunk>) returns (best: Chunk)
    requires group != []
    ensures best == FirstNewest(group)
  {
    best := group[0];
    for j := 1 to |group|
      invariant best == FirstNewest(group[..j])
    {
      assert group[..j + 1][..j] == group[..j];
      best := if group[j].timestamp > best.timestamp then group[j] else best;
    }
    assert group[..|group|] == group;
  }

  // ----- the computation gives an answer -----

  lemma {:induction false} CandidatesMembers(cs: seq<Chunk>, superseded: set<string>)
    ensures forall c :: c in Candidates(cs, superseded) <==> c in cs && c.id !in superseded && !c.tombstone
  {
    if cs != [] {
      CandidatesMembers(cs[..|cs| - 1], superseded);
      assert cs == cs[..|cs| - 1] + [cs[|cs| - 1]];
    }
  }

  lemma CandidatesAreCandidates(cs: seq<Chunk>)
    ensures forall c :: c in Candidates(cs, SupersededIds(cs)) <==> Candidate(Elems(cs), c)
  {
    CandidatesMembers(cs, SupersededIds(cs));
    forall c ensures c in Candidates(cs, SupersededIds(cs)) <==> Candidate(Elems(cs), c) {
      if c.id in SupersededIds(cs) {
        var d :| d in cs && Truthy(d.supersedes) && d.supersedes.value == c.id;
        assert d in Elems(cs) && Supersedes(d, c);
      }
    }
  }

  lemma {:induction false} FirstNewestIsNewest(g: seq<Chunk>)
    requires g != []
    ensures FirstNewest(g) in g
    ensures forall c :: c in g ==> c.timestamp <= FirstNewest(g).timestamp
    ensures g[0].timestamp == FirstNewest(g).timestamp ==> FirstNewest(g) == g[0]
  {
    if |g| > 1 {
      FirstNewestIsNewest(g[..|g| - 1]);
      assert g == g[..|g| - 1] + [g[|g| - 1]];
    }
  }

  lemma {:induction false} KeysDistinct(hs: seq<Chunk>)
    ensures forall i, j :: 0 <= i < j < |Keys(hs)| ==> Keys(hs)[i] != Keys(hs)[j]
  {
    if hs != [] {
      KeysDistinct(hs[..|hs| - 1]);
    }
  }

  lemma WinnersKeys(hs: seq<Chunk>, i: nat)
    requires i < |Keys(hs)|
    ensures forall k :: k in Keys(hs) ==> Group(hs, k) != []
    ensures ForkKey(Winners(hs, Keys(hs))[i]) == Keys(hs)[i]
  {
    KeysHaveGroups(hs);
    GroupMembers(hs, Keys(hs)[i]);
    FirstNewestIsNewest(Group(hs, Keys(hs)[i]));
  }

  /** Whatever the input order, head resolution answers the question `ResolvesTo` asks. */
  lemma HeadsResolve(cs: seq<Chunk>)
    ensures ResolvesTo(Elems(cs), Heads(cs))
  {
    var live, hs := Elems(cs), Candidates(cs, SupersededIds(cs));
    var ks, r := Keys(hs), Heads(cs);
    CandidatesAreCandidates(cs);
    KeysHaveGroups(hs);
    KeysDistinct(hs);
    assert |r| == |ks|;
    forall i | 0 <= i < |ks| ensures ForkKey(r[i]) == ks[i] && Newest(live, r[i]) {
      WinnersKeys(hs, i);
      GroupMembers(hs, ks[i]);
      FirstNewestIsNewest(Group(hs, ks[i]));
      forall d | Siblings(live, r[i], d) ensures d.timestamp <= r[i].timestamp {
        assert d in Group(hs, ks[i]);
      }
    }
    forall d | Candidate(live, d) ensures Answers(r, ForkKey(d)) {
      GroupMembers(hs, ForkKey(d));
      assert d in Group(hs, ForkKey(d));
      var i :| 0 <= i < |ks| && ks[i] == ForkKey(d);
      assert r[i] in r;
    }
  }

  /** With no two sibling heads at the same instant there is only one answer, as a set. */
  lemma ResolutionUnique(live: set<Chunk>, r: seq<Chunk>, r': seq<Chunk>)
    requires DistinctSiblingTimes(live) && ResolvesTo(live, r) && ResolvesTo(live, r')
    ensures Elems(r) == Elems(r')
  {
    ResolutionIncluded(live, r, r');
    ResolutionIncluded(live, r', r);
  }

  lemma ResolutionIncluded(live: set<Chunk>, r: seq<Chunk>, r': seq<Chunk>)
    requires DistinctSiblingTimes(live) && ResolvesTo(live, r) && ResolvesTo(live, r')
    ensures forall c :: c in r ==> c in r'
  {
    forall c | c in r ensures c in r' {
      assert Newest(live, c) && Answers(r', ForkKey(c));
      var d :| d in r' && ForkKey(d) == ForkKey(c);
      assert Newest(live, d) && Siblings(live, c, d) && Siblings(live, d, c);
    }
  }

  // ----- idempotence -----

  lemma {:induction false} AllCandidates(cs: seq<Chunk>, superseded: set<string>)
    requires forall c :: c in cs ==> c.id !in superseded && !c.tombstone
    ensures Candidates(cs, superseded) == cs
  {
    if cs != [] {
      var init, last := cs[..|cs| - 1], cs[|cs| - 1];
      assert cs == init + [last];
      assert forall c :: c in init ==> c in cs;
      AllCandidates(init, superseded);
      assert last in cs;
    }
  }

  lemma {:induction false} DistinctKeysKept(hs: seq<Chunk>)
    requires forall i, j :: 0 <= i < j < |hs| ==> ForkKey(hs[i]) != ForkKey(hs[j])
    ensures |Keys(hs)| == |hs| && forall i :: 0 <= i < |hs| ==> Keys(hs)[i] == ForkKey(hs[i])
  {
    if hs != [] {
      DistinctKeysKept(hs[..|hs| - 1]);
    }
  }

  lemma SingletonWinner(hs: seq<Chunk>, i: nat)
    requires i < |hs|
    requires forall j :: 0 <= j < |hs| && j != i ==> ForkKey(hs[j]) != ForkKey(hs[i])
    ensures Group(hs, ForkKey(hs[i])) != [] && FirstNewest(Group(hs, ForkKey(hs[i]))) == hs[i]
  {
    GroupMembers(hs, ForkKey(hs[i]));
    FirstNewestIsNewest(Group(hs, ForkKey(hs[i])));
  }

  lemma SupersededByCandidate(cs: seq<Chunk>, r: seq<Chunk>, c: Chunk)
    requires forall d :: d in r ==> Newest(Elems(cs), d)
    requires c.id in SupersededIds(r)
    ensures !Candidate(Elems(cs), c)
  {
    var d :| d in r && Truthy(d.supersedes) && d.supersedes.value == c.id;
    assert Newest(Elems(cs), d) && Supersedes(d, c);
  }

  /** Resolving a resolved list changes nothing, not even its order. */
  lemma Idempotent(cs: seq<Chunk>)
    ensures Heads(Heads(cs)) == Heads(cs)
  {
    var r := Heads(cs);
    HeadsResolve(cs);
    forall c | c in r ensures c.id !in SupersededIds(r) && !c.tombstone {
      assert Newest(Elems(cs), c);
      if c.id in SupersededIds(r) {
        SupersededByCandidate(cs, r, c);
      }
    }
    AllCandidates(r, SupersededIds(r));
    DistinctKeysKept(r);
    KeysHaveGroups(r);
    forall i | 0 <= i < |r| ensures Heads(r)[i] == r[i] {
      SingletonWinner(r, i);
    }
  }

  // ----- input order -----

  /** The set of heads is the same for every order of the input. */
  ghost predicate OrderIrrelevant(cs: seq<Chunk>) {
    forall ds: seq<Chunk> :: multiset(ds) == multiset(cs) ==> Elems(Heads(ds)) == Elems(Heads(cs))
  }

  /** No fork has two different newest candidates. */
  ghost predicate NoTies(live: set<Chunk>) {
    forall c, d :: Newest(live, c) && Newest(live, d) && ForkKey(c) == ForkKey(d) ==> c == d
  }

  lemma SameElements(cs: seq<Chunk>, ds: seq<Chunk>)
    requires multiset(ds) == multiset(cs)
    ensures Elems(ds) == Elems(cs)
  {
    forall c ensures c in ds <==> c in cs {
      assert c in multiset(ds) <==> c in multiset(cs);
    }
  }

  lemma NoTiesIncluded(live: set<Chunk>, r: seq<Chunk>, r': seq<Chunk>)
    requires NoTies(live) && ResolvesTo(live, r) && ResolvesTo(live, r')
    ensures forall c :: c in r ==> c in r'
  {
    forall c | c in r ensures c in r' {
      assert Newest(live, c) && Answers(r', ForkKey(c));
      var d :| d in r' && ForkKey(d) == ForkKey(c);
      assert Newest(live, d);
    }
  }

  /** Moving a newest candidate to the front of the input makes it the winner of its fork. */
  lemma FrontWins(cs: seq<Chunk>, d: Chunk)
    requires cs != [] && cs[0] == d && Newest(Elems(cs), d)
    ensures d in Heads(cs)
  {
    var hs := Candidates(cs, SupersededIds(cs));
    var k := ForkKey(d);
    CandidatesAreCandidates(cs);
    CandidatesMembers(cs, SupersededIds(cs));
    assert d in hs;
    FirstCandidate(cs, SupersededIds(cs));
    GroupMembers(hs, k);
    FirstOfGroup(hs, k);
    var g := Group(hs, k);
    FirstNewestIsNewest(g);
    assert Siblings(Elems(cs), d, FirstNewest(g));
    KeysHaveGroups(hs);
    var i :| 0 <= i < |Keys(hs)| && Keys(hs)[i] == k;
    assert Heads(cs)[i] == d;
  }

  lemma {:induction false} FirstCandidate(cs: seq<Chunk>, superseded: set<string>)
    requires cs != [] && cs[0].id !in superseded && !cs[0].tombstone
    ensures Candidates(cs, superseded) != [] && Candidates(cs, superseded)[0] == cs[0]
  {
    if |cs| > 1 {
      FirstCandidate(cs[..|cs| - 1], superseded);
    } else {
      assert cs[..0] == [];
    }
  }

  lemma {:induction false} FirstOfGroup(hs: seq<Chunk>, k: string)
    requires hs != [] && ForkKey(hs[0]) == k
    ensures Group(hs, k) != [] && Group(hs, k)[0] == hs[0]
  {
    if |hs| > 1 {
      FirstOfGroup(hs[..|hs| - 1], k);
    } else {
      assert hs[..0] == [];
    }
  }

  function ToFront(cs: seq<Chunk>, j: nat): (ds: seq<Chunk>)
    requires j < |cs|
    ensures multiset(ds) == multiset(cs) && ds[0] == cs[j]
  {
    assert cs == cs[..j] + [cs[j]] + cs[j + 1..];
    [cs[j]] + cs[..j] + cs[j + 1..]
  }

  /** Input order does not matter exactly when no fork is tied; timestamps alone do not settle a tie. */
  lemma OrderIrrelevantIffNoTies(cs: seq<Chunk>)
    ensures OrderIrrelevant(cs) <==> NoTies(Elems(cs))
  {
    var live := Elems(cs);
    if NoTies(live) {
      forall ds: seq<Chunk> | multiset(ds) == multiset(cs) ensures Elems(Heads(ds)) == Elems(Heads(cs)) {
        SameElements(cs, ds);
        HeadsResolve(cs);
        HeadsResolve(ds);
        NoTiesIncluded(live, Heads(cs), Heads(ds));
        NoTiesIncluded(live, Heads(ds), Heads(cs));
      }
    }
    if OrderIrrelevant(cs) {
      forall c, d | Newest(live, c) && Newest(live, d) && ForkKey(c) == ForkKey(d) ensures c == d {
        MovedToFrontWins(cs, c);
        MovedToFrontWins(cs, d);
        assert c in Elems(Heads(cs)) && d in Elems(Heads(cs));
        HeadsResolve(cs);
      }
    }
  }

  lemma MovedToFrontWins(cs: seq<Chunk>, d: Chunk)
    requires OrderIrrelevant(cs) && Newest(Elems(cs), d)
    ensures d in Elems(Heads(cs))
  {
    var j :| 0 <= j < |cs| && cs[j] == d;
    var ds := ToFront(cs, j);
    SameElements(cs, ds);
    FrontWins(ds, d);
    assert d in Elems(Heads(ds));
  }

  // ----- coverage -----

  /** `p` walks up a version chain: each chunk is superseded by the next. */
  ghost predicate Chain(live: set<Chunk>, p: seq<Chunk>) {
    p != [] && (forall c :: c in p ==> c in live) && forall i :: 0 < i < |p| ==> Supersedes(p[i], p[i - 1])
  }

  ghost predicate Descends(live: set<Chunk>, d: Chunk, c: Chunk) {
    exists p :: Chain(live, p) && p[0] == c && p[|p| - 1] == d
  }

  ghost predicate Acyclic(live: set<Chunk>) {
    forall p :: Chain(live, p) && |p| > 1 ==> p[0] != p[|p| - 1]
  }

  ghost predicate DistinctIds(live: set<Chunk>) {
    forall c, d :: c in live && d in live && c.id == d.id ==> c == d
  }

  ghost predicate TombstoneFree(live: set<Chunk>) {
    forall c :: c in live ==> !c.tombstone
  }

  /** `c` is represented in `r` by itself or a later version, or by the winner of its own fork. */
  ghost predicate Covered(live: set<Chunk>, r: seq<Chunk>, c: Chunk) {
    exists w :: w in r && (Descends(live, w, c) || Siblings(live, c, w))
  }

  lemma ChainIsShort(live: set<Chunk>, p: seq<Chunk>)
    requires Chain(live, p) && Acyclic(live)
    ensures |p| <= |live|
  {
    forall i, j | 0 <= i < j < |p| ensures p[i] != p[j] {
      var q := p[i..j + 1];
      assert Chain(live, q) by {
        forall k | 0 < k < |q| ensures Supersedes(q[k], q[k - 1]) {
          assert q[k] == p[i + k] && q[k - 1] == p[i + k - 1];
        }
      }
      assert q[0] != q[|q| - 1];
    }
    DistinctCount(p);
    SubsetCount(Elems(p), live);
  }

  /** Every version chain ends in a candidate. */
  lemma ChainEnds(live: set<Chunk>, p: seq<Chunk>) returns (h: Chunk)
    requires Chain(live, p) && Acyclic(live) && TombstoneFree(live)
    ensures Candidate(live, h) && Descends(live, h, p[0])
    ensures h == p[0] || exists q :: Chain(live, q) && |q| > 1 && q[0] == p[0] && q[|q| - 1] == h
    decreases |live| - |p|
  {
    ChainIsShort(live, p);
    var last := p[|p| - 1];
    if d :| d in live && Supersedes(d, last) {
      assert Chain(live, p + [d]);
      ChainIsShort(live, p + [d]);
      h := ChainEnds(live, p + [d]);
    } else {
      h := last;
    }
  }

  /** No version is lost: what head resolution leaves out, something in the answer stands for. */
  lemma Coverage(live: set<Chunk>, r: seq<Chunk>, c: Chunk)
    requires ResolvesTo(live, r) && TombstoneFree(live) && Acyclic(live) && DistinctIds(live)
    requires c in live
    ensures Covered(live, r, c)
  {
    assert Chain(live, [c]);
    var h := ChainEnds(live, [c]);
    assert Answers(r, ForkKey(h));
    var w :| w in r && ForkKey(w) == ForkKey(h);
    assert Newest(live, w) && Siblings(live, h, w);
    if h != c {
      var q :| Chain(live, q) && |q| > 1 && q[0] == c && q[|q| - 1] == h;
      SiblingDescends(live, q, w);
    }
  }

  /** A sibling of the end of a chain is a descendant of the start of that chain. */
  lemma SiblingDescends(live: set<Chunk>, q: seq<Chunk>, w: Chunk)
    requires DistinctIds(live) && Chain(live, q) && |q| > 1 && Siblings(live, q[|q| - 1], w)
    ensures Descends(live, w, q[0])
  {
    var h, parent := q[|q| - 1], q[|q| - 2];
    assert Supersedes(h, parent) && parent in live;
    assert w.supersedes.None? ==> w == parent && Supersedes(h, w);
    assert Supersedes(w, parent);
    assert Chain(live, q[..|q| - 1] + [w]);
  }

  /** Nothing in the answer is out of date, and no fork is answered twice. */
  lemma AnswerIsCurrent(live: set<Chunk>, r: seq<Chunk>)
    requires ResolvesTo(live, r)
    ensures forall c, d :: c in r && d in live ==> !Supersedes(d, c)
    ensures forall i, j :: 0 <= i < j < |r| && Truthy(r[i].supersedes) ==> r[i].supersedes != r[j].supersedes
  {
    forall c, d | c in r && d in live ensures !Supersedes(d, c) {
      assert Newest(live, c);
    }
  }

  /** Two chunks superseding each other hide each other: acyclicity is needed for coverage. */
  lemma CycleHidesBoth(a: Chunk, b: Chunk)
    requires Supersedes(a, b) && Supersedes(b, a)
    ensures forall c :: c !in Heads([a, b])
  {
    HeadsResolve([a, b]);
    assert a in Elems([a, b]) && b in Elems([a, b]);
    var r := Heads([a, b]);
    assert forall c :: c in r ==> Newest(Elems([a, b]), c) && (c == a || c == b);
  }

  /**
   * A new version under an id nobody names yet, as a PATCH creates it, keeps the chains acyclic:
   * so stores written through POST and PATCH meet the premise of Coverage.
   */
  lemma FreshVersionKeepsAcyclic(live: set<Chunk>, c: Chunk)
    requires Acyclic(live) && c !in live
    requires !Supersedes(c, c) && forall d :: d in live ==> !Supersedes(d, c)
    ensures Acyclic(live + {c})
  {
    forall p | Chain(live + {c}, p) && |p| > 1 ensures p[0] != p[|p| - 1] {
      forall i | 0 <= i < |p| - 1 ensures p[i] != c {
        assert Supersedes(p[i + 1], p[i]) && p[i + 1] in live + {c};
      }
      if p[|p| - 1] != c {
        assert Chain(live, p);
      }
    }
  }

  // ----- without forks -----

  /** No two chunks supersede one id, ids are distinct, and no supersedes field is the empty string. */
  ghost predicate ForkFree(live: set<Chunk>) {
    && DistinctIds(live)
    && TombstoneFree(live)
    && (forall c, d :: c in live && d in live && c.supersedes.Some? && c.supersedes == d.supersedes ==> c == d)
    && (forall c :: c in live && c.supersedes.Some? ==> Truthy(c.supersedes))
  }

  lemma SiblingsEqual(live: set<Chunk>, c: Chunk, d: Chunk)
    requires ForkFree(live) && Siblings(live, c, d)
    ensures c == d
  {
    assert c.supersedes.Some? && d.supersedes.None? ==> Supersedes(c, d);
    assert d.supersedes.Some? && c.supersedes.None? ==> Supersedes(d, c);
  }

  /** Without forks, head resolution returns exactly the chunks nothing supersedes. */
  lemma ForkFreeHeads(live: set<Chunk>, r: seq<Chunk>)
    requires ForkFree(live) && ResolvesTo(live, r)
    ensures forall c :: c in r <==> Candidate(live, c)
  {
    forall c | Candidate(live, c) ensures c in r {
      assert Answers(r, ForkKey(c));
      var d :| d in r && ForkKey(d) == ForkKey(c);
      assert Newest(live, d);
      SiblingsEqual(live, c, d);
    }
  }

  lemma SubsetForkFree(live: set<Chunk>, sub: set<Chunk>)
    requires ForkFree(live) && sub <= live
    ensures ForkFree(sub)
  {
  }

  // ----- with forks, but without ties -----

  ghost predicate DistinctForkTimes(live: set<Chunk>) {
    forall c, d :: c in live && d in live && ForkKey(c) == ForkKey(d) && c.timestamp == d.timestamp ==> c == d
  }

  lemma ResolvesToNewest(live: set<Chunk>, r: seq<Chunk>, c: Chunk)
    requires ResolvesTo(live, r) && DistinctForkTimes(live)
    ensures c in r <==> Newest(live, c)
  {
    if Newest(live, c) {
      assert Answers(r, ForkKey(c));
      var d :| d in r && ForkKey(d) == ForkKey(c);
      assert Newest(live, d) && Siblings(live, c, d) && Siblings(live, d, c);
    }
  }
}
