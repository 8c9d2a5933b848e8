/** Garbage collection of expired chunks, and the scheduler tick that pairs it with rotation and drop. */
module Gc {
  import opened Chunks
  import opened Query
  import opened Epochs
  import opened EpochTime
  import opened EpochManager
  import EpochOrder
  import Loro

  // ----- what one run does -----

  /** The live entries, as epoch and id. */
  ghost function LivePairs(es: Epochs): set<(string, string)> {
    set e, k | e in es && k in es[e] && !es[e][k].tombstone :: (e, k)
  }

  /** Everything live in `es'` was live, with the same content, in `es`. */
  ghost predicate Within(es': Epochs, es: Epochs) {
    forall e, k :: LiveIn(es', e, k) ==> LiveIn(es, e, k) && es'[e][k] == es[e][k]
  }

  /** The ids a run forgets: those of the expired chunks of the listing. */
  ghost function ForgottenIds(r: seq<Chunk>, now: int): set<string> {
    set c | c in r && Expired(c, now) :: c.id
  }

  function ExpiredCount(r: seq<Chunk>, now: int): nat {
    if r == [] then 0 else ExpiredCount(r[..|r| - 1], now) + if Expired(r[|r| - 1], now) then 1 else 0
  }

  /** A newest epoch with a live copy, for every one of the ids. */
  ghost predicate Graves(es: Epochs, cfg: Config, graves: map<string, string>, ids: set<string>) {
    graves.Keys == ids && forall k :: k in graves ==> NewestLive(es, cfg, graves[k], k)
  }

  /** Every id has a tombstone in its grave; everything else is as it was. */
  ghost function Buried(es: Epochs, graves: map<string, string>, now: int): Epochs {
    map e | e in es :: map k | k in es[e] :: if k in graves && graves[k] == e then Loro.Tombstone(k, now) else es[e][k]
  }

  /** One run on the listing `r`: exactly its expired chunks are tombstoned, each in one newest epoch where it is live. */
  ghost predicate Collects(es: Epochs, es': Epochs, cfg: Config, r: seq<Chunk>, now: int, pruned: nat) {
    && ResolvesTo(LiveSet(es), r)
    && pruned == ExpiredCount(r, now) == |ForgottenIds(r, now)|
    && exists graves :: Graves(es, cfg, graves, ForgottenIds(r, now)) && es' == Buried(es, graves, now)
  }

  lemma BuriedLive(es: Epochs, graves: map<string, string>, now: int, e: string, k: string)
    ensures LiveIn(Buried(es, graves, now), e, k) <==> LiveIn(es, e, k) && !(k in graves && graves[k] == e)
    ensures LiveIn(Buried(es, graves, now), e, k) ==> Buried(es, graves, now)[e][k] == es[e][k]
  {
  }

  lemma BuryNothing(es: Epochs, now: int)
    ensures Buried(es, map[], now) == es
  {
    assert forall e :: e in es ==> Buried(es, map[], now)[e] == es[e];
  }

  /** One more forget digs one more grave. */
  lemma BuryOneMore(es: Epochs, cfg: Config, graves: map<string, string>, done: set<string>, es2: Epochs, current: string, id: string, now: int)
    returns (graves': map<string, string>)
    requires Graves(es, cfg, graves, done) && id !in done && Readable(es, id)
    requires ForgetsTo(Buried(es, graves, now), es2, cfg, current, id, now)
    ensures Graves(es, cfg, graves', done + {id}) && es2 == Buried(es, graves', now)
  {
    hide Start, Buried;
    var es1 := Buried(es, graves, now);
    forall e ensures LiveIn(es1, e, id) <==> LiveIn(es, e, id) {
      BuriedLive(es, graves, now, e, id);
    }
    hide LiveIn;
    var e :| LiveIn(es, e, id);
    assert Readable(es1, id);
    var f :| NewestLive(es1, cfg, f, id) && f in es1 && es2 == es1[f := es1[f][id := Loro.Tombstone(id, now)]];
    assert NewestLive(es, cfg, f, id);
    graves' := graves[id := f];
    BuriedUpdate(es, graves, id, f, now);
  }

  lemma BuriedEntry(es: Epochs, graves: map<string, string>, id: string, f: string, now: int, e: string)
    requires id !in graves && LiveIn(es, f, id) && e in es
    ensures
      var was := Buried(es, graves, now)[e];
      Buried(es, graves[id := f], now)[e] == if e == f then was[id := Loro.Tombstone(id, now)] else was
  {
    var left, was := Buried(es, graves[id := f], now)[e], Buried(es, graves, now)[e];
    assert left.Keys == es[e].Keys == was.Keys;
  }

  lemma BuriedUpdate(es: Epochs, graves: map<string, string>, id: string, f: string, now: int)
    requires id !in graves && LiveIn(es, f, id)
    ensures
      var es1 := Buried(es, graves, now);
      f in es1 && Buried(es, graves[id := f], now) == es1[f := es1[f][id := Loro.Tombstone(id, now)]]
  {
    var left, es1 := Buried(es, graves[id := f], now), Buried(es, graves, now);
    assert left.Keys == es.Keys == es1.Keys;
    forall e | e in es ensures left[e] == if e == f then es1[e][id := Loro.Tombstone(id, now)] else es1[e] {
      BuriedEntry(es, graves, id, f, now, e);
    }
    hide Buried, LiveIn;
    OneEntryApart(left, es1, f, es1[f][id := Loro.Tombstone(id, now)]);
  }

  lemma OneEntryApart(left: Epochs, right: Epochs, f: string, v: View)
    requires f in right && left.Keys == right.Keys && forall e :: e in right ==> left[e] == if e == f then v else right[e]
    ensures left == right[f := v]
  {
  }

  lemma PairsAndLive(es: Epochs, e: string, k: string)
    ensures (e, k) in LivePairs(es) <==> LiveIn(es, e, k)
  {
  }

  ghost function GravePairs(graves: map<string, string>): set<(string, string)> {
    set k | k in graves :: (graves[k], k)
  }

  lemma GravePair(graves: map<string, string>, e: string, k: string)
    ensures (e, k) in GravePairs(graves) <==> k in graves && graves[k] == e
  {
  }

  lemma {:induction false} GravePairsCount(graves: map<string, string>)
    ensures |GravePairs(graves)| == |graves|
    decreases |graves|
  {
    if k :| k in graves {
      var rest := graves - {k};
      GravePairsCount(rest);
      forall p ensures p in GravePairs(graves) <==> p in GravePairs(rest) || p == (graves[k], k) {
        GravePair(graves, p.0, p.1);
        GravePair(rest, p.0, p.1);
      }
      GravePair(rest, graves[k], k);
      assert GravePairs(graves) == GravePairs(rest) + {(graves[k], k)};
      assert rest.Keys == graves.Keys - {k} && |rest.Keys| == |rest| && |graves.Keys| == |graves|;
    } else {
      assert graves == map[];
    }
  }

  /** Every grave costs one live entry. */
  lemma BuriedCount(es: Epochs, cfg: Config, graves: map<string, string>, ids: set<string>, now: int)
    requires Graves(es, cfg, graves, ids)
    ensures |LivePairs(Buried(es, graves, now))| + |ids| == |LivePairs(es)|
  {
    hide Start, Buried;
    var before, after, gone := LivePairs(es), LivePairs(Buried(es, graves, now)), GravePairs(graves);
    GravePairsCount(graves);
    assert |graves| == |graves.Keys|;
    forall p ensures p in after <==> p in before - gone {
      BuriedLive(es, graves, now, p.0, p.1);
      PairsAndLive(es, p.0, p.1);
      PairsAndLive(Buried(es, graves, now), p.0, p.1);
    }
    forall p | p in gone ensures p in before {
      PairsAndLive(es, p.0, p.1);
    }
    assert after == before - gone && gone <= before;
  }

  /** Heads have distinct ids, as long as an id has one content. */
  lemma HeadIdsDistinct(es: Epochs, r: seq<Chunk>, i: nat, j: nat)
    requires Keyed(es) && OneContent(es) && ResolvesTo(LiveSet(es), r) && i < j < |r|
    ensures r[i].id != r[j].id
  {
    hide Start;
    assert r[i] in r && r[j] in r;
    assert Newest(LiveSet(es), r[i]) && Newest(LiveSet(es), r[j]);
    var e := LiveSomewhere(es, r[i]);
    var f := LiveSomewhere(es, r[j]);
  }

  lemma LiveSomewhere(es: Epochs, c: Chunk) returns (e: string)
    requires Keyed(es) && c in LiveSet(es)
    ensures LiveIn(es, e, c.id) && es[e][c.id] == c
  {
    var f, k :| f in es && k in es[f] && !es[f][k].tombstone && es[f][k] == c;
    e := f;
  }

  lemma ForgottenIdsStep(r: seq<Chunk>, i: nat, now: int)
    requires i < |r|
    ensures ForgottenIds(r[..i + 1], now) == ForgottenIds(r[..i], now) + if Expired(r[i], now) then {r[i].id} else {}
    ensures ExpiredCount(r[..i + 1], now) == ExpiredCount(r[..i], now) + if Expired(r[i], now) then 1 else 0
  {
    assert r[..i + 1] == r[..i] + [r[i]];
  }

  lemma FreshId(es: Epochs, r: seq<Chunk>, i: nat, now: int)
    requires Keyed(es) && OneContent(es) && ResolvesTo(LiveSet(es), r) && i < |r|
    ensures r[i].id !in ForgottenIds(r[..i], now) && Readable(es, r[i].id) && !r[i].tombstone
  {
    forall j | 0 <= j < i ensures r[j].id != r[i].id {
      HeadIdsDistinct(es, r, j, i);
    }
    assert Newest(LiveSet(es), r[i]);
    var e := LiveSomewhere(es, r[i]);
  }

  /** How far a run has come. */
  ghost predicate Dug(es: Epochs, es': Epochs, cfg: Config, graves: map<string, string>, r: seq<Chunk>, i: nat, now: int, pruned: nat)
    requires i <= |r|
  {
    && Graves(es, cfg, graves, ForgottenIds(r[..i], now))
    && es' == Buried(es, graves, now)
    && pruned == ExpiredCount(r[..i], now) == |ForgottenIds(r[..i], now)|
  }

  lemma DugStart(es: Epochs, cfg: Config, r: seq<Chunk>, now: int)
    ensures Dug(es, es, cfg, map[], r, 0, now, 0)
  {
    BuryNothing(es, now);
    assert ForgottenIds(r[..0], now) == {};
  }

  lemma DugSkip(es: Epochs, es': Epochs, cfg: Config, graves: map<string, string>, r: seq<Chunk>, i: nat, now: int, pruned: nat)
    requires i < |r| && Dug(es, es', cfg, graves, r, i, now, pruned) && !Expired(r[i], now)
    ensures Dug(es, es', cfg, graves, r, i + 1, now, pruned)
  {
    hide Graves, Buried;
    ForgottenIdsStep(r, i, now);
  }

  lemma DugMore(es: Epochs, es1: Epochs, es2: Epochs, cfg: Config, graves: map<string, string>, r: seq<Chunk>, i: nat, now: int, pruned: nat, current: string)
    returns (graves': map<string, string>)
    requires Keyed(es) && OneContent(es) && ResolvesTo(LiveSet(es), r)
    requires i < |r| && Dug(es, es1, cfg, graves, r, i, now, pruned) && Expired(r[i], now)
    requires ForgetsTo(es1, es2, cfg, current, r[i].id, now)
    ensures Dug(es, es2, cfg, graves', r, i + 1, now, pruned + 1)
  {
    hide Buried, Graves, ForgetsTo, Readable, OneContent, ResolvesTo, LiveSet;
    FreshId(es, r, i, now);
    ForgottenIdsStep(r, i, now);
    graves' := BuryOneMore(es, cfg, graves, ForgottenIds(r[..i], now), es2, current, r[i].id, now);
  }

  /**
   * Tombstones every expired head of the listing, and counts them. A run that prunes nothing leaves the store as it was,
   * and then the listing holds no expired chunk.
   */
  method RunGC(store: LoroEpochManager, now: int) returns (pruned: nat, ghost r: seq<Chunk>)
    requires store.Valid() && store.Open() && OneContent(store.Model())
    modifies store.epochs.Values
    ensures store.Valid() && store.Open()
    ensures r == old(store.Shown()) && Collects(old(store.Model()), store.Model(), store.config, r, now, pruned)
    ensures pruned == 0 ==> store.Model() == old(store.Model()) && store.Shown() == r && forall c :: c in r ==> !Expired(c, now)
    ensures PrunesByTtl(old(store.Model()), store.Model(), store.config, r, now, pruned)
  {
    hide Start, LiveSet, ForgetsTo, OneContent, ResolvesTo, Dug, Readable, Keyed, ListedBy, ExpiredCount, Graves, Buried, ForgottenIds, Expired, Collects,
      PrunesByTtl, LoroEpochManager.Valid, LoroEpochManager.Model, LoroEpochManager.Shown;
    ghost var es := store.Model();
    store.ModelKeyed();
    var all := store.List();
    r := all;
    pruned := 0;
    ghost var graves: map<string, string> := map[];
    DugStart(es, store.config, all, now);
    for i := 0 to |all|
      invariant store.Valid() && store.Open()
      invariant Dug(es, store.Model(), store.config, graves, all, i, now, pruned)
      invariant pruned == 0 ==> store.Model() == es && store.Shown() == r
    {
      var chunk := all[i];
      FreshId(es, all, i, now);
      if chunk.tombstone {
        continue;
      }
      if Expired(chunk, now) {
        ghost var before := store.Model();
        Forgettable(es, before, store.config, graves, all, i, now, pruned);
        var _ := store.Forget(chunk.id, now);
        graves := DugMore(es, before, store.Model(), store.config, graves, all, i, now, pruned, store.currentEpochId);
        pruned := pruned + 1;
      } else {
        DugSkip(es, store.Model(), store.config, graves, all, i, now, pruned);
      }
    }
    DugAll(es, store.Model(), store.config, graves, all, now, pruned);
    CollectsByTtl(es, store.Model(), store.config, all, now, pruned);
  }

  lemma Forgettable(es: Epochs, es1: Epochs, cfg: Config, graves: map<string, string>, r: seq<Chunk>, i: nat, now: int, pruned: nat)
    requires i < |r| && Dug(es, es1, cfg, graves, r, i, now, pruned)
    requires Readable(es, r[i].id) && r[i].id !in ForgottenIds(r[..i], now)
    ensures Readable(es1, r[i].id)
  {
    var e :| LiveIn(es, e, r[i].id);
    BuriedLive(es, graves, now, e, r[i].id);
  }

  lemma DugAll(es: Epochs, es': Epochs, cfg: Config, graves: map<string, string>, r: seq<Chunk>, now: int, pruned: nat)
    requires ResolvesTo(LiveSet(es), r) && Dug(es, es', cfg, graves, r, |r|, now, pruned)
    ensures Collects(es, es', cfg, r, now, pruned) && (pruned == 0 ==> forall c :: c in r ==> !Expired(c, now))
  {
    hide Graves, Buried, ResolvesTo, Expired;
    assert r[..|r|] == r;
    NoneExpired(r, now);
  }

  /**
   * What a run does, by the ttl of the chunks listed: a chunk without one, or with one that has not passed, reads as before,
   * and one whose ttl has passed has a tombstone in a newest epoch it was live in. Ids that are not listed read as before.
   */
  ghost predicate PrunesByTtl(es: Epochs, es': Epochs, cfg: Config, r: seq<Chunk>, now: int, pruned: nat) {
    && (forall c :: c in r && (c.ttl.None? || c.ttl.value >= now) ==> SameReads(es, es', cfg, c.id))
    && (forall id :: (forall c :: c in r ==> c.id != id) ==> SameReads(es, es', cfg, id))
    && (forall c :: c in r && c.ttl.Some? && c.ttl.value < now ==> TombstonedNewest(es, es', cfg, c.id))
    && pruned == |set c | c in r && c.ttl.Some? && c.ttl.value < now|
  }

  lemma CollectsByTtl(es: Epochs, es': Epochs, cfg: Config, r: seq<Chunk>, now: int, pruned: nat)
    requires Keyed(es) && OneContent(es) && Collects(es, es', cfg, r, now, pruned)
    ensures PrunesByTtl(es, es', cfg, r, now, pruned)
  {
    hide Start, ResolvesTo, Buried, Keyed, OneContent, LiveSet, NewestLive;
    var graves :| Graves(es, cfg, graves, ForgottenIds(r, now)) && es' == Buried(es, graves, now);
    hide SameReads, TombstonedNewest, ForgottenIds;
    KeepsByTtl(es, cfg, graves, r, now);
    BuriesByTtl(es, cfg, graves, r, now);
    ForgottenCount(es, r, now);
    hide Graves;
  }

  lemma KeepsByTtl(es: Epochs, cfg: Config, graves: map<string, string>, r: seq<Chunk>, now: int)
    requires Keyed(es) && OneContent(es) && ResolvesTo(LiveSet(es), r) && graves.Keys == ForgottenIds(r, now)
    ensures forall c :: c in r && (c.ttl.None? || c.ttl.value >= now) ==> SameReads(es, Buried(es, graves, now), cfg, c.id)
    ensures forall id :: (forall c :: c in r ==> c.id != id) ==> SameReads(es, Buried(es, graves, now), cfg, id)
  {
    hide SameReads, Buried, ResolvesTo, Keyed, OneContent, LiveSet;
    forall id | id !in graves ensures SameReads(es, Buried(es, graves, now), cfg, id) {
      UnburiedReads(es, cfg, graves, now, id);
    }
    forall c | c in r && (c.ttl.None? || c.ttl.value >= now) ensures c.id !in ForgottenIds(r, now) {
      UnexpiredKept(es, r, now, c);
    }
  }

  lemma BuriesByTtl(es: Epochs, cfg: Config, graves: map<string, string>, r: seq<Chunk>, now: int)
    requires Graves(es, cfg, graves, ForgottenIds(r, now))
    ensures forall c :: c in r && c.ttl.Some? && c.ttl.value < now ==> TombstonedNewest(es, Buried(es, graves, now), cfg, c.id)
  {
    hide TombstonedNewest, Buried, NewestLive;
    forall c | c in r && c.ttl.Some? && c.ttl.value < now ensures TombstonedNewest(es, Buried(es, graves, now), cfg, c.id) {
      assert c.id in graves;
      TombstoneInGrave(es, cfg, graves, now, c.id);
    }
  }

  ghost predicate SameReads(es: Epochs, es': Epochs, cfg: Config, id: string) {
    forall r :: Reads(es', cfg, id, r) <==> Reads(es, cfg, id, r)
  }

  /** A newest epoch in which the id was live has a tombstone for it now. */
  ghost predicate TombstonedNewest(es: Epochs, es': Epochs, cfg: Config, id: string) {
    exists e :: NewestLive(es, cfg, e, id) && e in es' && id in es'[e] && es'[e][id].tombstone
  }

  lemma UnburiedReads(es: Epochs, cfg: Config, graves: map<string, string>, now: int, id: string)
    requires id !in graves
    ensures SameReads(es, Buried(es, graves, now), cfg, id)
  {
    hide Start, Buried;
    var es' := Buried(es, graves, now);
    forall e ensures LiveIn(es', e, id) <==> LiveIn(es, e, id)
      ensures LiveIn(es', e, id) ==> es'[e][id] == es[e][id]
    {
      BuriedLive(es, graves, now, e, id);
    }
    hide LiveIn;
    forall e ensures NewestLive(es', cfg, e, id) <==> NewestLive(es, cfg, e, id) {
    }
    hide NewestLive;
  }

  lemma UnexpiredKept(es: Epochs, r: seq<Chunk>, now: int, c: Chunk)
    requires Keyed(es) && OneContent(es) && ResolvesTo(LiveSet(es), r) && c in r && (c.ttl.None? || c.ttl.value >= now)
    ensures c.id !in ForgottenIds(r, now)
  {
    hide Start, LiveSet, OneContent, Keyed;
    var j :| 0 <= j < |r| && r[j] == c;
    forall i | 0 <= i < |r| && r[i].id == c.id ensures r[i] == c {
      if i < j {
        HeadIdsDistinct(es, r, i, j);
      } else if j < i {
        HeadIdsDistinct(es, r, j, i);
      }
    }
    hide ResolvesTo;
  }

  lemma TombstoneInGrave(es: Epochs, cfg: Config, graves: map<string, string>, now: int, id: string)
    requires id in graves && NewestLive(es, cfg, graves[id], id)
    ensures TombstonedNewest(es, Buried(es, graves, now), cfg, id)
  {
    var es': Epochs := Buried(es, graves, now);
    assert graves[id] in es' && id in es'[graves[id]] && es'[graves[id]][id].tombstone;
  }

  lemma ForgottenCount(es: Epochs, r: seq<Chunk>, now: int)
    requires Keyed(es) && OneContent(es) && ResolvesTo(LiveSet(es), r)
    ensures |ForgottenIds(r, now)| == |set c | c in r && c.ttl.Some? && c.ttl.value < now|
  {
    hide LiveSet, Keyed, OneContent;
    var gone := set c | c in r && c.ttl.Some? && c.ttl.value < now;
    forall c, d | c in gone && d in gone && c.id == d.id ensures c == d {
      var i :| 0 <= i < |r| && r[i] == c;
      var j :| 0 <= j < |r| && r[j] == d;
      if i < j {
        HeadIdsDistinct(es, r, i, j);
      } else if j < i {
        HeadIdsDistinct(es, r, j, i);
      }
    }
    hide ResolvesTo;
    assert ForgottenIds(r, now) == set c | c in gone :: c.id;
    IdCount(gone);
  }

  lemma {:induction false} IdCount(cs: set<Chunk>)
    requires forall c, d :: c in cs && d in cs && c.id == d.id ==> c == d
    ensures |set c | c in cs :: c.id| == |cs|
  {
    if cs != {} {
      var c :| c in cs;
      var rest := cs - {c};
      IdCount(rest);
      assert (set d | d in cs :: d.id) == (set d | d in rest :: d.id) + {c.id};
    }
  }

  lemma {:induction false} NoneExpired(r: seq<Chunk>, now: int)
    ensures ExpiredCount(r, now) == 0 <==> forall c :: c in r ==> !Expired(c, now)
  {
    hide Expired;
    if r != [] {
      NoneExpired(r[..|r| - 1], now);
      assert r == r[..|r| - 1] + [r[|r| - 1]];
    }
  }

  // ----- repeated runs -----

  ghost predicate Productive(es: Epochs, es': Epochs, cfg: Config, now: int) {
    exists r: seq<Chunk>, pruned: nat :: pruned > 0 && Collects(es, es', cfg, r, now, pruned)
  }

  /** A series of runs at one clock, each of which found something to prune. */
  ghost predicate Series(states: seq<Epochs>, cfg: Config, now: int) {
    states != [] && forall i :: 0 < i < |states| ==> Productive(states[i - 1], states[i], cfg, now)
  }

  /** Repeating the collection comes to an end, after no more runs than there were live entries. */
  lemma {:induction false} SeriesEnds(states: seq<Epochs>, cfg: Config, now: int)
    requires Series(states, cfg, now)
    ensures |states| - 1 + |LivePairs(states[|states| - 1])| <= |LivePairs(states[0])|
  {
    hide Collects;
    if |states| > 1 {
      var n := |states| - 1;
      SeriesEnds(states[..n], cfg, now);
      assert Productive(states[n - 1], states[n], cfg, now);
      var r, pruned: nat :| pruned > 0 && Collects(states[n - 1], states[n], cfg, r, now, pruned);
      CollectsCount(states[n - 1], states[n], cfg, r, now, pruned);
    }
  }

  lemma CollectsCount(es: Epochs, es': Epochs, cfg: Config, r: seq<Chunk>, now: int, pruned: nat)
    requires Collects(es, es', cfg, r, now, pruned)
    ensures |LivePairs(es')| + pruned == |LivePairs(es)|
  {
    hide Graves, Buried, ResolvesTo, ForgottenIds;
    var graves :| Graves(es, cfg, graves, ForgottenIds(r, now)) && es' == Buried(es, graves, now);
    BuriedCount(es, cfg, graves, ForgottenIds(r, now), now);
  }

  /** A run that prunes nothing changed nothing, and its listing shows no expired chunk. */
  lemma NothingPrunedMeansClean(es: Epochs, es': Epochs, cfg: Config, r: seq<Chunk>, now: int)
    requires Collects(es, es', cfg, r, now, 0)
    ensures es' == es && forall c :: c in r ==> !Expired(c, now)
  {
    hide ResolvesTo;
    NoneExpired(r, now);
    var graves :| Graves(es, cfg, graves, ForgottenIds(r, now)) && es' == Buried(es, graves, now);
    assert graves == map[];
    BuryNothing(es, now);
  }

  /** Everything live afterwards was live, with the same content; nothing unexpired is gone, no epoch either. */
  lemma CollectsWithin(es: Epochs, es': Epochs, cfg: Config, r: seq<Chunk>, now: int, pruned: nat)
    requires Keyed(es) && OneContent(es) && Collects(es, es', cfg, r, now, pruned)
    ensures es'.Keys == es.Keys && Within(es', es)
    ensures forall e, k :: LiveIn(es, e, k) && !Expired(es[e][k], now) ==> LiveIn(es', e, k)
  {
    hide Graves, Start;
    var graves :| Graves(es, cfg, graves, ForgottenIds(r, now)) && es' == Buried(es, graves, now);
    forall e, k
      ensures LiveIn(es', e, k) ==> LiveIn(es, e, k) && es'[e][k] == es[e][k]
      ensures LiveIn(es, e, k) && !Expired(es[e][k], now) ==> LiveIn(es', e, k)
    {
      BuriedLive(es, graves, now, e, k);
      GraveOfExpired(es, cfg, graves, r, now, e, k);
    }
  }

  lemma GraveOfExpired(es: Epochs, cfg: Config, graves: map<string, string>, r: seq<Chunk>, now: int, e: string, k: string)
    requires Keyed(es) && OneContent(es) && ResolvesTo(LiveSet(es), r) && Graves(es, cfg, graves, ForgottenIds(r, now))
    ensures k in graves && LiveIn(es, e, k) ==> Expired(es[e][k], now)
  {
    hide Start;
    if k in graves && LiveIn(es, e, k) {
      var c :| c in r && Expired(c, now) && c.id == k;
      assert Newest(LiveSet(es), c);
      var f := LiveSomewhere(es, c);
    }
  }

  /** No collection ever loses an unexpired chunk or brings back a forgotten one. */
  lemma CollectionKeepsReads(es: Epochs, es': Epochs, cfg: Config, r: seq<Chunk>, now: int, pruned: nat, id: string, read: Option<Chunk>)
    requires Keyed(es) && OneContent(es) && Collects(es, es', cfg, r, now, pruned) && Reads(es, cfg, id, read)
    ensures OneContent(es')
    ensures read.None? ==> Reads(es', cfg, id, None)
    ensures read.Some? && !Expired(read.value, now) ==> Reads(es', cfg, id, read)
  {
    hide Start, Collects;
    CollectsWithin(es, es', cfg, r, now, pruned);
    if read.Some? && !Expired(read.value, now) {
      var e :| NewestLive(es, cfg, e, id) && es[e][id] == read.value;
      assert LiveIn(es', e, id) && NewestLive(es', cfg, e, id);
    }
  }

  // ----- whether one run is enough -----

  ghost predicate TwoCopies(es: Epochs, id: string) {
    exists e, f :: e != f && LiveIn(es, e, id) && LiveIn(es, f, id)
  }

  /** What is still live after a run: what it did not forget, and what it forgot in one of several epochs only. */
  ghost predicate Survives(es: Epochs, r: seq<Chunk>, now: int, c: Chunk) {
    c in LiveSet(es) && (c.id in ForgottenIds(r, now) ==> TwoCopies(es, c.id))
  }

  /** Where an id stays live once the graves are filled. */
  lemma LiveBesideGrave(es: Epochs, graves: map<string, string>, now: int, id: string)
    requires forall k :: k in graves ==> LiveIn(es, graves[k], k)
    ensures Readable(Buried(es, graves, now), id) <==> Readable(es, id) && (id in graves ==> TwoCopies(es, id))
  {
    var es' := Buried(es, graves, now);
    forall e ensures LiveIn(es', e, id) <==> LiveIn(es, e, id) && !(id in graves && graves[id] == e) {
      BuriedLive(es, graves, now, e, id);
    }
    hide LiveIn, Buried;
    if Readable(es, id) && (id in graves ==> TwoCopies(es, id)) {
      if id in graves {
        var f, g :| f != g && LiveIn(es, f, id) && LiveIn(es, g, id);
        assert LiveIn(es', if graves[id] == f then g else f, id);
      } else {
        var e :| LiveIn(es, e, id);
        assert LiveIn(es', e, id);
      }
    }
    if e :| LiveIn(es', e, id) {
      assert LiveIn(es, e, id);
      assert id in graves ==> LiveIn(es, graves[id], id) && graves[id] != e;
    }
  }

  /** With one content for every id, a chunk is visible exactly when its id is readable with that content. */
  lemma LiveIsReadable(es: Epochs, es': Epochs, c: Chunk)
    requires Keyed(es) && OneContent(es) && Keyed(es') && Within(es', es)
    ensures c in LiveSet(es') <==> c in LiveSet(es) && Readable(es', c.id)
  {
    LiveIsLiveIn(es, c);
    LiveIsLiveIn(es', c);
    hide LiveIn, Keyed, LiveSet;
  }

  lemma SurvivorsLive(es: Epochs, es': Epochs, cfg: Config, r: seq<Chunk>, now: int, pruned: nat, c: Chunk)
    requires Keyed(es) && OneContent(es) && Collects(es, es', cfg, r, now, pruned)
    ensures c in LiveSet(es') <==> Survives(es, r, now, c)
  {
    hide Start, ResolvesTo, Buried, ForgottenIds, LiveSet, Keyed, OneContent;
    var graves :| Graves(es, cfg, graves, ForgottenIds(r, now)) && es' == Buried(es, graves, now);
    LiveBesideGrave(es, graves, now, c.id);
    BuriedKeyed(es, graves, now);
    BuriedWithin(es, graves, now);
    LiveIsReadable(es, es', c);
    LiveIsLiveIn(es, c);
    hide LiveIn;
  }

  lemma BuriedWithin(es: Epochs, graves: map<string, string>, now: int)
    ensures Within(Buried(es, graves, now), es)
  {
  }

  lemma BuriedKeyed(es: Epochs, graves: map<string, string>, now: int)
    requires Keyed(es)
    ensures Keyed(Buried(es, graves, now))
  {
  }

  lemma LiveIsLiveIn(es: Epochs, c: Chunk)
    requires Keyed(es)
    ensures c in LiveSet(es) <==> exists e :: LiveIn(es, e, c.id) && es[e][c.id] == c
  {
    if c in LiveSet(es) {
      var e := LiveSomewhere(es, c);
    }
    if e :| LiveIn(es, e, c.id) && es[e][c.id] == c {
      assert es[e][c.id] == c;
    }
  }

  /** An expired survivor that no survivor supersedes, and no newer unsuperseded survivor of its fork outdoes. */
  ghost predicate Exposed(es: Epochs, r: seq<Chunk>, now: int, c: Chunk) {
    && Survives(es, r, now, c) && Expired(c, now)
    && (forall d :: Survives(es, r, now, d) ==> !Supersedes(d, c))
    && forall d :: Survives(es, r, now, d) && ForkKey(d) == ForkKey(c) && d.timestamp > c.timestamp ==>
                     exists x :: Survives(es, r, now, x) && Supersedes(x, d)
  }

  /**
   * One run is enough exactly when it exposes no expired chunk, which it can do in three ways: by forgetting all that
   * supersede it, by forgetting its newer siblings, or by forgetting only one of its own copies.
   */
  lemma OneRunIsEnoughIff(es: Epochs, es': Epochs, cfg: Config, r: seq<Chunk>, now: int, pruned: nat, r': seq<Chunk>)
    requires Keyed(es) && OneContent(es) && Collects(es, es', cfg, r, now, pruned) && ResolvesTo(LiveSet(es'), r')
    requires DistinctForkTimes(LiveSet(es))
    ensures (forall c :: c in r' ==> !Expired(c, now)) <==> forall c :: !Exposed(es, r, now, c)
  {
    hide Collects, ResolvesTo, Survives, Expired;
    var live := LiveSet(es');
    forall c ensures c in live <==> Survives(es, r, now, c) {
      SurvivorsLive(es, es', cfg, r, now, pruned, c);
    }
    SurvivorsWereLive(es, r, now);
    assert DistinctForkTimes(live);
    forall c ensures (c in r' <==> Newest(live, c)) && (Newest(live, c) && Expired(c, now) <==> Exposed(es, r, now, c)) {
      ResolvesToNewest(live, r', c);
      ExposedIsNewest(es, live, r, now, c);
    }
  }

  lemma SurvivorsWereLive(es: Epochs, r: seq<Chunk>, now: int)
    ensures forall c :: Survives(es, r, now, c) ==> c in LiveSet(es) && !c.tombstone
  {
  }

  lemma ExposedIsNewest(es: Epochs, live: set<Chunk>, r: seq<Chunk>, now: int, c: Chunk)
    requires forall d :: d in live <==> Survives(es, r, now, d)
    requires forall d :: d in live ==> !d.tombstone
    ensures Newest(live, c) && Expired(c, now) <==> Exposed(es, r, now, c)
  {
    hide Survives, Expired;
    if Newest(live, c) {
      forall d | Survives(es, r, now, d) && ForkKey(d) == ForkKey(c) && d.timestamp > c.timestamp
        ensures exists x :: Survives(es, r, now, x) && Supersedes(x, d)
      {
        assert !Siblings(live, c, d);
      }
    }
  }

  ghost predicate OneCopy(es: Epochs) {
    forall id :: !TwoCopies(es, id)
  }

  /** On chains without forks, each chunk in one epoch only, one run is enough exactly when no expired head supersedes an expired chunk. */
  lemma OneRunOnChainsIff(es: Epochs, es': Epochs, cfg: Config, r: seq<Chunk>, now: int, pruned: nat, r': seq<Chunk>)
    requires Keyed(es) && OneContent(es) && OneCopy(es) && ForkFree(LiveSet(es))
    requires Collects(es, es', cfg, r, now, pruned) && ResolvesTo(LiveSet(es'), r')
    ensures (forall c :: c in r' ==> !Expired(c, now)) <==>
            forall c, d :: c in LiveSet(es) && d in r && Expired(c, now) && Expired(d, now) ==> !Supersedes(d, c)
  {
    hide Collects, TwoCopies;
    forall c, d | c in LiveSet(es) && d in r && Expired(c, now) && Expired(d, now) && Supersedes(d, c) ensures c in r' {
      PredecessorReappears(es, es', cfg, r, now, pruned, c, d, r');
    }
    forall c | c in r' && Expired(c, now) ensures exists d :: d in r && Expired(d, now) && Supersedes(d, c) && c in LiveSet(es) {
      var d := ReappearedWhy(es, es', cfg, r, now, pruned, c, r');
    }
  }

  /** With the expired head forgotten, the expired chunk it superseded is a head. */
  lemma PredecessorReappears(es: Epochs, es': Epochs, cfg: Config, r: seq<Chunk>, now: int, pruned: nat, c: Chunk, d: Chunk, r': seq<Chunk>)
    requires Keyed(es) && OneContent(es) && OneCopy(es) && ForkFree(LiveSet(es))
    requires Collects(es, es', cfg, r, now, pruned) && ResolvesTo(LiveSet(es'), r')
    requires c in LiveSet(es) && d in r && Expired(d, now) && Supersedes(d, c)
    ensures c in r' && d !in r'
  {
    hide TwoCopies, Graves, Buried;
    var live, live' := LiveSet(es), LiveSet(es');
    ForkFreeHeads(live, r);
    forall x ensures x in live' <==> Survives(es, r, now, x) {
      SurvivorsLive(es, es', cfg, r, now, pruned, x);
    }
    SubsetForkFree(live, live');
    ForkFreeHeads(live', r');
    assert d.id in ForgottenIds(r, now) && !TwoCopies(es, d.id) && d !in live';
    assert c.id !in ForgottenIds(r, now) by {
      assert forall x :: x in r && x.id == c.id ==> x == c;
      assert !Candidate(live, c);
    }
    forall x | x in live' ensures !Supersedes(x, c) {
      assert Supersedes(x, c) ==> x == d;
    }
    assert Candidate(live', c);
  }

  lemma ReappearedWhy(es: Epochs, es': Epochs, cfg: Config, r: seq<Chunk>, now: int, pruned: nat, c: Chunk, r': seq<Chunk>) returns (d: Chunk)
    requires Keyed(es) && OneContent(es) && OneCopy(es) && ForkFree(LiveSet(es))
    requires Collects(es, es', cfg, r, now, pruned) && ResolvesTo(LiveSet(es'), r') && c in r' && Expired(c, now)
    ensures d in r && Expired(d, now) && Supersedes(d, c) && c in LiveSet(es)
  {
    hide TwoCopies, Graves, Buried;
    var live, live' := LiveSet(es), LiveSet(es');
    ForkFreeHeads(live, r);
    forall x ensures x in live' <==> Survives(es, r, now, x) {
      SurvivorsLive(es, es', cfg, r, now, pruned, x);
    }
    SubsetForkFree(live, live');
    ForkFreeHeads(live', r');
    assert Candidate(live', c) && !TwoCopies(es, c.id);
    assert c !in r;
    d :| d in live && Supersedes(d, c);
    assert d !in live';
    var x :| x in r && Expired(x, now) && x.id == d.id;
    assert x == d;
  }

  /** An otherwise empty memory with two chunks in one epoch. */
  lemma TwoChunks(es: Epochs, e: string, a: Chunk, b: Chunk)
    requires e in es && a.id != b.id && !a.tombstone && !b.tombstone
    requires es[e] == map[a.id := a, b.id := b] && forall f :: f in es && f != e ==> es[f] == map[]
    ensures LiveSet(es) == {a, b} && Keyed(es) && OneContent(es) && OneCopy(es)
  {
    forall f, k ensures LiveIn(es, f, k) <==> f == e && (k == a.id || k == b.id) {
    }
    assert a == es[e][a.id] && b == es[e][b.id];
  }

  lemma NothingRestored(es: Epochs)
    requires FromSnapshots(es, map[])
    ensures forall e :: e in es ==> es[e] == map[]
  {
    assert forall e :: Restored(map[], e) == Loro.EMPTY;
    EmptyView();
  }

  method NewWithTwo(config: ValidConfig, a: Chunk, b: Chunk, now: int) returns (store: LoroEpochManager)
    requires a.id != b.id && !a.tombstone && !b.tombstone
    ensures fresh(store) && fresh(store.epochs.Values) && store.Valid() && store.Open() && store.config == config
    ensures LiveSet(store.Model()) == {a, b} && Keyed(store.Model()) && OneContent(store.Model()) && OneCopy(store.Model())
  {
    hide Start, ComputeEpochId, Loro.View, Retained, OneCopy, OneContent, Keyed, LiveSet, FromSnapshots;
    store := new LoroEpochManager(config, 0, now, map[]);
    ghost var es0, e := store.Model(), store.currentEpochId;
    NothingRestored(es0);
    var _ := store.Put(a);
    var _ := store.Put(b);
    TwoPuts(es0, store.Model(), e, a, b);
  }

  /** It happens: a manager with an expired chunk and an expired successor of it lists the former after one run. */
  method OneRunIsNotEnough(config: ValidConfig, a: Chunk, b: Chunk, now: int) returns (listing: seq<Chunk>)
    requires Supersedes(b, a) && a.supersedes.None? && a.id != b.id && !a.tombstone && !b.tombstone
    requires Expired(a, now) && Expired(b, now)
    ensures Elems(listing) == {a}
  {
    hide Collects, Start, Expired, OneCopy, OneContent, Keyed, LiveSet, ListedBy, LoroEpochManager.Model, LoroEpochManager.Valid;
    var store := NewWithTwo(config, a, b, now);
    ghost var es := store.Model();
    var pruned, r := RunGC(store, now);
    listing := store.List();
    AfterOneRun(es, store.Model(), config, r, now, pruned, a, b, listing);
  }

  lemma PairOfVersions(a: Chunk, b: Chunk)
    requires Supersedes(b, a) && a.supersedes.None? && a.id != b.id && !a.tombstone && !b.tombstone
    ensures ForkFree({a, b}) && Candidate({a, b}, b)
  {
  }

  lemma TwoPuts(es0: Epochs, es: Epochs, e: string, a: Chunk, b: Chunk)
    requires e in es0 && (forall f :: f in es0 ==> es0[f] == map[]) && a.id != b.id && !a.tombstone && !b.tombstone
    requires var es1 := es0[e := es0[e][a.id := a]]; es == es1[e := es1[e][b.id := b]]
    ensures LiveSet(es) == {a, b} && Keyed(es) && OneContent(es) && OneCopy(es)
  {
    hide LiveSet, Keyed, OneContent, OneCopy;
    assert es[e] == map[a.id := a, b.id := b];
    TwoChunks(es, e, a, b);
  }

  lemma ListedWasLive(es: Epochs, es': Epochs, cfg: Config, r: seq<Chunk>, now: int, pruned: nat, listing: seq<Chunk>)
    requires Keyed(es) && OneContent(es) && Collects(es, es', cfg, r, now, pruned) && ResolvesTo(LiveSet(es'), listing)
    ensures forall c :: c in listing ==> c in LiveSet(es)
  {
    hide Collects, Survives;
    forall c | c in listing ensures c in LiveSet(es) {
      assert Newest(LiveSet(es'), c);
      SurvivorsLive(es, es', cfg, r, now, pruned, c);
      SurvivorsWereLive(es, r, now);
    }
  }

  lemma AfterOneRun(es: Epochs, es': Epochs, cfg: Config, r: seq<Chunk>, now: int, pruned: nat, a: Chunk, b: Chunk, listing: seq<Chunk>)
    requires Keyed(es) && OneContent(es) && OneCopy(es) && LiveSet(es) == {a, b} && a.id != b.id
    requires Supersedes(b, a) && a.supersedes.None? && !a.tombstone && !b.tombstone && Expired(b, now)
    requires Collects(es, es', cfg, r, now, pruned) && ResolvesTo(LiveSet(es'), listing)
    ensures Elems(listing) == {a}
  {
    hide Collects, OneCopy, OneContent, Keyed, LiveSet, ResolvesTo, ForkFree, Candidate, Expired;
    PairOfVersions(a, b);
    CollectsBasics(es, es', cfg, r, now, pruned);
    ForkFreeHeads({a, b}, r);
    ListedWasLive(es, es', cfg, r, now, pruned, listing);
    PredecessorReappears(es, es', cfg, r, now, pruned, a, b, listing);
  }

  // ----- the scheduler tick -----

  /**
   * One tick for one store: collect, rotate if the epoch changed, drop if it rotated. `snapshot` is what the file of the
   * epoch rotated into holds. If that epoch is new, reads of unexpired chunks and reads of nothing come out as they went in.
   */
  method RunAll(mgr: LoroEpochManager, now: int, gcNow: int, snapshot: Loro.Doc)
    returns (pruned: nat, rotated: bool, dropped: seq<string>, ghost r: seq<Chunk>)
    requires mgr.Valid() && mgr.Open() && OneContent(mgr.Model()) && gcNow >= now
    requires Loro.Wf(snapshot) && Loro.Coherent(snapshot.ops)
    modifies mgr, mgr.epochs.Values
    ensures mgr.Valid() && mgr.Open() && mgr.migrationInProgress == old(mgr.migrationInProgress)
    ensures rotated == (ComputeEpochId(now, mgr.config.durationMs) != old(mgr.currentEpochId) && !old(mgr.migrationInProgress))
    ensures mgr.currentEpochId == if rotated then ComputeEpochId(now, mgr.config.durationMs) else old(mgr.currentEpochId)
    ensures r == old(mgr.Shown()) && pruned == ExpiredCount(r, gcNow)
    ensures Elems(dropped) == if rotated then Expiring(old(mgr.Model()), mgr.currentEpochId, mgr.config, now) else {}
    ensures mgr.Model().Keys <= old(mgr.Model().Keys) + {mgr.currentEpochId}
    ensures (rotated ==> mgr.currentEpochId !in old(mgr.Model()) && snapshot == Loro.EMPTY) ==>
              && OneContent(mgr.Model()) && KeepsReads(old(mgr.Model()), mgr.Model(), mgr.config, gcNow)
              && LiveSet(mgr.Model()) <= LiveSet(old(mgr.Model()))
    ensures forall e :: e in mgr.epochs ==> (e in old(mgr.epochs) && mgr.epochs[e] == old(mgr.epochs)[e]) || fresh(mgr.epochs[e])
  {
    hide Start, KeepsReads, RotatesOver, RotatesTo, Expiring, Dropped, OneContent, Collects, ExpiredCount, ComputeEpochId, Loro.View,
      Loro.Wf, Loro.Coherent, ListedBy, ResolvesTo, LiveSet, LoroEpochManager.Model, LoroEpochManager.Valid, LoroEpochManager.Lists, LoroEpochManager.Shown,
      Keyed;
    ghost var es := mgr.Model();
    mgr.ModelKeyed();
    dropped := [];
    pruned, r := RunGC(mgr, gcNow);
    ghost var es1 := mgr.Model();
    mgr.ModelKeyed();
    CollectsBasics(es, es1, mgr.config, r, gcNow, pruned);
    CollectionKeepsAllReads(es, es1, mgr.config, r, gcNow, pruned);
    rotated := mgr.MaybeRotateEpoch(now, snapshot);
    if rotated {
      ghost var es2 := mgr.Model();
      dropped := mgr.DropExpiredEpochs(now);
      RotationExpiring(es1, es2, mgr.currentEpochId, Loro.View(snapshot.ops), mgr.config, now);
      SameExpiring(es, es1, mgr.currentEpochId, mgr.config, now);
      if mgr.currentEpochId !in es && snapshot == Loro.EMPTY {
        EmptyView();
        RotatesOverNothing(es1, es2, mgr.currentEpochId, mgr.config, now);
        RotationKeepsAllReads(es1, es2, mgr.currentEpochId, mgr.config, now, gcNow);
        KeepsReadsOn(es, es1, mgr.Model(), mgr.config, gcNow, gcNow);
      }
    }
  }

  /** Reads of what is unexpired, and reads of nothing, are as before. */
  ghost predicate KeepsReads(es: Epochs, es': Epochs, cfg: Config, now: int) {
    forall id, r :: Reads(es, cfg, id, r) && (r.None? || !Expired(r.value, now)) ==> Reads(es', cfg, id, r)
  }

  lemma KeepsReadsOn(es: Epochs, es1: Epochs, es2: Epochs, cfg: Config, now: int, later: int)
    requires KeepsReads(es, es1, cfg, now) && KeepsReads(es1, es2, cfg, later) && now <= later
    ensures KeepsReads(es, es2, cfg, later)
  {
    hide Reads;
  }

  lemma EmptyView()
    ensures Loro.View(Loro.EMPTY.ops) == map[]
  {
  }

  lemma CollectsBasics(es: Epochs, es': Epochs, cfg: Config, r: seq<Chunk>, now: int, pruned: nat)
    requires Collects(es, es', cfg, r, now, pruned)
    ensures es'.Keys == es.Keys && pruned == ExpiredCount(r, now) && ResolvesTo(LiveSet(es), r)
  {
    hide ResolvesTo, Graves;
  }

  lemma CollectionKeepsAllReads(es: Epochs, es': Epochs, cfg: Config, r: seq<Chunk>, now: int, pruned: nat)
    requires Keyed(es) && OneContent(es) && Collects(es, es', cfg, r, now, pruned)
    ensures OneContent(es') && KeepsReads(es, es', cfg, now) && LiveSet(es') <= LiveSet(es)
  {
    hide Start, Reads, Collects;
    forall id, read | Reads(es, cfg, id, read) && (read.None? || !Expired(read.value, now)) ensures Reads(es', cfg, id, read) {
      CollectionKeepsReads(es, es', cfg, r, now, pruned, id, read);
    }
    CollectsWithin(es, es', cfg, r, now, pruned);
    forall c | c in LiveSet(es') ensures c in LiveSet(es) {
      var e, k :| e in es' && k in es'[e] && !es'[e][k].tombstone && es'[e][k] == c;
      assert LiveIn(es', e, k);
    }
  }

  lemma RotationKeepsAllReads(es: Epochs, es1: Epochs, newId: string, cfg: Config, now: int, gcNow: int)
    requires Keyed(es) && OneContent(es) && newId !in es && RotatesTo(es, es1, newId, cfg, now) && now <= gcNow
    ensures OneContent(Dropped(es1, newId, cfg, now)) && KeepsReads(es, Dropped(es1, newId, cfg, now), cfg, gcNow)
    ensures LiveSet(Dropped(es1, newId, cfg, now)) <= LiveSet(es)
  {
    hide Start, Reads, Dropped, RotatesTo, OneContent, LiveSet;
    RotationAddsNothing(es, es1, newId, cfg, now);
    forall id, r | Reads(es, cfg, id, r) && (r.None? || !Expired(r.value, gcNow))
      ensures Reads(Dropped(es1, newId, cfg, now), cfg, id, r)
    {
      RotateThenDrop(es, es1, newId, cfg, now, id, r);
    }
    RotationKeepsOneContent(es, es1, newId, cfg, now);
  }

  lemma RotationKeepsOneContent(es: Epochs, es1: Epochs, newId: string, cfg: Config, now: int)
    requires Keyed(es) && OneContent(es) && newId !in es && RotatesTo(es, es1, newId, cfg, now)
    ensures OneContent(Dropped(es1, newId, cfg, now))
  {
    hide Start;
    if Readable(es, "") {
      var e := NewestExists(es, cfg, "");
      RotateThenDrop(es, es1, newId, cfg, now, "", Some(es[e][""]));
    } else {
      RotateThenDrop(es, es1, newId, cfg, now, "", None);
    }
  }

  lemma RotationExpiring(es: Epochs, es': Epochs, newId: string, base: View, cfg: Config, now: int)
    requires RotatesOver(es, es', newId, base, cfg, now)
    ensures Expiring(es', newId, cfg, now) == Expiring(es, newId, cfg, now) && es'.Keys == es.Keys + {newId}
    ensures Dropped(es', newId, cfg, now).Keys <= es.Keys + {newId}
  {
    hide Start, Cutoff, Holds, Migrants;
  }

  lemma SameExpiring(es: Epochs, es1: Epochs, newId: string, cfg: Config, now: int)
    requires es1.Keys == es.Keys
    ensures Expiring(es1, newId, cfg, now) == Expiring(es, newId, cfg, now)
  {
    hide Start, Cutoff;
  }
}
