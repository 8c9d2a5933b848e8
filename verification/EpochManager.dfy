/** The epoch manager: one store per epoch, reads across all of them, writes to the current one. */
module EpochManager {
  import opened Chunks
  import opened Query
  import opened QueryApply
  import opened EpochTime
  import opened Epochs
  import opened LoroStore
  import Loro
  import Sorting

  function Flatten(parts: seq<seq<Chunk>>): seq<Chunk> {
    if parts == [] then [] else Flatten(parts[..|parts| - 1]) + parts[|parts| - 1]
  }

  lemma {:induction false} FlattenElements(parts: seq<seq<Chunk>>)
    ensures forall c :: c in Flatten(parts) <==> exists i :: 0 <= i < |parts| && c in parts[i]
  {
    if parts != [] {
      var init := parts[..|parts| - 1];
      FlattenElements(init);
      assert Flatten(parts) == Flatten(init) + parts[|parts| - 1];
      hide Flatten;
      forall c ensures c in Flatten(parts) <==> exists i :: 0 <= i < |parts| && c in parts[i] {
        if i :| 0 <= i < |parts| && c in parts[i] {
          assert i < |init| ==> init[i] == parts[i];
        }
        if c in Flatten(init) {
          var i :| 0 <= i < |init| && c in init[i];
          assert c in parts[i];
        }
      }
    }
  }

  /** Newest epoch first, every epoch once. */
  ghost predicate NewestFirst(ids: seq<string>, keys: set<string>, cfg: Config) {
    && Elems(ids) == keys
    && forall i, j :: 0 <= i < j < |ids| ==> ids[i] != ids[j] && Start(cfg, ids[i]) >= Start(cfg, ids[j])
  }

  lemma KeysListed(ids: seq<string>, keys: set<string>, cfg: Config)
    requires NewestFirst(ids, keys, cfg)
    ensures Elems(ids) == keys && forall i :: 0 <= i < |ids| ==> ids[i] in keys
  {
    forall i | 0 <= i < |ids| ensures ids[i] in keys {
      assert ids[i] in Elems(ids);
    }
  }

  /** The open epochs in the order in which they are searched: by start, newest first, else in the order of opening. */
  function Ordered(order: seq<string>, cfg: Config): seq<string> {
    Sorting.Sort(order, e => -Start(cfg, e))
  }

  lemma OrderedIs(order: seq<string>, cfg: Config)
    requires NoRepeats(order)
    ensures NewestFirst(Ordered(order, cfg), Elems(order), cfg)
  {
    var key := (e: string) => -Start(cfg, e);
    var ids := Sorting.Sort(order, key);
    Sorting.SortAscending(order, key);
    Sorting.SortContents(order, key);
    Sorting.SortDistinct(order, key);
    forall e ensures e in ids <==> e in order {
      Sorting.SortElements(order, key, e);
    }
    forall i, j | 0 <= i < j < |ids| ensures ids[i] != ids[j] && Start(cfg, ids[i]) >= Start(cfg, ids[j]) {
      assert key(ids[i]) <= key(ids[j]);
    }
    assert Ordered(order, cfg) == ids;
  }

  /** What the stores of these epochs list. */
  ghost function Parts(lists: map<string, seq<Chunk>>, ids: seq<string>): seq<seq<Chunk>> {
    seq(|ids|, i requires 0 <= i < |ids| => if ids[i] in lists then lists[ids[i]] else [])
  }

  /** What they answer to a query. */
  ghost function AnswersOf(listings: seq<seq<Chunk>>, q: MemoryQuery, now: int, lower: string -> string): seq<seq<Chunk>> {
    seq(|listings|, i requires 0 <= i < |listings| => ApplyQuery(listings[i], q, now, lower))
  }

  lemma PartsOneMore(lists: map<string, seq<Chunk>>, ids: seq<string>, i: nat)
    requires i < |ids| && ids[i] in lists
    ensures Flatten(Parts(lists, ids[..i + 1])) == Flatten(Parts(lists, ids[..i])) + lists[ids[i]]
  {
    assert Parts(lists, ids[..i + 1])[..i] == Parts(lists, ids[..i]);
  }

  lemma AnswersOneMore(listings: seq<seq<Chunk>>, q: MemoryQuery, now: int, lower: string -> string, i: nat)
    requires i < |listings|
    ensures Flatten(AnswersOf(listings[..i + 1], q, now, lower)) ==
            Flatten(AnswersOf(listings[..i], q, now, lower)) + ApplyQuery(listings[i], q, now, lower)
  {
    hide ApplyQuery;
    assert AnswersOf(listings[..i + 1], q, now, lower)[..i] == AnswersOf(listings[..i], q, now, lower);
  }

  lemma NoAnswers(q: MemoryQuery, now: int, lower: string -> string)
    ensures Flatten(AnswersOf([], q, now, lower)) == []
  {
  }

  lemma PartsNone(lists: map<string, seq<Chunk>>)
    ensures Flatten(Parts(lists, [])) == []
  {
  }

  /** The listing of the whole, which is a function of what the stores list and of the order of the epochs. */
  ghost function ListedBy(lists: map<string, seq<Chunk>>, order: seq<string>, cfg: Config): seq<Chunk> {
    Heads(Flatten(Parts(lists, Ordered(order, cfg))))
  }

  lemma FirstLiveIsNewest(es: Epochs, cfg: Config, ids: seq<string>, i: nat, id: string)
    requires NewestFirst(ids, es.Keys, cfg) && i < |ids| && LiveIn(es, ids[i], id)
    requires forall j :: 0 <= j < i ==> !LiveIn(es, ids[j], id)
    ensures NewestLive(es, cfg, ids[i], id)
  {
    forall f | LiveIn(es, f, id) ensures Start(cfg, f) <= Start(cfg, ids[i]) {
      assert f in Elems(ids);
    }
  }

  lemma NoneLive(es: Epochs, ids: seq<string>, id: string)
    requires Elems(ids) == es.Keys && forall j :: 0 <= j < |ids| ==> !LiveIn(es, ids[j], id)
    ensures !Readable(es, id)
  {
    forall e ensures !LiveIn(es, e, id) {
      assert LiveIn(es, e, id) ==> e in Elems(ids);
    }
  }

  /** The keys of a map, each once, in some order. */
  ghost predicate Enumerates(order: seq<string>, keys: set<string>) {
    Elems(order) == keys && NoRepeats(order)
  }

  lemma EnumeratesMore(order: seq<string>, keys: set<string>, id: string)
    requires Enumerates(order, keys)
    ensures if id in keys then Enumerates(order, keys + {id}) else Enumerates(order + [id], keys + {id})
  {
    assert id in order <==> id in Elems(order);
    assert Elems(order + [id]) == Elems(order) + {id};
    assert id in keys ==> keys + {id} == keys;
  }

  lemma EnumeratedKeys(order: seq<string>, keys: set<string>)
    requires Enumerates(order, keys)
    ensures Elems(order) == keys && NoRepeats(order)
    ensures forall i :: 0 <= i < |order| ==> order[i] in keys
  {
    forall i | 0 <= i < |order| ensures order[i] in keys {
      assert order[i] in Elems(order);
    }
  }

  /** How many of a store's live chunks a migration carries over, and how many it abandons as expired. */
  ghost function Split(view: View, now: int): (int, int) {
    (|Carried(view, now)|, |Loro.Live(view)| - |Carried(view, now)|)
  }

  /** Puts the unexpired chunks of a list into a store. */
  method CopyChunks(chunks: seq<Chunk>, ghost view: View, toStore: LoroMemoryStore, now: int) returns (migrated: nat, abandoned: nat)
    requires toStore.Valid()
    requires Elems(chunks) == Loro.Live(view) && (forall k :: k in view ==> view[k].id == k)
    requires forall i, j :: 0 <= i < j < |chunks| ==> chunks[i].id != chunks[j].id
    modifies toStore
    ensures toStore.Valid() && toStore.entries == old(toStore.entries) + Carried(view, now)
    ensures (migrated, abandoned) == Split(view, now)
  {
    hide Loro.View, Loro.Wf, Loro.Coherent, Loro.Live, Merged, Carried, Expired, UnexpiredIds, Elems, NoRepeats, Split;
    ghost var before := toStore.entries;
    MergedIsCarried(view, chunks, before, now);
    CarriedCount(view, chunks, now);
    MergedNothing(before, now);
    UnexpiredIdsNone(now);
    assert chunks[..0] == [];
    migrated, abandoned := 0, 0;
    for i := 0 to |chunks|
      invariant toStore.Valid()
      invariant toStore.entries == Merged(before, chunks[..i], now)
      invariant migrated == |UnexpiredIds(chunks[..i], now)| && migrated + abandoned == i
    {
      assert chunks[..i + 1][..i] == chunks[..i];
      MergedOneMore(before, chunks[..i + 1], now);
      UnexpiredIdsOneMore(chunks[..i + 1], now);
      if Expired(chunks[i], now) {
        abandoned := abandoned + 1;
        continue;
      }
      toStore.Put(chunks[i]);
      migrated := migrated + 1;
    }
    assert chunks[..|chunks|] == chunks;
  }

  class LoroEpochManager {
    const config: ValidConfig
    const peer: nat
    var epochs: map<string, LoroMemoryStore>

    /** The keys of `epochs` in the order in which they were added, which is the order a JavaScript Map keeps. */
    var order: seq<string>

    var currentEpochId: string
    var migrationInProgress: bool

    ghost predicate Valid()
      reads this`epochs, this`order, epochs.Values
    {
      && (forall e :: e in epochs ==> epochs[e].Valid())
      && (forall e, f :: e in epochs && f in epochs && e != f ==> epochs[e] != epochs[f])
      && Enumerates(order, epochs.Keys)
    }

    /** Not closed: there is a store to write to. */
    ghost predicate Open()
      reads this`epochs, this`currentEpochId
    {
      currentEpochId in epochs
    }

    ghost function Model(): Epochs
      reads this`epochs, epochs.Values
    {
      map e | e in epochs :: epochs[e].entries
    }

    /** What the stores list, epoch by epoch. */
    ghost function Lists(): map<string, seq<Chunk>>
      reads this`epochs, epochs.Values
    {
      map e | e in epochs :: Listing(epochs[e].entries, epochs[e].keys)
    }

    /** What list() answers. */
    ghost function Shown(): seq<Chunk>
      reads this`epochs, this`order, epochs.Values
    {
      ListedBy(Lists(), order, config)
    }

    lemma ModelKeyed()
      requires Valid()
      ensures Keyed(Model())
    {
      forall e | e in epochs {
        Loro.ViewKeyed(epochs[e].doc.ops);
      }
    }

    lemma ListsLive()
      requires Valid()
      ensures Lists().Keys == Model().Keys && forall e :: e in epochs ==> Elems(Lists()[e]) == Loro.Live(Model()[e])
    {
      hide Listing, Loro.Live, Loro.View, Elems;
      forall e | e in epochs ensures Elems(Listing(epochs[e].entries, epochs[e].keys)) == Loro.Live(epochs[e].entries) {
        Loro.ViewKeyed(epochs[e].doc.ops);
        ListingLive(epochs[e].entries, epochs[e].keys);
      }
    }

    lemma ShownResolves()
      requires Valid()
      ensures ResolvesTo(LiveSet(Model()), Shown())
    {
      ListsLive();
      EnumeratedKeys(order, epochs.Keys);
      OrderedIs(order, config);
      hide Loro.Live, Listing, ResolvesTo, Heads, LiveSet, NewestFirst, Flatten, Ordered, Parts, Elems, Valid;
      var ids := Ordered(order, config);
      KeysListed(ids, epochs.Keys, config);
      PooledLive(Model(), ids, Lists());
      HeadsResolve(Flatten(Parts(Lists(), ids)));
    }

    lemma ModelWithNew(before: map<string, LoroMemoryStore>, es: Epochs, newId: string, store: LoroMemoryStore)
      requires epochs == before[newId := store] && es.Keys == before.Keys
      requires forall e :: e in before && e != newId ==> es[e] == before[e].entries
      ensures Model() == es[newId := store.entries]
    {
    }

    lemma ModelAfterDrop(before: map<string, LoroMemoryStore>, es: Epochs, now: int, ids: seq<string>, dropped: seq<string>)
      requires epochs == before - Elems(dropped) && es.Keys == before.Keys == Elems(ids)
      requires forall e :: e in before ==> es[e] == before[e].entries
      requires forall e :: e in dropped <==> e in ids && Expires(e, now)
      ensures Elems(dropped) == Expiring(es, currentEpochId, config, now)
      ensures Model() == Dropped(es, currentEpochId, config, now)
      ensures currentEpochId in before ==> currentEpochId in epochs
    {
      forall e ensures e in Elems(dropped) <==> e in Expiring(es, currentEpochId, config, now) {
        assert e in ids <==> e in Elems(ids);
      }
    }

    /** Opens the epoch of the clock and the retained epochs before it, each from its snapshot. */
    constructor (config: ValidConfig, peer: nat, now: int, snapshots: map<string, Loro.Doc>)
      requires forall e :: e in snapshots ==> Loro.Wf(snapshots[e]) && Loro.Coherent(snapshots[e].ops)
      ensures Valid() && Open() && fresh(epochs.Values) && !migrationInProgress
      ensures this.config == config && this.peer == peer
      ensures currentEpochId == ComputeEpochId(now, config.durationMs)
      ensures Model().Keys == Retained(config, now, config.retain + 1) && FromSnapshots(Model(), snapshots)
    {
      hide Loro.View, Loro.Wf, Loro.Coherent, LoroMemoryStore.Valid, Enumerates, ComputeEpochId, Retained, FromSnapshots;
      this.config, this.peer, migrationInProgress := config, peer, false;
      currentEpochId := ComputeEpochId(now, config.durationMs);
      epochs, order := map[], [];
      new;
      RestoredSound(snapshots);
      NoneRetained(config, now, snapshots);
      assert Model() == map[] && epochs.Keys == {};
      for i := 0 to config.retain + 1
        invariant Valid() && forall e :: e in epochs ==> fresh(epochs[e])
        invariant !migrationInProgress && currentEpochId == ComputeEpochId(now, config.durationMs)
        invariant Model().Keys == Retained(config, now, i) && FromSnapshots(Model(), snapshots)
        invariant i > 0 ==> currentEpochId in Model()
      {
        var id := ComputeEpochId(now - i * config.durationMs, config.durationMs);
        OneMoreRetained(config, now, i, Model(), snapshots);
        if id !in epochs {
          OpenEpoch(id, Restored(snapshots, id));
        }
      }
    }

    // ----- reading -----

    method OrderedEpochIds() returns (ids: seq<string>)
      requires Valid()
      ensures ids == Ordered(order, config) && NewestFirst(ids, epochs.Keys, config)
      ensures forall i :: 0 <= i < |ids| ==> ids[i] in epochs
    {
      ids := Ordered(order, config);
      EnumeratedKeys(order, epochs.Keys);
      OrderedIs(order, config);
      KeysListed(ids, epochs.Keys, config);
    }

    /** The newest epoch in which an id is live, searched from the newest epoch on. */
    method FindLive(id: string) returns (epochId: Option<string>)
      requires Valid()
      ensures epochId.Some? ==> epochId.value in epochs && NewestLive(Model(), config, epochId.value, id)
      ensures epochId.None? ==> !Readable(Model(), id)
    {
      hide Start, Loro.View, Loro.Wf, Loro.Coherent, LoroMemoryStore.Valid, Enumerates, Listing, Ordered;
      ghost var es := Model();
      var ids := OrderedEpochIds();
      for i := 0 to |ids|
        invariant forall j :: 0 <= j < i ==> !LiveIn(es, ids[j], id)
      {
        assert ids[i] in Elems(ids);
        var chunk := epochs[ids[i]].Get(id);
        if chunk.Some? {
          FirstLiveIsNewest(es, config, ids, i, id);
          return Some(ids[i]);
        }
      }
      NoneLive(es, ids, id);
      epochId := None;
    }

    method Get(id: string) returns (r: Option<Chunk>)
      requires Valid()
      ensures Reads(Model(), config, id, r)
    {
      hide Start, Loro.View, Loro.Wf, Loro.Coherent, LoroMemoryStore.Valid;
      var epochId := FindLive(id);
      if epochId.None? {
        return None;
      }
      r := epochs[epochId.value].Get(id);
    }

    method List() returns (r: seq<Chunk>)
      requires Valid()
      ensures r == Shown()
      ensures ResolvesTo(LiveSet(Model()), r)
    {
      hide Start, Loro.View, Loro.Wf, Loro.Coherent, LoroMemoryStore.Valid, Loro.Live, Listing, ResolvesTo, Heads, LiveSet, NewestFirst, Flatten,
        Ordered, Parts, Enumerates, Elems, Model;
      ghost var lists := Lists();
      ShownResolves();
      var ids := OrderedEpochIds();
      PartsNone(lists);
      assert ids[..0] == [];
      var results: seq<Chunk> := [];
      for i := 0 to |ids|
        invariant results == Flatten(Parts(lists, ids[..i]))
      {
        var chunks := epochs[ids[i]].List();
        PartsOneMore(lists, ids, i);
        results := results + chunks;
      }
      assert ids[..|ids|] == ids;
      r := ResolveHeads(results);
    }

    /** The answers of the single epochs, pooled and resolved once more; not re-sorted, not re-limited. */
    method Query(q: MemoryQuery, now: int, lower: string -> string) returns (r: seq<Chunk>)
      requires Valid()
      ensures r == Heads(Flatten(AnswersOf(Parts(Lists(), Ordered(order, config)), q, now, lower)))
      ensures forall c :: c in r ==> c in LiveSet(Model()) && Matches(c, q, now, lower)
    {
      hide Start, Loro.View, Loro.Wf, Loro.Coherent, LoroMemoryStore.Valid, Loro.Live, Listing, ApplyQuery, Heads, NewestFirst, Flatten, Elems, Matches, LiveSet,
        Ordered, AnswersOf, Enumerates;
      ghost var es, lists := Model(), Lists();
      ListsLive();
      var ids := OrderedEpochIds();
      ghost var parts := Parts(lists, ids);
      hide Model;
      NoAnswers(q, now, lower);
      assert parts[..0] == [];
      var results: seq<Chunk> := [];
      for i := 0 to |ids|
        invariant results == Flatten(AnswersOf(parts[..i], q, now, lower))
      {
        var chunks := epochs[ids[i]].Query(q, now, lower);
        AnswersOneMore(parts, q, now, lower, i);
        results := results + chunks;
      }
      assert parts[..|parts|] == parts;
      r := ResolveHeads(results);
      QueryWithin(es, lists, ids, q, now, lower);
    }

    // ----- writing -----

    /** Fails when the manager has been closed. */
    method Put(chunk: Chunk) returns (ok: bool)
      requires Valid()
      modifies epochs.Values
      ensures Valid() && ok == Open()
      ensures Model() == if ok then old(Model())[currentEpochId := old(Model())[currentEpochId][chunk.id := chunk]]
                         else old(Model())
    {
      hide Loro.View, Loro.Wf, Loro.Coherent, LoroMemoryStore.Valid, Enumerates;
      if currentEpochId !in epochs {
        return false;
      }
      epochs[currentEpochId].Put(chunk);
      return true;
    }

    method ForgetIn(epochId: string, id: string, now: int)
      requires Valid() && epochId in epochs
      modifies epochs.Values
      ensures Valid() && Model() == old(Model())[epochId := old(Model())[epochId][id := Loro.Tombstone(id, now)]]
    {
      hide Start, Loro.View, Loro.Wf, Loro.Coherent, LoroMemoryStore.Valid, Enumerates;
      epochs[epochId].Forget(id, now);
    }

    method Forget(id: string, now: int) returns (ok: bool)
      requires Valid()
      modifies epochs.Values
      ensures Valid() && ok == (old(Readable(Model(), id)) || Open())
      ensures if ok then ForgetsTo(old(Model()), Model(), config, currentEpochId, id, now) else Model() == old(Model())
    {
      hide Start, Loro.View, Loro.Wf, Loro.Coherent, LoroMemoryStore.Valid;
      var epochId := FindLive(id);
      if epochId.Some? {
        ForgetIn(epochId.value, id, now);
        return true;
      }
      if currentEpochId !in epochs {
        return false;
      }
      ForgetIn(currentEpochId, id, now);
      return true;
    }

    method Close()
      modifies this`epochs, this`order
      ensures Valid() && !Open() && Model() == map[]
    {
      epochs, order := map[], [];
    }

    // ----- epoch lifecycle -----

    /** `snapshot` is what the file of the epoch rotated into holds: nothing, if there is none. */
    method MaybeRotateEpoch(now: int, snapshot: Loro.Doc) returns (rotated: bool)
      requires Valid() && Loro.Wf(snapshot) && Loro.Coherent(snapshot.ops)
      modifies this
      ensures Valid() && migrationInProgress == old(migrationInProgress)
      ensures rotated == (ComputeEpochId(now, config.durationMs) != old(currentEpochId) && !old(migrationInProgress))
      ensures rotated ==> RotatesOver(old(Model()), Model(), currentEpochId, Loro.View(snapshot.ops), config, now)
                          && currentEpochId == ComputeEpochId(now, config.durationMs)
      ensures !rotated ==> currentEpochId == old(currentEpochId) && epochs == old(epochs) && order == old(order) && Model() == old(Model())
      ensures (rotated || old(Open())) ==> Open()
      ensures rotated ==> currentEpochId in epochs && epochs == old(epochs)[currentEpochId := epochs[currentEpochId]] && fresh(epochs[currentEpochId])
    {
      hide RotatesOver, Loro.View, Loro.Wf, Loro.Coherent, LoroMemoryStore.Valid, Valid, Model;
      var expected := ComputeEpochId(now, config.durationMs);
      if expected == currentEpochId || migrationInProgress {
        return false;
      }
      RotateEpoch(expected, now, snapshot);
      return true;
    }

    /** A new epoch with a store from its snapshot, not yet current. An open epoch of that id is replaced. */
    method OpenEpoch(newEpochId: string, snapshot: Loro.Doc)
      requires Valid() && Loro.Wf(snapshot) && Loro.Coherent(snapshot.ops)
      modifies this`epochs, this`order
      ensures Valid() && newEpochId in epochs && epochs == old(epochs)[newEpochId := epochs[newEpochId]]
      ensures fresh(epochs[newEpochId]) && epochs[newEpochId].persistent && epochs[newEpochId].peer == peer
      ensures Model() == old(Model())[newEpochId := Loro.View(snapshot.ops)]
    {
      hide Start, Loro.View, Loro.Wf, Loro.Coherent, LoroMemoryStore.Valid, Enumerates, Model;
      var newStore := new LoroMemoryStore(peer, true, snapshot);
      SetEpoch(newEpochId, newStore);
    }

    /** A key that is in the map already keeps its place. */
    method SetEpoch(id: string, store: LoroMemoryStore)
      requires Valid() && store.Valid() && store !in epochs.Values
      modifies this`epochs, this`order
      ensures Valid() && epochs == old(epochs)[id := store]
      ensures Model() == old(Model())[id := store.entries]
    {
      hide LoroMemoryStore.Valid, Enumerates;
      ghost var es := Model();
      EnumeratesMore(order, epochs.Keys, id);
      if id !in epochs {
        order := order + [id];
      }
      assert epochs[id := store].Keys == epochs.Keys + {id};
      epochs := epochs[id := store];
      ModelWithNew(old(epochs), es, id, store);
    }

    /** Opens the epoch, copies into it what is about to leave the retention window, and makes it current. */
    method RotateEpoch(newEpochId: string, now: int, snapshot: Loro.Doc)
      requires Valid() && Loro.Wf(snapshot) && Loro.Coherent(snapshot.ops)
      modifies this
      ensures Valid() && Open() && currentEpochId == newEpochId && !migrationInProgress
      ensures RotatesOver(old(Model()), Model(), newEpochId, Loro.View(snapshot.ops), config, now)
      ensures epochs == old(epochs)[newEpochId := epochs[newEpochId]]
      ensures fresh(epochs[newEpochId])
    {
      hide Start, Loro.View, Loro.Wf, Loro.Coherent, LoroMemoryStore.Valid, MigratesTo, RotatesOver, Valid, Model, Enumerates;
      ghost var es := Model();
      migrationInProgress := true;
      OpenEpoch(newEpochId, snapshot);
      ghost var es1 := Model();
      MigrateExpiring(newEpochId, epochs[newEpochId], now);
      RotatesWhen(es, es1, Model(), newEpochId, Loro.View(snapshot.ops), config, now);
      currentEpochId := newEpochId;
      migrationInProgress := false;
    }

    method MigrateExpiring(newEpochId: string, newStore: LoroMemoryStore, now: int)
      requires Valid() && newEpochId in epochs && epochs[newEpochId] == newStore
      modifies newStore
      ensures Valid()
      ensures MigratesTo(old(Model()), Model(), newEpochId, config, now)
    {
      hide Start, Loro.View, Loro.Wf, Loro.Coherent, LoroMemoryStore.Valid, Migrants, Carried, Holds, Keyed, Expiring, Outside, Cutoff, MigratesTo;
      var ids := order;
      EnumeratedKeys(order, epochs.Keys);
      ghost var es, m: View := Model(), map[];
      assert es[newEpochId] + m == es[newEpochId];
      assert es[newEpochId := es[newEpochId] + m] == es && es.Keys == epochs.Keys;
      OutsideNone(newEpochId, config, now);
      HoldsNothing(es, now);
      ModelKeyed();
      hide Elems, Model, Valid;
      for i := 0 to |ids|
        invariant Valid() && Model() == es[newEpochId := es[newEpochId] + m]
        invariant Holds(m, Migrants(es, Outside(ids[..i], newEpochId, config, now), now))
      {
        var epochId := ids[i];
        OutsideOneMore(ids, i, newEpochId, config, now);
        if epochId != newEpochId && Start(config, epochId) < Cutoff(config, now) {
          var _, _ := MigrateChunks(epochId, newEpochId, newStore, now);
          CarriedInto(es, newEpochId, m, epochId, now);
          MigrationHolds(es, Outside(ids[..i], newEpochId, config, now), epochId, now, m, m + Carried(es[epochId], now));
          m := m + Carried(es[epochId], now);
        }
      }
      assert ids[..|ids|] == ids;
      OutsideIsExpiring(es, newEpochId, config, now, ids);
      MigratesWhen(es, newEpochId, m, config, now);
    }

    /** Copies the unexpired live chunks of one epoch into the store of another. */
    method MigrateChunks(fromEpochId: string, ghost toEpochId: string, toStore: LoroMemoryStore, now: int)
      returns (migrated: nat, abandoned: nat)
      requires Valid() && fromEpochId in epochs && toEpochId in epochs && fromEpochId != toEpochId && epochs[toEpochId] == toStore
      modifies toStore
      ensures Valid()
      ensures Model() == old(Model())[toEpochId := old(Model())[toEpochId] + Carried(old(Model())[fromEpochId], now)]
      ensures (migrated, abandoned) == Split(old(Model())[fromEpochId], now)
      ensures
        var from, before, after := old(Model())[fromEpochId], old(Model())[toEpochId], Model()[toEpochId];
        && (forall k :: k in from && !from[k].tombstone && (from[k].ttl.None? || from[k].ttl.value >= now) ==> k in after && after[k] == from[k])
        && (forall k :: !(k in from && !from[k].tombstone && (from[k].ttl.None? || from[k].ttl.value >= now)) ==>
              (k in after <==> k in before) && (k in after ==> after[k] == before[k]))
        && migrated == |set k | k in from && !from[k].tombstone && (from[k].ttl.None? || from[k].ttl.value >= now)|
        && migrated + abandoned == |Loro.Live(from)|
    {
      hide Start, Loro.View, Loro.Wf, Loro.Coherent, Loro.Live, Carried, Merged, Expired, UnexpiredIds, Listing, Enumerates, Elems, NoRepeats, Split;
      var from := epochs[fromEpochId];
      Loro.ViewKeyed(from.doc.ops);
      var chunks := from.List();
      ghost var es, view := Model(), from.entries;
      migrated, abandoned := CopyChunks(chunks, view, toStore, now);
      assert Model() == es[toEpochId := toStore.entries];
      CarriedByTtl(view, es[toEpochId], now);
      assert (migrated, abandoned) == Split(view, now);
    }

    /** Removes the epochs outside the retention window, the current one excepted. */
    method DropExpiredEpochs(now: int) returns (dropped: seq<string>)
      requires Valid()
      modifies this`epochs, this`order
      ensures Valid()
      ensures old(Open()) ==> Open()
      ensures Elems(dropped) == Expiring(old(Model()), currentEpochId, config, now)
      ensures epochs == old(epochs) - Elems(dropped)
      ensures Model() == Dropped(old(Model()), currentEpochId, config, now)
    {
      hide Start, Loro.View, Loro.Wf, Loro.Coherent, LoroMemoryStore.Valid, Expiring, Dropped, Elems;
      ghost var es := Model();
      EnumeratedKeys(order, epochs.Keys);
      var ids, kept := order, [];
      dropped := [];
      NoneDropped(epochs);
      for i := 0 to |ids|
        invariant epochs == old(epochs) - Elems(dropped)
        invariant forall e :: e in dropped <==> e in ids[..i] && Expires(e, now)
        invariant NoRepeats(kept) && forall e :: e in kept <==> e in ids[..i] && !Expires(e, now)
      {
        var epochId := ids[i];
        assert ids[..i + 1] == ids[..i] + [epochId] && epochId !in ids[..i];
        if epochId != currentEpochId && Start(config, epochId) < Cutoff(config, now) {
          DroppedOneMore(old(epochs), dropped, epochId);
          epochs := epochs - {epochId};
          dropped := dropped + [epochId];
        } else {
          kept := kept + [epochId];
        }
      }
      assert ids[..|ids|] == ids;
      KeptKeys(old(epochs), ids, kept, dropped);
      order := kept;
      ModelAfterDrop(old(epochs), es, now, ids, dropped);
    }

    ghost predicate Expires(e: string, now: int)
      reads this`currentEpochId
    {
      e != currentEpochId && Start(config, e) < Cutoff(config, now)
    }
  }

  lemma KeptKeys<T>(m: map<string, T>, ids: seq<string>, kept: seq<string>, dropped: seq<string>)
    requires Elems(ids) == m.Keys && forall e :: e in kept <==> e in ids && e !in dropped
    ensures Elems(kept) == (m - Elems(dropped)).Keys
  {
    forall e ensures e in Elems(kept) <==> e in (m - Elems(dropped)).Keys {
      assert e in ids <==> e in Elems(ids);
    }
  }

  lemma NoneDropped<T>(m: map<string, T>)
    ensures m - Elems([]) == m
  {
  }

  lemma DroppedOneMore<T>(m: map<string, T>, dropped: seq<string>, e: string)
    ensures m - Elems(dropped) - {e} == m - Elems(dropped + [e])
  {
    assert Elems(dropped + [e]) == Elems(dropped) + {e};
  }

  /** Putting the unexpired chunks of a list over a store's entries, one by one. */
  ghost function Merged(before: View, chunks: seq<Chunk>, now: int): View {
    if chunks == [] then before
    else
      var v, c := Merged(before, chunks[..|chunks| - 1], now), chunks[|chunks| - 1];
      if Expired(c, now) then v else v[c.id := c]
  }

  function UnexpiredIds(chunks: seq<Chunk>, now: int): seq<string> {
    if chunks == [] then []
    else UnexpiredIds(chunks[..|chunks| - 1], now) + if Expired(chunks[|chunks| - 1], now) then [] else [chunks[|chunks| - 1].id]
  }

  lemma UnexpiredIdsNone(now: int)
    ensures UnexpiredIds([], now) == []
  {
  }

  lemma UnexpiredIdsOneMore(chunks: seq<Chunk>, now: int)
    requires chunks != []
    ensures |UnexpiredIds(chunks, now)| ==
            |UnexpiredIds(chunks[..|chunks| - 1], now)| + if Expired(chunks[|chunks| - 1], now) then 0 else 1
  {
  }

  lemma {:induction false} UnexpiredIdsAre(chunks: seq<Chunk>, now: int)
    requires forall i, j :: 0 <= i < j < |chunks| ==> chunks[i].id != chunks[j].id
    ensures NoRepeats(UnexpiredIds(chunks, now))
    ensures forall k :: k in UnexpiredIds(chunks, now) <==> exists c :: c in chunks && !Expired(c, now) && c.id == k
  {
    hide Expired;
    if chunks != [] {
      var init, last := chunks[..|chunks| - 1], chunks[|chunks| - 1];
      UnexpiredIdsAre(init, now);
      assert chunks == init + [last];
      assert last.id !in UnexpiredIds(init, now);
    }
  }

  lemma CarriedCount(view: View, chunks: seq<Chunk>, now: int)
    requires Elems(chunks) == Loro.Live(view) && (forall k :: k in view ==> view[k].id == k)
    requires forall i, j :: 0 <= i < j < |chunks| ==> chunks[i].id != chunks[j].id
    ensures Split(view, now) == (|UnexpiredIds(chunks, now)|, |chunks| - |UnexpiredIds(chunks, now)|)
  {
    hide Expired;
    DistinctCount(chunks);
    UnexpiredIdsAre(chunks, now);
    DistinctCount(UnexpiredIds(chunks, now));
    CarriedIds(view, chunks, now);
    hide UnexpiredIds, Carried, Loro.Live, NoRepeats;
    assert |Carried(view, now).Keys| == |Carried(view, now)|;
  }

  lemma CarriedIds(view: View, chunks: seq<Chunk>, now: int)
    requires Elems(chunks) == Loro.Live(view) && (forall k :: k in view ==> view[k].id == k)
    requires forall i, j :: 0 <= i < j < |chunks| ==> chunks[i].id != chunks[j].id
    ensures Elems(UnexpiredIds(chunks, now)) == Carried(view, now).Keys
  {
    hide Expired;
    UnexpiredIdsAre(chunks, now);
    hide UnexpiredIds;
    forall k ensures k in UnexpiredIds(chunks, now) <==> k in Carried(view, now) {
      if k in Carried(view, now) {
        assert view[k] in Elems(chunks);
      }
      if c :| c in chunks && !Expired(c, now) && c.id == k {
        assert c in Elems(chunks);
      }
    }
  }

  lemma MergedNothing(before: View, now: int)
    ensures Merged(before, [], now) == before
  {
  }

  lemma MergedOneMore(before: View, chunks: seq<Chunk>, now: int)
    requires chunks != []
    ensures
      var v, c := Merged(before, chunks[..|chunks| - 1], now), chunks[|chunks| - 1];
      Merged(before, chunks, now) == if Expired(c, now) then v else v[c.id := c]
  {
  }

  lemma {:induction false} MergedEntries(before: View, chunks: seq<Chunk>, now: int, k: string)
    requires forall i, j :: 0 <= i < |chunks| && 0 <= j < |chunks| && chunks[i].id == chunks[j].id ==> chunks[i] == chunks[j]
    ensures k in Merged(before, chunks, now) <==> k in before || exists c :: c in chunks && c.id == k && !Expired(c, now)
    ensures forall c :: c in chunks && c.id == k && !Expired(c, now) ==> Merged(before, chunks, now)[k] == c
    ensures k in before && (forall c :: c in chunks && c.id == k ==> Expired(c, now)) ==> Merged(before, chunks, now)[k] == before[k]
  {
    hide Expired;
    if chunks != [] {
      var init, last := chunks[..|chunks| - 1], chunks[|chunks| - 1];
      MergedEntries(before, init, now, k);
      assert chunks == init + [last];
    }
  }

  lemma MergedIsCarried(view: View, chunks: seq<Chunk>, before: View, now: int)
    requires Elems(chunks) == Loro.Live(view) && forall k :: k in view ==> view[k].id == k
    ensures Merged(before, chunks, now) == before + Carried(view, now)
  {
    hide Expired;
    var after := Merged(before, chunks, now);
    forall c ensures c in chunks <==> c.id in view && view[c.id] == c && !c.tombstone {
      assert c in chunks <==> c in Elems(chunks);
    }
    forall i, j | 0 <= i < |chunks| && 0 <= j < |chunks| && chunks[i].id == chunks[j].id ensures chunks[i] == chunks[j] {
      assert chunks[i] in chunks && chunks[j] in chunks;
    }
    forall k
      ensures k in after <==> k in before || k in Carried(view, now)
      ensures k in after ==> after[k] == if k in Carried(view, now) then view[k] else before[k]
    {
      MergedEntries(before, chunks, now, k);
      if k in Carried(view, now) {
        assert view[k] in chunks;
      }
    }
  }

  /** The entries of a store that migration carries over. */
  ghost function Carried(v: View, now: int): View {
    map k | k in v && !v[k].tombstone && !Expired(v[k], now) :: v[k]
  }

  /** Carried over is what is live and has no ttl, or one that has not passed. */
  lemma CarriedByTtl(v: View, before: View, now: int)
    ensures
      var after := before + Carried(v, now);
      && (forall k :: k in v && !v[k].tombstone && (v[k].ttl.None? || v[k].ttl.value >= now) ==> k in after && after[k] == v[k])
      && (forall k :: !(k in v && !v[k].tombstone && (v[k].ttl.None? || v[k].ttl.value >= now)) ==>
            (k in after <==> k in before) && (k in after ==> after[k] == before[k]))
    ensures Split(v, now).0 == |set k | k in v && !v[k].tombstone && (v[k].ttl.None? || v[k].ttl.value >= now)|
    ensures Split(v, now).0 + Split(v, now).1 == |Loro.Live(v)|
  {
    var ids := set k | k in v && !v[k].tombstone && (v[k].ttl.None? || v[k].ttl.value >= now);
    assert Carried(v, now).Keys == ids;
    assert |Carried(v, now).Keys| == |Carried(v, now)|;
    hide Loro.Live;
  }

  lemma MigrationHolds(es: Epochs, from: set<string>, e: string, now: int, before: View, after: View)
    requires e in es && Keyed(es) && Holds(before, Migrants(es, from, now)) && after == before + Carried(es[e], now)
    ensures Holds(after, Migrants(es, from + {e}, now))
  {
    forall c | c in Migrants(es, from + {e}, now) ensures c.id in after {
      var f, k :| f in es && f in from + {e} && k in es[f] && !es[f][k].tombstone && !Expired(es[f][k], now) && es[f][k] == c;
      if f != e {
        assert c in Migrants(es, from, now);
      }
    }
  }

  lemma PooledLive(es: Epochs, ids: seq<string>, lists: map<string, seq<Chunk>>)
    requires Elems(ids) == es.Keys == lists.Keys
    requires forall e :: e in es ==> Elems(lists[e]) == Loro.Live(es[e])
    ensures Elems(Flatten(Parts(lists, ids))) == LiveSet(es)
  {
    var parts := Parts(lists, ids);
    forall j | 0 <= j < |ids| ensures ids[j] in es && parts[j] == lists[ids[j]] {
      assert ids[j] in Elems(ids);
    }
    FlattenElements(parts);
    forall c | c in LiveSet(es) ensures c in Flatten(parts) {
      var e, k :| e in es && k in es[e] && !es[e][k].tombstone && es[e][k] == c;
      assert e in Elems(ids);
      var j :| 0 <= j < |ids| && ids[j] == e;
      assert c in Elems(parts[j]);
    }
    forall c | c in Flatten(parts) ensures c in LiveSet(es) {
      var j :| 0 <= j < |parts| && c in parts[j];
      assert c in Elems(parts[j]) && ids[j] in Elems(ids);
    }
  }

  /** The listed epochs outside the retention window, the new one excepted. */
  ghost function Outside(ids: seq<string>, newId: string, cfg: Config, now: int): set<string> {
    set e | e in ids && e != newId && Start(cfg, e) < Cutoff(cfg, now)
  }

  lemma OutsideNone(newId: string, cfg: Config, now: int)
    ensures Outside([], newId, cfg, now) == {}
  {
  }

  lemma OutsideOneMore(ids: seq<string>, i: nat, newId: string, cfg: Config, now: int)
    requires i < |ids|
    ensures
      var before, after := Outside(ids[..i], newId, cfg, now), Outside(ids[..i + 1], newId, cfg, now);
      if ids[i] != newId && Start(cfg, ids[i]) < Cutoff(cfg, now) then after == before + {ids[i]} else after == before
  {
    hide Start, Cutoff;
    assert ids[..i + 1] == ids[..i] + [ids[i]];
  }

  lemma OutsideIsExpiring(es: Epochs, newId: string, cfg: Config, now: int, ids: seq<string>)
    requires Elems(ids) == es.Keys
    ensures Outside(ids, newId, cfg, now) == Expiring(es, newId, cfg, now)
  {
    hide Start, Cutoff;
    assert forall e :: e in ids <==> e in Elems(ids);
  }

  /** The expiring chunks have been copied into the new epoch, over what it held. */
  ghost predicate MigratesTo(es1: Epochs, es2: Epochs, newId: string, cfg: Config, now: int) {
    && newId in es1
    && exists m :: Holds(m, Migrants(es1, Expiring(es1, newId, cfg, now), now)) && es2 == es1[newId := es1[newId] + m]
  }

  lemma MigratesWhen(es: Epochs, newId: string, m: View, cfg: Config, now: int)
    requires newId in es && Holds(m, Migrants(es, Expiring(es, newId, cfg, now), now))
    ensures MigratesTo(es, es[newId := es[newId] + m], newId, cfg, now)
  {
    hide Holds, Migrants, Expiring;
  }

  lemma CarriedInto(es: Epochs, newId: string, m: View, e: string, now: int)
    requires newId in es && e in es && e != newId
    ensures
      var es1 := es[newId := es[newId] + m];
      es1[newId := es1[newId] + Carried(es1[e], now)] == es[newId := es[newId] + (m + Carried(es[e], now))]
  {
    hide Carried;
    assert es[newId] + m + Carried(es[e], now) == es[newId] + (m + Carried(es[e], now));
  }

  lemma SameMigrants(es: Epochs, es1: Epochs, newId: string, base: View, cfg: Config, now: int)
    requires es1 == es[newId := base]
    ensures Expiring(es1, newId, cfg, now) == Expiring(es, newId, cfg, now)
    ensures Migrants(es1, Expiring(es, newId, cfg, now), now) == Migrants(es, Expiring(es, newId, cfg, now), now)
  {
    hide Start, Cutoff;
  }

  /** The new epoch neither expires nor contributes migrants. */
  lemma RotatesWhen(es: Epochs, es1: Epochs, es2: Epochs, newId: string, base: View, cfg: Config, now: int)
    requires es1 == es[newId := base] && MigratesTo(es1, es2, newId, cfg, now)
    ensures RotatesOver(es, es2, newId, base, cfg, now)
  {
    hide Holds, Start, Cutoff;
    var from := Expiring(es, newId, cfg, now);
    SameMigrants(es, es1, newId, base, cfg, now);
    hide Expiring, Migrants;
    assert Expiring(es1, newId, cfg, now) == from;
    assert Migrants(es1, from, now) == Migrants(es, from, now);
    var m :| Holds(m, Migrants(es, from, now)) && es2 == es1[newId := es1[newId] + m];
  }

  lemma HoldsNothing(es: Epochs, now: int)
    ensures Holds(map[], Migrants(es, {}, now))
  {
  }

  /** Whatever else it is, the answer consists of matching live chunks. */
  lemma QueryWithin(es: Epochs, lists: map<string, seq<Chunk>>, ids: seq<string>, q: MemoryQuery, now: int, lower: string -> string)
    requires lists.Keys == es.Keys && (forall e :: e in es ==> Elems(lists[e]) == Loro.Live(es[e]))
    requires forall i :: 0 <= i < |ids| ==> ids[i] in es
    ensures forall c :: c in Heads(Flatten(AnswersOf(Parts(lists, ids), q, now, lower))) ==> c in LiveSet(es) && Matches(c, q, now, lower)
  {
    hide ApplyQuery, Heads, Matches, Flatten;
    var parts := Parts(lists, ids);
    var answers := AnswersOf(parts, q, now, lower);
    HeadsResolve(Flatten(answers));
    FlattenElements(answers);
    forall c | c in Heads(Flatten(answers)) ensures c in LiveSet(es) && Matches(c, q, now, lower) {
      assert c in Elems(Flatten(answers));
      var i :| 0 <= i < |answers| && c in answers[i];
      QueryAnswer(parts[i], q, now, lower);
      assert c in Elems(parts[i]);
    }
  }

  /** The snapshot an epoch is opened from. */
  function Restored(snapshots: map<string, Loro.Doc>, e: string): Loro.Doc {
    if e in snapshots then snapshots[e] else Loro.EMPTY
  }

  /** The epochs of the clock and of the `n` - 1 epoch lengths before it. */
  ghost function Retained(cfg: ValidConfig, now: int, n: nat): set<string> {
    set i: nat | i < n :: ComputeEpochId(now - i * cfg.durationMs, cfg.durationMs)
  }

  /** Every epoch holds what its snapshot held. */
  ghost predicate FromSnapshots(es: Epochs, snapshots: map<string, Loro.Doc>) {
    forall e :: e in es ==> es[e] == Loro.View(Restored(snapshots, e).ops)
  }

  lemma NoneRetained(cfg: ValidConfig, now: int, snapshots: map<string, Loro.Doc>)
    ensures Retained(cfg, now, 0) == {} && FromSnapshots(map[], snapshots) && Enumerates([], {})
  {
  }

  lemma OneMoreRetained(cfg: ValidConfig, now: int, i: nat, es: Epochs, snapshots: map<string, Loro.Doc>)
    requires es.Keys == Retained(cfg, now, i) && FromSnapshots(es, snapshots)
    ensures
      var id := ComputeEpochId(now - i * cfg.durationMs, cfg.durationMs);
      var es' := if id in es then es else es[id := Loro.View(Restored(snapshots, id).ops)];
      es'.Keys == Retained(cfg, now, i + 1) && FromSnapshots(es', snapshots)
  {
    hide ComputeEpochId, Loro.View;
    var id := ComputeEpochId(now - i * cfg.durationMs, cfg.durationMs);
    assert Retained(cfg, now, i + 1) == Retained(cfg, now, i) + {id};
  }

  lemma RestoredSound(snapshots: map<string, Loro.Doc>)
    requires forall e :: e in snapshots ==> Loro.Wf(snapshots[e]) && Loro.Coherent(snapshots[e].ops)
    ensures forall e :: Loro.Wf(Restored(snapshots, e)) && Loro.Coherent(Restored(snapshots, e).ops)
  {
  }
}
