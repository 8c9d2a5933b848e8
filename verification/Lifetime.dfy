/** A manager from its opening on: users write and forget, and the scheduler ticks in between. */
module Lifetime {
  import opened Chunks
  import opened Query
  import opened Epochs
  import opened EpochTime
  import opened EpochManager
  import opened Gc
  import EpochOrder
  import Loro

  datatype Work =
    | Put(chunk: Chunk)
    | Forget(id: string, at: int)
    | Tick(now: int, gcNow: int)

  // ----- the times of the ticks -----

  function Times(work: seq<Work>): seq<int> {
    if work == [] then []
    else Times(work[..|work| - 1]) + if work[|work| - 1].Tick? then [work[|work| - 1].now] else []
  }

  /** The clock of the latest collection. */
  function Clock(work: seq<Work>, start: int): int {
    if work == [] then start
    else if work[|work| - 1].Tick? then work[|work| - 1].gcNow
    else Clock(work[..|work| - 1], start)
  }

  /** Neither clock goes back. */
  predicate Forward(work: seq<Work>, start: int) {
    forall i :: 0 <= i < |work| && work[i].Tick? ==> work[i].now <= work[i].gcNow && Clock(work[..i], start) <= work[i].gcNow
  }

  ghost function IdsOf(times: seq<int>, cfg: ValidConfig): set<string> {
    set i | 0 <= i < |times| :: ComputeEpochId(times[i], cfg.durationMs)
  }

  lemma IdsOneMore(times: seq<int>, cfg: ValidConfig, t: int)
    ensures IdsOf(times + [t], cfg) == IdsOf(times, cfg) + {ComputeEpochId(t, cfg.durationMs)}
  {
    hide ComputeEpochId;
    var more := times + [t];
    assert forall i :: 0 <= i < |times| ==> more[i] == times[i];
    forall x | x in IdsOf(times, cfg) ensures x in IdsOf(more, cfg) {
      var i :| 0 <= i < |times| && ComputeEpochId(times[i], cfg.durationMs) == x;
      assert more[i] == times[i];
    }
    assert more[|times|] == t;
  }

  lemma {:induction false} TimesPrefix(past: seq<int>, work: seq<Work>, i: nat)
    requires i <= |work|
    ensures |past| <= |past + Times(work[..i])| <= |past + Times(work)|
    ensures past + Times(work[..i]) == (past + Times(work))[..|past + Times(work[..i])|]
  {
    if i == |work| {
      assert work[..i] == work;
    } else {
      var init := work[..|work| - 1];
      TimesPrefix(past, init, i);
      assert init[..i] == work[..i];
    }
  }

  ghost predicate Orderly(times: seq<int>, cfg: ValidConfig) {
    EpochOrder.Ascending(times) && EpochOrder.SlipFree(times, cfg.durationMs)
  }

  lemma OrderlyUpTo(times: seq<int>, n: nat, cfg: ValidConfig)
    requires n <= |times| && Orderly(times, cfg)
    ensures Orderly(times[..n], cfg)
  {
    hide EpochOrder.InRange, EpochOrder.Slips;
    var fewer := times[..n];
    assert forall i :: 0 <= i < n ==> fewer[i] == times[i];
  }

  lemma OrderlyPrefix(past: seq<int>, work: seq<Work>, i: nat, cfg: ValidConfig)
    requires i <= |work| && Orderly(past + Times(work), cfg)
    ensures Orderly(past + Times(work[..i]), cfg)
  {
    hide Orderly, Times;
    TimesPrefix(past, work, i);
    OrderlyUpTo(past + Times(work), |past + Times(work[..i])|, cfg);
  }

  /** At a slip-free tick the id is the current one, or none that is open. */
  lemma TickOpensNew(times: seq<int>, cfg: ValidConfig, now: int, open: set<string>)
    requires times != [] && Orderly(times + [now], cfg) && open <= IdsOf(times, cfg)
    ensures
      var id := ComputeEpochId(now, cfg.durationMs);
      id == ComputeEpochId(times[|times| - 1], cfg.durationMs) || id !in open
  {
    hide ComputeEpochId, EpochOrder.SlipFree;
    var more := times + [now];
    assert more[|times|] == now && forall i :: 0 <= i < |times| ==> more[i] == times[i];
    EpochOrder.TickIsFresh(more, cfg.durationMs, |times|);
  }

  // ----- what one piece of work does to reads -----

  /** Reads of what is unexpired, and reads of nothing, are as before, but for the ids in `touched`. */
  ghost predicate KeepsReadsBut(es: Epochs, es': Epochs, cfg: Config, now: int, touched: set<string>) {
    forall id, r :: id !in touched && Reads(es, cfg, id, r) && (r.None? || !Expired(r.value, now)) ==> Reads(es', cfg, id, r)
  }

  function Touches(w: Work): set<string> {
    match w
    case Put(c) => {c.id}
    case Forget(id, _) => {id}
    case Tick(_, _) => {}
  }

  function Brings(w: Work): set<Chunk> {
    if w.Put? then {w.chunk} else {}
  }

  ghost predicate WorkDone(es: Epochs, es': Epochs, cfg: Config, w: Work, now: int) {
    && KeepsReadsBut(es, es', cfg, now, Touches(w))
    && LiveSet(es') <= LiveSet(es) + Brings(w)
    && (w.Put? ==> Reads(es', cfg, w.chunk.id, Some(w.chunk)))
  }

  lemma LiveOneContent(es: Epochs, kept: set<Chunk>)
    requires Keyed(es) && LiveSet(es) <= kept && AppendOnly(kept)
    ensures OneContent(es)
  {
    forall e, f, id | LiveIn(es, e, id) && LiveIn(es, f, id) ensures es[e][id] == es[f][id] {
      assert es[e][id] in LiveSet(es) && es[f][id] in LiveSet(es);
    }
  }

  lemma PutReads(es: Epochs, es': Epochs, cfg: Config, current: string, c: Chunk)
    requires Keyed(es) && current in es && es' == es[current := es[current][c.id := c]] && !c.tombstone
    requires AppendOnly(LiveSet(es) + {c})
    ensures Reads(es', cfg, c.id, Some(c)) && LiveSet(es') <= LiveSet(es) + {c}
  {
    hide Start;
    assert LiveSet(es') <= LiveSet(es) + {c};
    assert Keyed(es');
    LiveOneContent(es', LiveSet(es) + {c});
    hide LiveSet, Keyed;
    assert LiveIn(es', current, c.id);
    var e := NewestExists(es', cfg, c.id);
  }

  lemma OthersRead(es: Epochs, es': Epochs, cfg: Config, e: string, v: View, id: string)
    requires e in es && es' == es[e := v] && (forall k :: k != id ==> (k in v <==> k in es[e]) && (k in v ==> v[k] == es[e][k]))
    ensures forall now :: KeepsReadsBut(es, es', cfg, now, {id})
  {
    hide Start;
    forall k, r | k != id && Reads(es, cfg, k, r) ensures Reads(es', cfg, k, r) {
      forall f ensures LiveIn(es, f, k) <==> LiveIn(es', f, k) {
      }
      forall f ensures LiveIn(es, f, k) ==> es[f][k] == es'[f][k] {
      }
      hide LiveIn;
    }
    hide Reads;
  }

  lemma PutDone(es: Epochs, es': Epochs, cfg: Config, current: string, c: Chunk, now: int)
    requires Keyed(es) && current in es && es' == es[current := es[current][c.id := c]] && !c.tombstone
    requires AppendOnly(LiveSet(es) + {c})
    ensures WorkDone(es, es', cfg, Put(c), now) && OneContent(es')
  {
    assert Keyed(es');
    PutReads(es, es', cfg, current, c);
    LiveOneContent(es', LiveSet(es) + {c});
    hide LiveSet, Keyed, Reads, OneContent, AppendOnly;
    OthersRead(es, es', cfg, current, es'[current], c.id);
    hide KeepsReadsBut;
  }

  lemma ForgetDone(es: Epochs, es': Epochs, cfg: Config, current: string, id: string, at: int, now: int)
    requires Keyed(es) && OneContent(es) && ForgetsTo(es, es', cfg, current, id, at)
    ensures WorkDone(es, es', cfg, Forget(id, at), now) && OneContent(es')
  {
    hide Start;
    var e :| e in es && es' == es[e := es[e][id := Loro.Tombstone(id, at)]];
    hide Readable, NewestLive, ForgetsTo;
    assert LiveSet(es') <= LiveSet(es);
    forall f, k ensures LiveIn(es', f, k) ==> LiveIn(es, f, k) && es'[f][k] == es[f][k] {
    }
    hide LiveIn, LiveSet, Keyed, Reads;
    OthersRead(es, es', cfg, e, es'[e], id);
    hide KeepsReadsBut;
  }

  lemma TickDone(es: Epochs, es': Epochs, cfg: Config, now: int, gcNow: int)
    requires KeepsReads(es, es', cfg, gcNow) && LiveSet(es') <= LiveSet(es)
    ensures WorkDone(es, es', cfg, Tick(now, gcNow), gcNow)
  {
    hide Reads, LiveSet;
  }

  /** One piece of work. A new epoch has no snapshot file yet. */
  method Perform(mgr: LoroEpochManager, w: Work, ghost clock: int)
    requires mgr.Valid() && mgr.Open() && OneContent(mgr.Model()) && !mgr.migrationInProgress
    requires w.Put? ==> !w.chunk.tombstone && AppendOnly(LiveSet(mgr.Model()) + {w.chunk})
    requires w.Tick? ==> w.now <= w.gcNow
    requires w.Tick? ==> var id := ComputeEpochId(w.now, mgr.config.durationMs); id == mgr.currentEpochId || id !in mgr.Model()
    modifies mgr, mgr.epochs.Values
    ensures mgr.Valid() && mgr.Open() && OneContent(mgr.Model()) && !mgr.migrationInProgress
    ensures WorkDone(old(mgr.Model()), mgr.Model(), mgr.config, w, if w.Tick? then w.gcNow else clock)
    ensures mgr.currentEpochId == if w.Tick? then ComputeEpochId(w.now, mgr.config.durationMs) else old(mgr.currentEpochId)
    ensures mgr.Model().Keys <= old(mgr.Model().Keys) + {mgr.currentEpochId}
    ensures forall e :: e in mgr.epochs ==> (e in old(mgr.epochs) && mgr.epochs[e] == old(mgr.epochs)[e]) || fresh(mgr.epochs[e])
  {
    hide Start, KeepsReads, OneContent, ComputeEpochId, ListedBy, ExpiredCount, Expiring, ForgetsTo, WorkDone, Keyed, LiveSet, AppendOnly,
      Readable, LoroEpochManager.Valid;
    ghost var es := mgr.Model();
    mgr.ModelKeyed();
    match w
    case Put(c) =>
      var _ := mgr.Put(c);
      PutDone(es, mgr.Model(), mgr.config, mgr.currentEpochId, c, clock);
    case Forget(id, at) =>
      var _ := mgr.Forget(id, at);
      ForgetDone(es, mgr.Model(), mgr.config, mgr.currentEpochId, id, at, clock);
    case Tick(now, gcNow) =>
      EmptyDoc();
      var _, _, _, _ := RunAll(mgr, now, gcNow, Loro.EMPTY);
      TickDone(es, mgr.Model(), mgr.config, now, gcNow);
  }

  lemma EmptyDoc()
    ensures Loro.Wf(Loro.EMPTY) && Loro.Coherent(Loro.EMPTY.ops)
  {
  }

  // ----- a whole life -----

  ghost function Touched(work: seq<Work>): set<string> {
    set i, id | 0 <= i < |work| && id in Touches(work[i]) :: id
  }

  ghost function Brought(work: seq<Work>): set<Chunk> {
    set i | 0 <= i < |work| && work[i].Put? :: work[i].chunk
  }

  /** The work at `i` puts a chunk, and nothing after that forgets its id. */
  ghost predicate PutForGood(work: seq<Work>, i: nat)
    requires i < |work|
  {
    work[i].Put? && forall j :: i < j < |work| && work[j].Forget? ==> work[j].id != work[i].chunk.id
  }

  /** Nothing becomes unreadable but by expiring or being forgotten, and nothing becomes readable but by being put. */
  ghost predicate AllDone(es: Epochs, es': Epochs, cfg: Config, work: seq<Work>, now: int) {
    && KeepsReadsBut(es, es', cfg, now, Touched(work))
    && LiveSet(es') <= LiveSet(es) + Brought(work)
    && forall i :: 0 <= i < |work| && PutForGood(work, i) && !Expired(work[i].chunk, now) ==>
                     Reads(es', cfg, work[i].chunk.id, Some(work[i].chunk))
  }

  lemma NothingDone(es: Epochs, cfg: Config, now: int)
    ensures AllDone(es, es, cfg, [], now)
  {
    hide Reads;
  }

  lemma TouchedOneMore(work: seq<Work>, w: Work)
    ensures Touched(work + [w]) == Touched(work) + Touches(w) && Brought(work + [w]) == Brought(work) + Brings(w)
  {
    var more := work + [w];
    assert more[|work|] == w && forall i :: 0 <= i < |work| ==> more[i] == work[i];
    hide Touches;
    forall id | id in Touched(work) ensures id in Touched(more) {
      var i :| 0 <= i < |work| && id in Touches(work[i]);
      assert id in Touches(more[i]);
    }
    forall c | c in Brought(work) ensures c in Brought(more) {
      var i :| 0 <= i < |work| && work[i].Put? && work[i].chunk == c;
      assert more[i].Put? && more[i].chunk == c;
    }
  }

  lemma OneMoreDone(es: Epochs, es1: Epochs, es2: Epochs, cfg: Config, work: seq<Work>, w: Work, now: int, later: int)
    requires AllDone(es, es1, cfg, work, now) && WorkDone(es1, es2, cfg, w, later) && now <= later
    requires AppendOnly(LiveSet(es) + Brought(work + [w]))
    ensures AllDone(es, es2, cfg, work + [w], later)
  {
    hide Reads, LiveSet, Touched, Brought, AppendOnly;
    TouchedOneMore(work, w);
    var more := work + [w];
    forall i | 0 <= i < |more| && PutForGood(more, i) && !Expired(more[i].chunk, later)
      ensures Reads(es2, cfg, more[i].chunk.id, Some(more[i].chunk))
    {
      if i < |work| {
        StillForGood(work, w, i);
        if w.Put? && w.chunk.id == work[i].chunk.id {
          SamePut(es, work, w, i);
        }
      }
    }
  }

  lemma StillForGood(work: seq<Work>, w: Work, i: nat)
    requires i < |work| && PutForGood(work + [w], i)
    ensures PutForGood(work, i) && (w.Forget? ==> w.id != work[i].chunk.id)
  {
    var more := work + [w];
    assert more[|work|] == w && forall j :: 0 <= j < |work| ==> more[j] == work[j];
  }

  lemma SamePut(es: Epochs, work: seq<Work>, w: Work, i: nat)
    requires i < |work| && work[i].Put? && w.Put? && w.chunk.id == work[i].chunk.id && AppendOnly(LiveSet(es) + Brought(work + [w]))
    ensures w.chunk == work[i].chunk
  {
    hide LiveSet;
    var more := work + [w];
    assert more[|work|] == w && more[i] == work[i];
  }

  lemma BroughtPrefix(work: seq<Work>, i: nat)
    requires i < |work|
    ensures Brought(work[..i]) <= Brought(work) && (work[i].Put? ==> work[i].chunk in Brought(work))
  {
  }

  ghost predicate Sound(es: Epochs, work: seq<Work>) {
    AppendOnly(LiveSet(es) + Brought(work)) && forall c :: c in Brought(work) ==> !c.tombstone
  }

  lemma SoundStep(es: Epochs, es1: Epochs, work: seq<Work>, i: nat)
    requires i < |work| && Sound(es, work) && LiveSet(es1) <= LiveSet(es) + Brought(work[..i])
    ensures AppendOnly(LiveSet(es) + Brought(work[..i + 1]))
    ensures work[i].Put? ==> !work[i].chunk.tombstone && AppendOnly(LiveSet(es1) + {work[i].chunk})
  {
    hide LiveSet;
    BroughtPrefix(work, i);
    if i + 1 < |work| {
      BroughtPrefix(work, i + 1);
    } else {
      assert work[..i + 1] == work;
    }
    hide Brought;
  }

  /**
   * Users and the scheduler on one manager whose open epochs are those of the times in `past`. As long as the clocks do not
   * go back, the weekly ones do not slip, and an id never stands for two chunks: every unexpired chunk that is not forgotten
   * stays readable, and so does every one put meanwhile; an id that is not put stays unreadable if it was.
   */
  method RunWork(mgr: LoroEpochManager, ghost past: seq<int>, work: seq<Work>, ghost start: int)
    requires mgr.Valid() && mgr.Open() && OneContent(mgr.Model()) && !mgr.migrationInProgress
    requires past != [] && mgr.Model().Keys <= IdsOf(past, mgr.config)
    requires mgr.currentEpochId == ComputeEpochId(past[|past| - 1], mgr.config.durationMs)
    requires Orderly(past + Times(work), mgr.config) && Forward(work, start) && Sound(mgr.Model(), work)
    modifies mgr, mgr.epochs.Values
    ensures mgr.Valid() && mgr.Open() && OneContent(mgr.Model()) && !mgr.migrationInProgress
    ensures AllDone(old(mgr.Model()), mgr.Model(), mgr.config, work, Clock(work, start))
    ensures
      var times := past + Times(work);
      && mgr.Model().Keys <= IdsOf(times, mgr.config)
      && mgr.currentEpochId == ComputeEpochId(times[|times| - 1], mgr.config.durationMs)
  {
    hide Start, OneContent, ComputeEpochId, IdsOf, WorkDone, AllDone, Orderly, Forward, Sound, LiveSet, AppendOnly, Reached, Ready,
      LoroEpochManager.Model, LoroEpochManager.Valid;
    ghost var es, cfg := mgr.Model(), mgr.config;
    NothingReached(es, cfg, mgr.currentEpochId, past, work, start);
    for i := 0 to |work|
      invariant mgr.Valid() && mgr.Open() && OneContent(mgr.Model()) && !mgr.migrationInProgress
      invariant Reached(es, mgr.Model(), cfg, mgr.currentEpochId, past, work[..i], start)
      invariant forall e :: e in mgr.epochs ==> (e in old(mgr.epochs) && mgr.epochs[e] == old(mgr.epochs)[e]) || fresh(mgr.epochs[e])
    {
      ghost var es1, before, current := mgr.Model(), work[..i], mgr.currentEpochId;
      GetsReady(es, es1, cfg, current, past, work, i, start);
      ReadyMeans(es1, cfg, current, work[i]);
      Perform(mgr, work[i], Clock(before, start));
      ReachesMore(es, es1, mgr.Model(), cfg, current, mgr.currentEpochId, past, work, i, start);
    }
    assert work[..|work|] == work;
    ReachedMeans(es, mgr.Model(), cfg, mgr.currentEpochId, past, work, start);
  }

  /** What the work so far has come to. */
  ghost predicate Reached(es: Epochs, es': Epochs, cfg: ValidConfig, current: string, past: seq<int>, work: seq<Work>, start: int) {
    var times := past + Times(work);
    && AllDone(es, es', cfg, work, Clock(work, start))
    && es'.Keys <= IdsOf(times, cfg)
    && times != [] && current == ComputeEpochId(times[|times| - 1], cfg.durationMs)
  }

  /** What a piece of work needs. */
  ghost predicate Ready(es: Epochs, cfg: ValidConfig, current: string, w: Work) {
    match w
    case Put(c) => !c.tombstone && AppendOnly(LiveSet(es) + {c})
    case Forget(_, _) => true
    case Tick(now, gcNow) => now <= gcNow && (ComputeEpochId(now, cfg.durationMs) == current || ComputeEpochId(now, cfg.durationMs) !in es)
  }

  lemma ReadyMeans(es: Epochs, cfg: ValidConfig, current: string, w: Work)
    requires Ready(es, cfg, current, w)
    ensures w.Put? ==> !w.chunk.tombstone && AppendOnly(LiveSet(es) + {w.chunk})
    ensures w.Tick? ==> w.now <= w.gcNow
    ensures w.Tick? ==> ComputeEpochId(w.now, cfg.durationMs) == current || ComputeEpochId(w.now, cfg.durationMs) !in es
  {
    hide ComputeEpochId, LiveSet, AppendOnly;
  }

  lemma ReachedMeans(es: Epochs, es': Epochs, cfg: ValidConfig, current: string, past: seq<int>, work: seq<Work>, start: int)
    requires Reached(es, es', cfg, current, past, work, start)
    ensures AllDone(es, es', cfg, work, Clock(work, start))
    ensures
      var times := past + Times(work);
      es'.Keys <= IdsOf(times, cfg) && times != [] && current == ComputeEpochId(times[|times| - 1], cfg.durationMs)
  {
    hide AllDone, IdsOf, ComputeEpochId;
  }

  lemma NothingReached(es: Epochs, cfg: ValidConfig, current: string, past: seq<int>, work: seq<Work>, start: int)
    requires past != [] && es.Keys <= IdsOf(past, cfg) && current == ComputeEpochId(past[|past| - 1], cfg.durationMs)
    ensures Reached(es, es, cfg, current, past, work[..0], start)
  {
    hide AllDone, IdsOf, ComputeEpochId;
    NothingDone(es, cfg, start);
    assert work[..0] == [] && past + [] == past;
  }

  lemma GetsReady(es: Epochs, es1: Epochs, cfg: ValidConfig, current: string, past: seq<int>, work: seq<Work>, i: nat, start: int)
    requires i < |work| && Reached(es, es1, cfg, current, past, work[..i], start)
    requires Orderly(past + Times(work), cfg) && Forward(work, start) && Sound(es, work)
    ensures Ready(es1, cfg, current, work[i])
  {
    hide ComputeEpochId, IdsOf, AllDone, Orderly, Sound, LiveSet, AppendOnly, Times, Clock;
    var before := work[..i];
    assert work[i].Tick? ==> work[i].now <= work[i].gcNow;
    hide Forward;
    DoneLive(es, es1, cfg, before, Clock(before, start));
    SoundStep(es, es1, work, i);
    OrderlyPrefix(past, work, i + 1, cfg);
    assert work[..i + 1] == before + [work[i]];
    OneMoreTime(past, before, work[i], start);
    if work[i].Tick? {
      TickOpensNew(past + Times(before), cfg, work[i].now, es1.Keys);
    }
  }

  lemma ReachesMore(es: Epochs, es1: Epochs, es2: Epochs, cfg: ValidConfig, current: string, current': string,
                    past: seq<int>, work: seq<Work>, i: nat, start: int)
    requires i < |work| && Reached(es, es1, cfg, current, past, work[..i], start)
    requires Forward(work, start) && Sound(es, work)
    requires WorkDone(es1, es2, cfg, work[i], if work[i].Tick? then work[i].gcNow else Clock(work[..i], start))
    requires current' == if work[i].Tick? then ComputeEpochId(work[i].now, cfg.durationMs) else current
    requires es2.Keys <= es1.Keys + {current'}
    ensures Reached(es, es2, cfg, current', past, work[..i + 1], start)
  {
    hide ComputeEpochId, IdsOf, WorkDone, AllDone, Sound, LiveSet, AppendOnly, Times;
    var before, w := work[..i], work[i];
    var times := past + Times(before);
    assert work[..i + 1] == before + [w];
    DoneLive(es, es1, cfg, before, Clock(before, start));
    SoundStep(es, es1, work, i);
    OneMoreTime(past, before, w, start);
    OneMoreDone(es, es1, es2, cfg, before, w, Clock(before, start), Clock(before + [w], start));
    CurrentIsOpen(times, cfg);
    if w.Tick? {
      IdsOneMore(times, cfg, w.now);
    }
  }

  lemma DoneLive(es: Epochs, es': Epochs, cfg: Config, work: seq<Work>, now: int)
    requires AllDone(es, es', cfg, work, now)
    ensures LiveSet(es') <= LiveSet(es) + Brought(work)
  {
    hide LiveSet, Brought, KeepsReadsBut;
  }

  lemma OneMoreTime(past: seq<int>, work: seq<Work>, w: Work, start: int)
    ensures past + Times(work + [w]) == if w.Tick? then (past + Times(work)) + [w.now] else past + Times(work)
    ensures Clock(work + [w], start) == if w.Tick? then w.gcNow else Clock(work, start)
  {
    var more := work + [w];
    assert more[..|more| - 1] == work;
  }

  lemma CurrentIsOpen(times: seq<int>, cfg: ValidConfig)
    requires times != []
    ensures ComputeEpochId(times[|times| - 1], cfg.durationMs) in IdsOf(times, cfg)
  {
    hide ComputeEpochId;
  }

  /** The times whose epochs a manager opens at `now`, oldest first. */
  function OpeningTimes(cfg: ValidConfig, now: int): seq<int> {
    seq(cfg.retain + 1, i requires 0 <= i < cfg.retain + 1 => now - (cfg.retain - i) * cfg.durationMs)
  }

  lemma OpeningIds(cfg: ValidConfig, now: int)
    ensures IdsOf(OpeningTimes(cfg, now), cfg) == Retained(cfg, now, cfg.retain + 1)
    ensures OpeningTimes(cfg, now)[cfg.retain] == now
  {
    hide ComputeEpochId;
    var times := OpeningTimes(cfg, now);
    forall id | id in Retained(cfg, now, cfg.retain + 1) ensures id in IdsOf(times, cfg) {
      var i: nat :| i < cfg.retain + 1 && ComputeEpochId(now - i * cfg.durationMs, cfg.durationMs) == id;
      assert times[cfg.retain - i] == now - i * cfg.durationMs;
    }
    forall id | id in IdsOf(times, cfg) ensures id in Retained(cfg, now, cfg.retain + 1) {
      var i :| 0 <= i < |times| && ComputeEpochId(times[i], cfg.durationMs) == id;
      var k: nat := cfg.retain - i;
      assert times[i] == now - k * cfg.durationMs;
    }
    assert 0 * cfg.durationMs == 0;
  }

  /** The snapshot files of an append-only store: sound, and an id never stands for two different live chunks. */
  ghost predicate Files(snapshots: map<string, Loro.Doc>) {
    && (forall e :: e in snapshots ==> Loro.Wf(snapshots[e]) && Loro.Coherent(snapshots[e].ops))
    && (forall e, f, id :: e in snapshots && f in snapshots && Loro.LiveAt(Loro.View(snapshots[e].ops), id)
                           && Loro.LiveAt(Loro.View(snapshots[f].ops), id) ==>
                             Loro.View(snapshots[e].ops)[id] == Loro.View(snapshots[f].ops)[id])
  }

  lemma OpenedOneContent(es: Epochs, snapshots: map<string, Loro.Doc>)
    requires Files(snapshots) && FromSnapshots(es, snapshots)
    ensures OneContent(es)
  {
    hide Loro.Wf, Loro.Coherent;
    EmptyView();
    hide Loro.View;
    forall e, f, id | LiveIn(es, e, id) && LiveIn(es, f, id) ensures es[e][id] == es[f][id] {
      assert e in snapshots && f in snapshots;
    }
  }

  /** What the files hold for the epochs that are opened. */
  ghost function OpenedFrom(cfg: ValidConfig, now: int, snapshots: map<string, Loro.Doc>): Epochs {
    map e | e in Retained(cfg, now, cfg.retain + 1) :: Loro.View(Restored(snapshots, e).ops)
  }

  lemma OpenedIs(es: Epochs, cfg: ValidConfig, now: int, snapshots: map<string, Loro.Doc>)
    requires es.Keys == Retained(cfg, now, cfg.retain + 1) && FromSnapshots(es, snapshots)
    ensures es == OpenedFrom(cfg, now, snapshots)
  {
    hide Loro.View, Retained, Restored;
  }

  /** A manager opened from its snapshot files and then at work: no chunk of the files is lost and none comes back. */
  method Live(config: ValidConfig, peer: nat, now: int, snapshots: map<string, Loro.Doc>, work: seq<Work>, ghost start: int)
    returns (mgr: LoroEpochManager)
    requires Files(snapshots) && Sound(OpenedFrom(config, now, snapshots), work)
    requires Forward(work, start) && Orderly(OpeningTimes(config, now) + Times(work), config)
    ensures fresh(mgr) && mgr.Valid() && mgr.Open() && mgr.config == config
    ensures AllDone(OpenedFrom(config, now, snapshots), mgr.Model(), config, work, Clock(work, start))
  {
    hide Start, OneContent, ComputeEpochId, IdsOf, AllDone, Orderly, Sound, Retained, FromSnapshots, OpenedFrom,
      LoroEpochManager.Model, LoroEpochManager.Valid;
    mgr := new LoroEpochManager(config, peer, now, snapshots);
    OpenedIs(mgr.Model(), config, now, snapshots);
    OpenedOneContent(mgr.Model(), snapshots);
    hide Files;
    OpeningIds(config, now);
    RunWork(mgr, OpeningTimes(config, now), work, start);
  }
}
