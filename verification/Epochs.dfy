/** Memory split into epochs: what reading, forgetting, rotating and dropping mean, on values. */
module Epochs {
  import opened Arith
  import opened Chunks
  import opened Query
  import opened EpochTime
  import Loro

  type View = map<string, Chunk>

  /** Epoch id to the entries of its store. */
  type Epochs = map<string, View>

  datatype Config = Config(durationMs: int, retain: nat)

  type ValidConfig = c: Config | c.durationMs > 0 witness Config(1, 0)

  function Start(cfg: Config, e: string): int {
    EpochStartMs(e, cfg.durationMs)
  }

  function Cutoff(cfg: Config, now: int): int {
    now - (cfg.retain + 1) * cfg.durationMs
  }

  ghost predicate LiveIn(es: Epochs, e: string, id: string) {
    e in es && Loro.LiveAt(es[e], id)
  }

  ghost predicate Readable(es: Epochs, id: string) {
    exists e :: LiveIn(es, e, id)
  }

  /** `e` is a newest epoch in which `id` is live. */
  ghost predicate NewestLive(es: Epochs, cfg: Config, e: string, id: string) {
    LiveIn(es, e, id) && forall f :: LiveIn(es, f, id) ==> Start(cfg, f) <= Start(cfg, e)
  }

  /** `r` is what `get(id)` may return. */
  ghost predicate Reads(es: Epochs, cfg: Config, id: string, r: Option<Chunk>) {
    match r
    case None => !Readable(es, id)
    case Some(c) => exists e :: NewestLive(es, cfg, e, id) && es[e][id] == c
  }

  /** All visible chunks, whatever their epoch. */
  ghost function LiveSet(es: Epochs): set<Chunk> {
    set e, k | e in es && k in es[e] && !es[e][k].tombstone :: es[e][k]
  }

  /** Stores are written append-only: an id never stands for two different live chunks. */
  ghost predicate OneContent(es: Epochs) {
    forall e, f, id :: LiveIn(es, e, id) && LiveIn(es, f, id) ==> es[e][id] == es[f][id]
  }

  /** An id stands for one chunk. */
  ghost predicate AppendOnly(kept: set<Chunk>) {
    forall c, d :: c in kept && d in kept && c.id == d.id ==> c == d
  }

  ghost predicate Keyed(es: Epochs) {
    forall e, k :: e in es && k in es[e] ==> es[e][k].id == k
  }

  // ----- forget -----

  ghost predicate ForgetsTo(es: Epochs, es': Epochs, cfg: Config, current: string, id: string, now: int) {
    exists e ::
      && (if Readable(es, id) then NewestLive(es, cfg, e, id) else e == current)
      && e in es && es' == es[e := es[e][id := Loro.Tombstone(id, now)]]
  }

  /** A chunk live in two epochs outlives one forget: reading it gives null afterwards exactly when it was live in at most one. */
  lemma ForgetHidesIff(es: Epochs, es': Epochs, cfg: Config, current: string, id: string, now: int)
    requires ForgetsTo(es, es', cfg, current, id, now)
    ensures !Readable(es', id) <==> forall e, f :: LiveIn(es, e, id) && LiveIn(es, f, id) ==> e == f
  {
    var e :| (if Readable(es, id) then NewestLive(es, cfg, e, id) else e == current)
             && e in es && es' == es[e := es[e][id := Loro.Tombstone(id, now)]];
    forall f ensures LiveIn(es', f, id) <==> LiveIn(es, f, id) && f != e {
    }
    if Readable(es', id) {
      var f :| LiveIn(es', f, id);
      assert LiveIn(es, f, id) && Readable(es, id);
      assert LiveIn(es, e, id) && e != f;
    }
  }

  /** Forgetting one id leaves the reads of every other id alone. */
  lemma ForgetKeepsOthers(es: Epochs, es': Epochs, cfg: Config, current: string, id: string, now: int, other: string, r: Option<Chunk>)
    requires ForgetsTo(es, es', cfg, current, id, now) && other != id
    ensures Reads(es, cfg, other, r) <==> Reads(es', cfg, other, r)
  {
    forall f ensures LiveIn(es, f, other) <==> LiveIn(es', f, other) {
    }
    forall f ensures LiveIn(es, f, other) ==> es[f][other] == es'[f][other] {
    }
    forall f ensures NewestLive(es, cfg, f, other) <==> NewestLive(es', cfg, f, other) {
    }
    if r.Some? && Reads(es, cfg, other, r) {
      var f :| NewestLive(es, cfg, f, other) && es[f][other] == r.value;
      assert NewestLive(es', cfg, f, other) && es'[f][other] == r.value;
    }
    if r.Some? && Reads(es', cfg, other, r) {
      var f :| NewestLive(es', cfg, f, other) && es'[f][other] == r.value;
      assert NewestLive(es, cfg, f, other) && es[f][other] == r.value;
    }
  }

  // ----- rotation and drop -----

  /** The epochs outside the retention window, the named one excepted. */
  function Expiring(es: Epochs, keep: string, cfg: Config, now: int): set<string> {
    set e | e in es && e != keep && Start(cfg, e) < Cutoff(cfg, now)
  }

  /** The unexpired live chunks of some epochs. */
  ghost function Migrants(es: Epochs, from: set<string>, now: int): set<Chunk> {
    set e, k | e in es && e in from && k in es[e] && !es[e][k].tombstone && !Expired(es[e][k], now) :: es[e][k]
  }

  /** A store that received exactly the chunks `ms`. */
  ghost predicate Holds(v: View, ms: set<Chunk>) {
    (forall k :: k in v ==> v[k] in ms && v[k].id == k) && (forall c :: c in ms ==> c.id in v)
  }

  ghost predicate RotatesTo(es: Epochs, es': Epochs, newId: string, cfg: Config, now: int) {
    && es'.Keys == es.Keys + {newId}
    && (forall e :: e in es && e != newId ==> es'[e] == es[e])
    && Holds(es'[newId], Migrants(es, Expiring(es, newId, cfg, now), now))
  }

  /**
   * Rotation into a store that starts from `base`, which is what the snapshot of the new epoch holds: the migrants are
   * written over it. If the new epoch was open already, its store is replaced.
   */
  ghost predicate RotatesOver(es: Epochs, es': Epochs, newId: string, base: View, cfg: Config, now: int) {
    && es'.Keys == es.Keys + {newId}
    && (forall e :: e in es && e != newId ==> es'[e] == es[e])
    && exists m :: Holds(m, Migrants(es, Expiring(es, newId, cfg, now), now)) && es'[newId] == base + m
  }

  /** With nothing in the snapshot that is rotation into an empty epoch. */
  lemma RotatesOverNothing(es: Epochs, es': Epochs, newId: string, cfg: Config, now: int)
    requires RotatesOver(es, es', newId, map[], cfg, now)
    ensures RotatesTo(es, es', newId, cfg, now)
  {
    hide Holds, Migrants, Expiring;
    var m :| Holds(m, Migrants(es, Expiring(es, newId, cfg, now), now)) && es'[newId] == map[] + m;
    assert map[] + m == m;
  }

  /** When an open epoch is rotated into again, what was live only there can be read afterwards exactly if the snapshot holds it. */
  lemma ReopenedReadsIff(es: Epochs, es': Epochs, newId: string, base: View, cfg: Config, now: int, id: string)
    requires Keyed(es) && RotatesOver(es, es', newId, base, cfg, now)
    requires forall e :: LiveIn(es, e, id) ==> e == newId
    ensures Readable(es', id) <==> Loro.LiveAt(base, id)
  {
    hide Start, Cutoff;
    var from := Expiring(es, newId, cfg, now);
    var ms := Migrants(es, from, now);
    assert newId !in from;
    hide Migrants, Expiring;
    forall c | c in ms ensures c.id != id {
      var e := MigrantIs(es, from, now, c);
      assert LiveIn(es, e, c.id) && e != newId;
    }
    var m :| Holds(m, ms) && es'[newId] == base + m;
    NotHeld(m, ms, id);
    assert Loro.LiveAt(base + m, id) <==> Loro.LiveAt(base, id);
    hide Holds, Keyed, Loro.LiveAt;
    OnlyLiveIn(es, es', newId, id);
  }

  lemma OnlyLiveIn(es: Epochs, es': Epochs, newId: string, id: string)
    requires newId in es' && forall e :: e in es' && e != newId ==> e in es && es'[e] == es[e]
    requires forall e :: LiveIn(es, e, id) ==> e == newId
    ensures Readable(es', id) <==> Loro.LiveAt(es'[newId], id)
  {
    forall e | LiveIn(es', e, id) ensures e == newId {
      assert e != newId ==> LiveIn(es, e, id);
    }
    assert Loro.LiveAt(es'[newId], id) ==> LiveIn(es', newId, id);
  }

  lemma NotHeld(m: View, ms: set<Chunk>, id: string)
    requires Holds(m, ms) && forall c :: c in ms ==> c.id != id
    ensures id !in m
  {
  }

  function Dropped(es: Epochs, current: string, cfg: Config, now: int): Epochs {
    es - Expiring(es, current, cfg, now)
  }

  lemma MigrantIs(es: Epochs, from: set<string>, now: int, c: Chunk) returns (e: string)
    requires c in Migrants(es, from, now) && Keyed(es)
    ensures e in from && LiveIn(es, e, c.id) && es[e][c.id] == c && !Expired(c, now)
  {
    var f, k :| f in es && f in from && k in es[f] && !es[f][k].tombstone && !Expired(es[f][k], now) && es[f][k] == c;
    e := f;
  }

  /** Where a chunk is live after rotating and dropping: where it was, or copied out of a dropped epoch. */
  lemma LiveAfterDrop(es: Epochs, es1: Epochs, newId: string, cfg: Config, now: int, e: string, id: string)
    requires Keyed(es) && newId !in es && RotatesTo(es, es1, newId, cfg, now)
    ensures LiveIn(Dropped(es1, newId, cfg, now), e, id) <==>
      (e != newId && LiveIn(es, e, id) && e !in Expiring(es, newId, cfg, now))
      || (e == newId && exists c :: c in Migrants(es, Expiring(es, newId, cfg, now), now) && c.id == id)
  {
    var from := Expiring(es, newId, cfg, now);
    assert Expiring(es1, newId, cfg, now) == from;
    if e == newId {
      if c :| c in Migrants(es, from, now) && c.id == id {
        assert es1[newId][id] in Migrants(es, from, now);
        var _ := MigrantIs(es, from, now, es1[newId][id]);
      }
    }
  }

  lemma ContentAfterDrop(es: Epochs, es1: Epochs, newId: string, cfg: Config, now: int, e: string, id: string) returns (f: string)
    requires Keyed(es) && newId !in es && RotatesTo(es, es1, newId, cfg, now)
    requires LiveIn(Dropped(es1, newId, cfg, now), e, id)
    ensures LiveIn(es, f, id) && es[f][id] == es1[e][id]
  {
    LiveAfterDrop(es, es1, newId, cfg, now, e, id);
    f := e;
    if e == newId {
      f := MigrantIs(es, Expiring(es, newId, cfg, now), now, es1[newId][id]);
    }
  }

  /**
   * Rotating into a new empty epoch and then dropping the expired ones, at one time, keeps every read of an
   * unexpired chunk and every read of nothing, and removes exactly the epochs whose chunks were migrated.
   */
  lemma RotateThenDrop(es: Epochs, es1: Epochs, newId: string, cfg: Config, now: int, id: string, r: Option<Chunk>)
    requires Keyed(es) && OneContent(es) && newId !in es && RotatesTo(es, es1, newId, cfg, now)
    requires Reads(es, cfg, id, r)
    ensures
      var es2 := Dropped(es1, newId, cfg, now);
      && es2.Keys == es.Keys - Expiring(es, newId, cfg, now) + {newId}
      && OneContent(es2) && Keyed(es2)
      && (r.None? ==> Reads(es2, cfg, id, None))
      && (r.Some? && !Expired(r.value, now) ==> Reads(es2, cfg, id, r))
  {
    hide Start, Migrants;
    var from, es2 := Expiring(es, newId, cfg, now), Dropped(es1, newId, cfg, now);
    assert Expiring(es1, newId, cfg, now) == from;
    forall e, f, k | LiveIn(es2, e, k) && LiveIn(es2, f, k) ensures es2[e][k] == es2[f][k] {
      var _ := ContentAfterDrop(es, es1, newId, cfg, now, e, k);
      var _ := ContentAfterDrop(es, es1, newId, cfg, now, f, k);
    }
    if r.None? && Readable(es2, id) {
      var e :| LiveIn(es2, e, id);
      var f := ContentAfterDrop(es, es1, newId, cfg, now, e, id);
      assert false;
    }
    if r.Some? && !Expired(r.value, now) {
      var e :| NewestLive(es, cfg, e, id) && es[e][id] == r.value;
      UnexpiredSurvives(es, es1, newId, cfg, now, e, id);
      var g := NewestExists(es2, cfg, id);
      var f := ContentAfterDrop(es, es1, newId, cfg, now, g, id);
      assert es2[g][id] == es[f][id] == es[e][id];
    }
  }

  lemma UnexpiredSurvives(es: Epochs, es1: Epochs, newId: string, cfg: Config, now: int, e: string, id: string)
    requires Keyed(es) && newId !in es && RotatesTo(es, es1, newId, cfg, now)
    requires LiveIn(es, e, id) && !Expired(es[e][id], now)
    ensures Readable(Dropped(es1, newId, cfg, now), id)
  {
    var from := Expiring(es, newId, cfg, now);
    if e in from {
      assert es[e][id] in Migrants(es, from, now) && es[e][id].id == id;
      LiveAfterDrop(es, es1, newId, cfg, now, newId, id);
      assert LiveIn(Dropped(es1, newId, cfg, now), newId, id);
    } else {
      LiveAfterDrop(es, es1, newId, cfg, now, e, id);
      assert LiveIn(Dropped(es1, newId, cfg, now), e, id);
    }
  }

  lemma NewestExists(es: Epochs, cfg: Config, id: string) returns (e: string)
    requires Readable(es, id)
    ensures NewestLive(es, cfg, e, id)
  {
    var candidates := set f | f in es && LiveIn(es, f, id);
    var f :| LiveIn(es, f, id);
    assert f in candidates;
    e := LatestStart(candidates, cfg);
  }

  lemma {:induction false} LatestStart(s: set<string>, cfg: Config) returns (e: string)
    requires s != {}
    ensures e in s && forall f :: f in s ==> Start(cfg, f) <= Start(cfg, e)
    decreases |s|
  {
    var f :| f in s;
    e := f;
    if s != {f} {
      var g := LatestStart(s - {f}, cfg);
      e := if Start(cfg, g) >= Start(cfg, f) then g else f;
      assert forall h :: h in s ==> h == f || h in s - {f};
    }
  }

  /** With fixed-length epochs the cut falls between epoch n - retain - 1 and its neighbours, n being the epoch of `now`. */
  lemma FixedRetention(cfg: Config, now: int, k: nat)
    requires cfg.durationMs > 0 && cfg.durationMs != WEEK_MS && now >= 0
    ensures
      var n := now / cfg.durationMs;
      && (Start(cfg, "epoch-" + Decimal(k)) < Cutoff(cfg, now) <==>
            k < n - cfg.retain - 1 || (k == n - cfg.retain - 1 && now % cfg.durationMs > 0))
      && (k >= n - cfg.retain ==> Start(cfg, "epoch-" + Decimal(k)) >= Cutoff(cfg, now))
  {
    hide EpochStartMs, Decimal;
    StartOfIndexId(k, cfg.durationMs);
    CutOfTime(k, now, cfg.retain + 1, cfg.durationMs);
  }

  /** The times for which an epoch id has a known start: from 1970 on, or week-years of four digits. */
  predicate Dated(cfg: Config, t: int) {
    if cfg.durationMs == WEEK_MS then 1000 <= WeekYear(t) <= 9999 else t >= 0
  }

  /** A weekly epoch is outside the window once retain + 1 weeks have passed since its Monday, a week later if its id is one too high. */
  lemma WeeklyRetention(cfg: Config, t: int, now: int)
    requires cfg.durationMs == WEEK_MS && Dated(cfg, t)
    ensures Start(cfg, ComputeEpochId(t, WEEK_MS)) < Cutoff(cfg, now) <==>
            Monday(t / DAY_MS) * DAY_MS + (if WeekIsSafe(t) then 0 else WEEK_MS) + (cfg.retain + 1) * WEEK_MS < now
  {
    hide EpochStartMs, ComputeEpochId, WeekIsSafe;
    WeeklyEpochContainsIff(t);
  }

  /** The epoch of a time begins less than one length before it, weeks whose id is one too high included. */
  lemma StartsLate(cfg: ValidConfig, t: int)
    requires Dated(cfg, t)
    ensures Start(cfg, ComputeEpochId(t, cfg.durationMs)) > t - cfg.durationMs
  {
    hide EpochStartMs, ComputeEpochId, WeekIsSafe;
    if cfg.durationMs == WEEK_MS {
      WeeklyEpochContainsIff(t);
      assert Monday(t / DAY_MS) > t / DAY_MS - 7;
      assert t == t / DAY_MS * DAY_MS + t % DAY_MS;
    } else {
      FixedEpochContains(t, cfg.durationMs);
    }
  }

  lemma CutoffIs(cfg: Config, now: int)
    ensures Cutoff(cfg, now) == now - cfg.retain * cfg.durationMs - cfg.durationMs
  {
    Distribute(cfg.retain + 1, cfg.retain, cfg.durationMs);
    assert 1 * cfg.durationMs == cfg.durationMs;
  }

  /** So for `retain` lengths it is inside the window. */
  lemma RecentStaysInside(cfg: ValidConfig, t: int, now: int)
    requires Dated(cfg, t) && now - t <= cfg.retain * cfg.durationMs + 1
    ensures Start(cfg, ComputeEpochId(t, cfg.durationMs)) >= Cutoff(cfg, now)
  {
    StartsLate(cfg, t);
    CutoffIs(cfg, now);
    hide Start, ComputeEpochId, Dated, Cutoff;
  }

  /** The last millisecond of an epoch: of the week of 5 January 1970, or of epoch 0. */
  lemma LastInstant(cfg: ValidConfig) returns (t: int)
    ensures Dated(cfg, t) && Start(cfg, ComputeEpochId(t, cfg.durationMs)) == t + 1 - cfg.durationMs
  {
    hide EpochStartMs, ComputeEpochId, Decimal;
    if cfg.durationMs == WEEK_MS {
      t := 11 * DAY_MS - 1;
      EarlySunday();
      WeeklyEpochContainsIff(t);
    } else {
      t := cfg.durationMs - 1;
      StartOfIndexId(0, cfg.durationMs);
      FirstIndex(cfg.durationMs);
    }
  }

  lemma EarlySunday()
    ensures
      var t := 11 * DAY_MS - 1;
      t / DAY_MS == 10 && Monday(10) == 4 && WeekYear(t) == 1970 && WeekIsSafe(t)
  {
    assert (11 * DAY_MS - 1) / DAY_MS == 10 && Thursday(10) == 7;
    assert DayFromYear(1970) == 0 && DayFromYear(1971) == 365;
    YearUnique(7, 1970);
  }

  lemma FirstIndex(durationMs: int)
    requires durationMs > 0 && durationMs != WEEK_MS
    ensures ComputeEpochId(durationMs - 1, durationMs) == "epoch-" + Decimal(0)
  {
    DivideBack(0, durationMs - 1, durationMs);
    assert 0 * durationMs + (durationMs - 1) == durationMs - 1;
  }

  /** `retain` lengths and one millisecond after its time, and no later, every epoch is still inside the window. */
  lemma InsideForIff(cfg: ValidConfig, gap: int)
    ensures (forall t :: Dated(cfg, t) ==> Start(cfg, ComputeEpochId(t, cfg.durationMs)) >= Cutoff(cfg, t + gap)) <==>
            gap <= cfg.retain * cfg.durationMs + 1
  {
    hide Start, ComputeEpochId, Dated, Cutoff;
    if gap <= cfg.retain * cfg.durationMs + 1 {
      forall t | Dated(cfg, t) ensures Start(cfg, ComputeEpochId(t, cfg.durationMs)) >= Cutoff(cfg, t + gap) {
        RecentStaysInside(cfg, t, t + gap);
      }
    } else {
      var t := LastInstant(cfg);
      CutoffIs(cfg, t + gap);
    }
  }

  lemma CutOfTime(k: int, now: int, r: int, d: int)
    requires d > 0
    ensures k * d < now - r * d <==> k < now / d - r || (k == now / d - r && now % d > 0)
  {
    var n, m := now / d, now % d;
    assert now == n * d + m;
    CutBetween(k, n, r, m, d);
  }

  lemma CutBetween(k: int, n: int, r: int, m: int, d: int)
    requires 0 <= m < d
    ensures k * d < n * d + m - r * d <==> k < n - r || (k == n - r && m > 0)
  {
    var gap := k - (n - r);
    Distribute(k, n - r, d);
    Distribute(n, r, d);
    Sign(gap, d);
  }

  // ----- list -----

  /** The answer of list() depends on the visible chunks only, not on the epochs they sit in. */
  lemma ListIgnoresPlacement(es: Epochs, es': Epochs, r: seq<Chunk>, r': seq<Chunk>)
    requires LiveSet(es) == LiveSet(es') && DistinctSiblingTimes(LiveSet(es))
    requires ResolvesTo(LiveSet(es), r) && ResolvesTo(LiveSet(es'), r')
    ensures Elems(r) == Elems(r')
  {
    ResolutionUnique(LiveSet(es), r, r');
  }

  /** Nothing becomes visible by rotating and dropping. */
  lemma RotationAddsNothing(es: Epochs, es1: Epochs, newId: string, cfg: Config, now: int)
    requires Keyed(es) && newId !in es && RotatesTo(es, es1, newId, cfg, now)
    ensures LiveSet(Dropped(es1, newId, cfg, now)) <= LiveSet(es)
  {
    hide Start, Cutoff;
    var es2 := Dropped(es1, newId, cfg, now);
    forall c | c in LiveSet(es2) ensures c in LiveSet(es) {
      var e, k :| e in es2 && k in es2[e] && !es2[e][k].tombstone && es2[e][k] == c;
      assert LiveIn(es2, e, k);
      var f := ContentAfterDrop(es, es1, newId, cfg, now, e, k);
    }
  }

  /** A rotation and drop that abandons nothing leaves the visible chunks, and so list(), as they were. */
  lemma RotationKeepsLiveSet(es: Epochs, es1: Epochs, newId: string, cfg: Config, now: int)
    requires Keyed(es) && OneContent(es) && newId !in es && RotatesTo(es, es1, newId, cfg, now)
    requires forall c :: c in LiveSet(es) ==> !Expired(c, now)
    ensures LiveSet(Dropped(es1, newId, cfg, now)) == LiveSet(es)
  {
    var es2 := Dropped(es1, newId, cfg, now);
    RotationAddsNothing(es, es1, newId, cfg, now);
    forall c | c in LiveSet(es) ensures c in LiveSet(es2) {
      var e, k :| e in es && k in es[e] && !es[e][k].tombstone && es[e][k] == c;
      assert LiveIn(es, e, k);
      UnexpiredSurvives(es, es1, newId, cfg, now, e, k);
      var g :| LiveIn(es2, g, k);
      var f := ContentAfterDrop(es, es1, newId, cfg, now, g, k);
      assert es2[g][k] == c;
    }
  }
}
