/**
 * What becomes of an id once a rotation is under way: which forgets are undone, and which puts are lost.
 */
module EpochFates {
  import opened Chunks
  import opened Epochs
  import opened EpochSteps
  import Loro

  // ----- runs -----

  lemma {:induction false} RunsOn(cfg: Config, s: State, es: seq<Event>, fs: seq<Event>)
    requires Runs(cfg, s, es) && Runs(cfg, Exec(cfg, s, es), fs)
    ensures Runs(cfg, s, es + fs) && Exec(cfg, s, es + fs) == Exec(cfg, Exec(cfg, s, es), fs)
    decreases |es|
  {
    hide Enabled, Step;
    if es == [] {
      assert es + fs == fs;
    } else {
      RunsOn(cfg, Step(cfg, s, es[0]), es[1..], fs);
      assert (es + fs)[1..] == es[1..] + fs;
    }
  }

  lemma RunsOne(cfg: Config, s: State, e: Event)
    requires Enabled(cfg, s, e)
    ensures Runs(cfg, s, [e]) && Exec(cfg, s, [e]) == Step(cfg, s, e)
  {
    hide Enabled, Step;
    assert [e][1..] == [];
  }

  /** The lifecycle going on by itself: no put, no forget, no new rotation. */
  predicate Undisturbed(es: seq<Event>) {
    forall i :: 0 <= i < |es| ==> !es[i].Put? && !es[i].Forget? && !es[i].StartRotation?
  }

  /** Nothing happens to the id, and no new rotation starts. */
  predicate Quiet(es: seq<Event>, id: string) {
    forall i :: 0 <= i < |es| ==>
                  && !es[i].StartRotation?
                  && !(es[i].Put? && es[i].chunk.id == id)
                  && !(es[i].Forget? && es[i].id == id)
  }

  lemma {:induction false} NoRotationIsTimely(cfg: Config, s: State, es: seq<Event>)
    requires Runs(cfg, s, es) && forall i :: 0 <= i < |es| ==> !es[i].StartRotation?
    ensures Timely(cfg, s, es)
    decreases |es|
  {
    hide Enabled, Step;
    if es != [] {
      NoRotationIsTimely(cfg, Step(cfg, s, es[0]), es[1..]);
    }
  }

  // ----- what every reachable state is like -----

  ghost predicate Sane(cfg: Config, s: State) {
    && Keyed(s.epochs) && s.current in s.epochs && s.current !in s.closed
    && match s.task
       case Idle => s.closed == {}
       case Opening(newId) => s.closed == {} && newId !in s.epochs
       case Migrating(newId, todo, chunks) =>
         && s.closed == {} && newId in s.epochs && newId != s.current && Elems(todo) <= s.epochs.Keys
         && forall c :: c in chunks ==> !c.tombstone
       case Rotated => s.closed == {}
       case Dropping(todo, closing) =>
         && (closing.None? ==> s.closed == {})
         && (closing.Some? ==> s.closed == {closing.value} && closing.value != s.current && Old(cfg, s, closing.value))
  }

  lemma VisitedLive(s: State, v: string, listing: seq<Chunk>)
    requires v in s.epochs && Keyed(s.epochs) && Elems(listing) == Loro.Live(s.epochs[v])
    ensures forall c :: c in listing <==> LiveIn(s.epochs, v, c.id) && s.epochs[v][c.id] == c
    ensures forall c :: c in listing ==> !c.tombstone
  {
    forall c ensures c in listing <==> LiveIn(s.epochs, v, c.id) && s.epochs[v][c.id] == c {
      assert c in listing <==> c in Elems(listing);
    }
  }

  lemma StepKeyed(cfg: Config, s: State, e: Event)
    requires Enabled(cfg, s, e) && Keyed(s.epochs)
    ensures Keyed(Step(cfg, s, e).epochs)
  {
    hide Start, Forgettable;
    forall f, id | f in Step(cfg, s, e).epochs && id in Step(cfg, s, e).epochs[f] ensures Step(cfg, s, e).epochs[f][id].id == id {
      StepEntry(cfg, s, e, f, id);
    }
  }

  lemma StepSane(cfg: Config, s: State, e: Event)
    requires Enabled(cfg, s, e) && Sane(cfg, s)
    ensures Sane(cfg, Step(cfg, s, e))
  {
    hide Start;
    StepKeyed(cfg, s, e);
    match e
    case Visit(listing) =>
      VisitedLive(s, s.task.todo[0], listing);
      assert Elems(s.task.todo[1..]) <= Elems(s.task.todo);
    case CopyOne => assert Step(cfg, s, e).epochs.Keys == s.epochs.Keys;
    case Put(_) => assert Step(cfg, s, e).epochs.Keys == s.epochs.Keys;
    case Forget(_, _, _) => assert Step(cfg, s, e).epochs.Keys == s.epochs.Keys;
    case _ =>
  }

  lemma {:induction false} RunSane(cfg: Config, s: State, es: seq<Event>)
    requires Runs(cfg, s, es) && Sane(cfg, s)
    ensures Sane(cfg, Exec(cfg, s, es))
    decreases |es|
  {
    hide Enabled, Step, Sane;
    if es != [] {
      StepSane(cfg, s, es[0]);
      RunSane(cfg, Step(cfg, s, es[0]), es[1..]);
    }
  }

  lemma RestIsSane(cfg: Config, s: State)
    requires AtRest(s)
    ensures Sane(cfg, s)
  {
  }

  // ----- where an id will be live when the lifecycle has run its course -----

  predicate PendingCopy(chunks: seq<Chunk>, id: string, now: int) {
    exists c :: c in chunks && c.id == id && !Expired(c, now)
  }

  /** A live copy in an epoch that the lifecycle will keep, or copy from before it drops it. */
  ghost predicate Spared(cfg: Config, s: State, e: string, id: string) {
    && LiveIn(s.epochs, e, id)
    && match s.task
       case Idle => true
       case Opening(_) => !Old(cfg, s, e) || !Expired(s.epochs[e][id], s.clock)
       case Migrating(newId, todo, _) => e == newId || !Old(cfg, s, e) || (e in todo && !Expired(s.epochs[e][id], s.clock))
       case Rotated => e == s.current || !Old(cfg, s, e)
       case Dropping(todo, closing) => e == s.current || !Old(cfg, s, e) || (e !in todo && closing != Some(e))
  }

  ghost predicate Destined(cfg: Config, s: State, id: string) {
    (s.task.Migrating? && PendingCopy(s.task.chunks, id, s.clock)) || exists e :: Spared(cfg, s, e, id)
  }

  ghost predicate Visible(s: State, id: string) {
    exists e :: LiveOpen(s, e, id)
  }

  lemma AtRestVisible(cfg: Config, s: State, id: string)
    requires Sane(cfg, s) && s.task.Idle?
    ensures Visible(s, id) <==> Destined(cfg, s, id)
  {
    forall e ensures LiveOpen(s, e, id) <==> Spared(cfg, s, e, id) {
    }
  }

  lemma VisitDestined(cfg: Config, s: State, listing: seq<Chunk>, id: string)
    requires Sane(cfg, s) && Enabled(cfg, s, Visit(listing))
    ensures Destined(cfg, Step(cfg, s, Visit(listing)), id) <==> Destined(cfg, s, id)
  {
    hide Start, Expired;
    var s', v := Step(cfg, s, Visit(listing)), s.task.todo[0];
    VisitedLive(s, v, listing);
    assert forall e :: e in s.task.todo <==> e == v || e in s.task.todo[1..];
    forall e ensures Spared(cfg, s', e, id) ==> Spared(cfg, s, e, id)
      ensures Spared(cfg, s, e, id) ==> Spared(cfg, s', e, id) || PendingCopy(s'.task.chunks, id, s.clock)
    {
      if Spared(cfg, s, e, id) && !Spared(cfg, s', e, id) {
        assert e == v && s.epochs[v][id] in listing;
      }
    }
    if PendingCopy(s'.task.chunks, id, s.clock) {
      assert Spared(cfg, s, v, id);
    }
  }

  lemma CopyDestined(cfg: Config, s: State, id: string)
    requires Sane(cfg, s) && Enabled(cfg, s, CopyOne)
    ensures Destined(cfg, Step(cfg, s, CopyOne), id) <==> Destined(cfg, s, id)
  {
    hide Start, Expired;
    var s', c, newId := Step(cfg, s, CopyOne), s.task.chunks[0], s.task.newId;
    assert forall x :: x in s.task.chunks <==> x == c || x in s.task.chunks[1..];
    assert !c.tombstone;
    forall e ensures Spared(cfg, s', e, id) <==> Spared(cfg, s, e, id) || (e == newId && c.id == id && !Expired(c, s.clock)) {
    }
    if c.id == id && !Expired(c, s.clock) {
      assert Spared(cfg, s', newId, id);
    }
  }

  lemma DropDestined(cfg: Config, s: State, id: string)
    requires Sane(cfg, s) && Enabled(cfg, s, DropNext)
    ensures Destined(cfg, Step(cfg, s, DropNext), id) <==> Destined(cfg, s, id)
  {
    hide Start, Expired;
    assert forall f :: f in s.task.todo <==> f == s.task.todo[0] || f in s.task.todo[1..];
    forall f ensures Spared(cfg, Step(cfg, s, DropNext), f, id) <==> Spared(cfg, s, f, id) {
    }
  }

  /** Nothing but a put, a forget or a new rotation changes where an id is bound to end up. */
  lemma StepDestined(cfg: Config, s: State, e: Event, id: string)
    requires Sane(cfg, s) && Enabled(cfg, s, e) && Quiet([e], id)
    ensures Destined(cfg, Step(cfg, s, e), id) <==> Destined(cfg, s, id)
  {
    hide Start, Expired, Forgettable;
    assert e == [e][0];
    var s' := Step(cfg, s, e);
    match e
    case Visit(listing) => VisitDestined(cfg, s, listing, id);
    case CopyOne => CopyDestined(cfg, s, id);
    case Opened(ids) =>
      forall f ensures Spared(cfg, s', f, id) <==> Spared(cfg, s, f, id) {
        assert f in s.epochs ==> f in Elems(ids);
      }
    case StartDrop(ids) =>
      forall f ensures Spared(cfg, s', f, id) <==> Spared(cfg, s, f, id) {
        assert f in s.epochs ==> f in Elems(ids);
      }
    case DropNext => DropDestined(cfg, s, id);
    case StartRotation(_, _) => assert false;
    case Forget(f, k, _) =>
      ForgetInOpen(cfg, s, f, k);
      forall g ensures Spared(cfg, s', g, id) <==> Spared(cfg, s, g, id) {
      }
    case _ =>
      forall f ensures Spared(cfg, s', f, id) <==> Spared(cfg, s, f, id) {
      }
  }

  lemma ForgetInOpen(cfg: Config, s: State, e: string, id: string)
    requires Forgettable(cfg, s, e, id)
    ensures e in s.epochs
  {
  }

  lemma {:induction false} RunDestined(cfg: Config, s: State, es: seq<Event>, id: string)
    requires Sane(cfg, s) && Runs(cfg, s, es) && Quiet(es, id)
    ensures Destined(cfg, Exec(cfg, s, es), id) <==> Destined(cfg, s, id)
    decreases |es|
  {
    hide Enabled, Step, Sane, Destined;
    if es != [] {
      StepSane(cfg, s, es[0]);
      StepDestined(cfg, s, es[0], id);
      RunDestined(cfg, Step(cfg, s, es[0]), es[1..], id);
    }
  }

  // ----- the lifecycle can always run its course -----

  lemma {:induction false} Enumeration<T>(s: set<T>) returns (r: seq<T>)
    ensures Elems(r) == s
    decreases |s|
  {
    if s == {} {
      r := [];
    } else {
      var x :| x in s;
      var rest := Enumeration(s - {x});
      r := rest + [x];
      assert Elems(r) == Elems(rest) + {x};
    }
  }

  function Phase(t: Task): nat {
    match t
    case Opening(_) => 4
    case Migrating(_, _, _) => 3
    case Rotated => 2
    case Dropping(_, _) => 1
    case Idle => 0
  }

  function ToDo(t: Task): nat {
    match t
    case Migrating(_, todo, _) => |todo|
    case Dropping(todo, _) => |todo|
    case _ => 0
  }

  function AtHand(t: Task): nat {
    match t
    case Migrating(_, _, chunks) => |chunks|
    case Dropping(_, closing) => if closing.Some? then 1 else 0
    case _ => 0
  }

  /** A next step of the lifecycle, which brings it nearer to its end. */
  lemma Next(cfg: Config, s: State) returns (e: Event)
    requires Sane(cfg, s) && !s.task.Idle?
    ensures Enabled(cfg, s, e) && Undisturbed([e])
    ensures
      var t, t' := s.task, Step(cfg, s, e).task;
      Phase(t') < Phase(t) || (Phase(t') == Phase(t) && (ToDo(t') < ToDo(t) || (ToDo(t') == ToDo(t) && AtHand(t') < AtHand(t))))
    ensures Step(cfg, s, e).clock == s.clock && (s.task.Opening? || (s.task.Migrating? && !e.FinishRotation?) ==> Step(cfg, s, e).current == s.current)
    ensures s.task.Opening? ==> Step(cfg, s, e).task.Migrating? && Step(cfg, s, e).task.newId == s.task.newId
    ensures s.task.Migrating? && !e.FinishRotation? ==> Step(cfg, s, e).task.Migrating? && Step(cfg, s, e).task.newId == s.task.newId
    ensures s.task.Migrating? ==> (e.FinishRotation? <==> s.task.todo == [] && s.task.chunks == [])
  {
    hide Start;
    match s.task
    case Opening(newId) =>
      var ids := Enumeration(s.epochs.Keys + {newId});
      e := Opened(ids);
    case Migrating(newId, todo, chunks) =>
      if chunks != [] {
        e := CopyOne;
      } else if todo != [] {
        assert todo[0] in Elems(todo);
        var listing := Enumeration(Loro.Live(s.epochs[todo[0]]));
        e := Visit(listing);
      } else {
        e := FinishRotation;
      }
    case Rotated =>
      var ids := Enumeration(s.epochs.Keys);
      e := StartDrop(ids);
    case Dropping(todo, closing) =>
      e := if closing.Some? then DeleteClosed else if todo != [] then DropNext else FinishDrop;
  }

  lemma {:induction false} RunsItsCourse(cfg: Config, s: State) returns (es: seq<Event>)
    requires Sane(cfg, s)
    ensures Runs(cfg, s, es) && Undisturbed(es) && Exec(cfg, s, es).task.Idle?
    decreases Phase(s.task), ToDo(s.task), AtHand(s.task)
  {
    hide Enabled, Step, Sane, Phase, ToDo, AtHand;
    if s.task.Idle? {
      es := [];
    } else {
      var e := Next(cfg, s);
      StepSane(cfg, s, e);
      var rest := RunsItsCourse(cfg, Step(cfg, s, e));
      es := [e] + rest;
      assert es[1..] == rest && [e][0] == e;
    }
  }

  /** Up to the last await before the new epoch becomes current. */
  lemma {:induction false} RunsToRotation(cfg: Config, s: State) returns (es: seq<Event>)
    requires Sane(cfg, s) && (s.task.Opening? || s.task.Migrating?)
    ensures Runs(cfg, s, es) && Undisturbed(es)
    ensures
      var end := Exec(cfg, s, es);
      end.task == Migrating(s.task.newId, [], []) && end.clock == s.clock && end.current == s.current
    decreases Phase(s.task), ToDo(s.task), AtHand(s.task)
  {
    hide Enabled, Step, Sane, Phase, ToDo, AtHand;
    if s.task == Migrating(s.task.newId, [], []) {
      es := [];
    } else {
      var e := Next(cfg, s);
      StepSane(cfg, s, e);
      var rest := RunsToRotation(cfg, Step(cfg, s, e));
      es := [e] + rest;
      assert es[1..] == rest && [e][0] == e;
    }
  }

  // ----- forgets during migration -----

  /**
   * What a forget in `epoch` leaves behind while chunks are being migrated: an unexpired copy already listed, or a copy in
   * another epoch that is the new one, is not dropped, or is still to be visited before its content expires.
   */
  ghost predicate LeftBehind(cfg: Config, s: State, epoch: string, id: string)
    requires s.task.Migrating?
  {
    || PendingCopy(s.task.chunks, id, s.clock)
    || exists e :: e != epoch && LiveIn(s.epochs, e, id)
                   && (e == s.task.newId || !Old(cfg, s, e) || (e in s.task.todo && !Expired(s.epochs[e][id], s.clock)))
  }

  lemma ForgottenDestined(cfg: Config, s: State, epoch: string, id: string, now: int)
    requires s.task.Migrating? && Enabled(cfg, s, Forget(epoch, id, now))
    ensures Destined(cfg, Step(cfg, s, Forget(epoch, id, now)), id) <==> LeftBehind(cfg, s, epoch, id)
  {
    hide Start, Expired, Forgettable;
    var s' := Step(cfg, s, Forget(epoch, id, now));
    forall e ensures Spared(cfg, s', e, id) <==>
                     e != epoch && LiveIn(s.epochs, e, id)
                     && (e == s.task.newId || !Old(cfg, s, e) || (e in s.task.todo && !Expired(s.epochs[e][id], s.clock)))
    {
    }
  }

  /**
   * A forget during migration is undone by the time the drop is over, whatever else happens meanwhile, exactly when it
   * left a copy behind. Only the state at the forget decides.
   */
  lemma ForgetUndoneIff(cfg: Config, rest: State, before: seq<Event>, epoch: string, id: string, now: int, after: seq<Event>)
    requires AtRest(rest) && Runs(cfg, rest, before)
    requires
      var s := Exec(cfg, rest, before);
      && s.task.Migrating? && Enabled(cfg, s, Forget(epoch, id, now))
      && var s' := Step(cfg, s, Forget(epoch, id, now));
         Runs(cfg, s', after) && Quiet(after, id) && Exec(cfg, s', after).task.Idle?
    ensures
      var s := Exec(cfg, rest, before);
      Visible(Exec(cfg, Step(cfg, s, Forget(epoch, id, now)), after), id) <==> LeftBehind(cfg, s, epoch, id)
  {
    hide Enabled, Step, Sane, Destined, LeftBehind;
    var s := Exec(cfg, rest, before);
    var s' := Step(cfg, s, Forget(epoch, id, now));
    RestIsSane(cfg, rest);
    RunSane(cfg, rest, before);
    StepSane(cfg, s, Forget(epoch, id, now));
    ForgottenDestined(cfg, s, epoch, id, now);
    RunSane(cfg, s', after);
    RunDestined(cfg, s', after, id);
    AtRestVisible(cfg, Exec(cfg, s', after), id);
  }

  /** A rotation up to the listing of one old epoch. */
  function UpToListing(newId: string, now: int, ids: seq<string>, listing: seq<Chunk>): seq<Event> {
    [StartRotation(newId, now), Opened(ids), Visit(listing)]
  }

  lemma ListingRuns(cfg: Config, s: State, newId: string, now: int, e: string, ids: seq<string>, listing: seq<Chunk>)
    requires AtRest(s) && Enabled(cfg, s, StartRotation(newId, now)) && e in s.epochs && Start(cfg, e) < Cutoff(cfg, now)
    requires ids != [] && ids[0] == e && Elems(ids) == s.epochs.Keys + {newId} && Elems(listing) == Loro.Live(s.epochs[e])
    ensures
      var es := UpToListing(newId, now, ids, listing);
      Runs(cfg, s, es) && Exec(cfg, s, es) == State(s.epochs[newId := map[]], {}, s.current, Migrating(newId, ids[1..], listing), now)
  {
    hide Start;
    var s1 := Step(cfg, s, StartRotation(newId, now));
    var s2 := Step(cfg, s1, Opened(ids));
    var s3 := Step(cfg, s2, Visit(listing));
    hide Enabled, Step;
    var es := UpToListing(newId, now, ids, listing);
    assert es[1..] == [Opened(ids), Visit(listing)] && es[1..][1..] == [Visit(listing)] && es[1..][1..][1..] == [];
    RunsOne(cfg, s2, Visit(listing));
  }

  /**
   * It happens in every rotation that has something to migrate: a chunk live in one old epoch only, forgotten once that
   * epoch has been listed, is visible again after the drop.
   */
  lemma ForgetIsUndone(cfg: Config, s: State, newId: string, now: int, e: string, c: Chunk, t: int)
    returns (before: seq<Event>, after: seq<Event>)
    requires AtRest(s) && Enabled(cfg, s, StartRotation(newId, now)) && Start(cfg, e) < Cutoff(cfg, now)
    requires LiveIn(s.epochs, e, c.id) && s.epochs[e][c.id] == c && !Expired(c, now)
    requires forall f :: LiveIn(s.epochs, f, c.id) ==> f == e
    ensures Runs(cfg, s, before) && Enabled(cfg, Exec(cfg, s, before), Forget(e, c.id, t))
    ensures
      var s1 := Step(cfg, Exec(cfg, s, before), Forget(e, c.id, t));
      Runs(cfg, s1, after) && Undisturbed(after) && Exec(cfg, s1, after).task.Idle? && Visible(Exec(cfg, s1, after), c.id)
  {
    var s0;
    before, s0 := RunToListing(cfg, s, newId, now, e, c);
    OnlyCopyForgettable(cfg, s, s0, newId, e, c.id);
    hide Start, Expired, Forgettable, Enabled, Step, Sane, Runs, Exec;
    var s1 := ForgetSane(cfg, s0, e, c.id, t);
    after := RunsItsCourse(cfg, s1);
    ForgetUndoneIff(cfg, s, before, e, c.id, t, after);
  }

  /** The run up to the instant at which the only copy of a chunk has been listed and not yet copied. */
  lemma RunToListing(cfg: Config, s: State, newId: string, now: int, e: string, c: Chunk) returns (es: seq<Event>, s0: State)
    requires AtRest(s) && Enabled(cfg, s, StartRotation(newId, now)) && Start(cfg, e) < Cutoff(cfg, now)
    requires LiveIn(s.epochs, e, c.id) && s.epochs[e][c.id] == c && !Expired(c, now)
    ensures Runs(cfg, s, es) && Exec(cfg, s, es) == s0 && Sane(cfg, s) && Sane(cfg, s0)
    ensures s0.epochs == s.epochs[newId := map[]] && s0.closed == {}
    ensures s0.task.Migrating? && PendingCopy(s0.task.chunks, c.id, s0.clock)
  {
    hide Start, Expired;
    var others := Enumeration(s.epochs.Keys + {newId} - {e});
    var ids := [e] + others;
    assert Elems(ids) == s.epochs.Keys + {newId} by {
      assert Elems(ids) == {e} + Elems(others);
    }
    var listing := Enumeration(Loro.Live(s.epochs[e]));
    es := UpToListing(newId, now, ids, listing);
    ListingRuns(cfg, s, newId, now, e, ids, listing);
    VisitedLive(s, e, listing);
    RestIsSane(cfg, s);
    hide Enabled, Step, Sane, Runs, Exec;
    s0 := Exec(cfg, s, es);
    RunSane(cfg, s, es);
  }

  lemma OnlyCopyForgettable(cfg: Config, s: State, s0: State, newId: string, e: string, id: string)
    requires s0.epochs == s.epochs[newId := map[]] && newId !in s.epochs && s0.closed == {}
    requires LiveIn(s.epochs, e, id) && forall f :: LiveIn(s.epochs, f, id) ==> f == e
    ensures Forgettable(cfg, s0, e, id)
  {
    hide Start;
    forall f ensures LiveOpen(s0, f, id) <==> f == e {
      assert LiveIn(s0.epochs, f, id) <==> LiveIn(s.epochs, f, id);
    }
    hide LiveIn, LiveOpen;
    assert LiveOpen(s0, e, id);
  }

  lemma ForgetSane(cfg: Config, s: State, e: string, id: string, t: int) returns (s': State)
    requires Sane(cfg, s) && Forgettable(cfg, s, e, id)
    ensures Enabled(cfg, s, Forget(e, id, t)) && s' == Step(cfg, s, Forget(e, id, t)) && Sane(cfg, s')
  {
    s' := Step(cfg, s, Forget(e, id, t));
    StepSane(cfg, s, Forget(e, id, t));
  }

  // ----- puts during a late rotation -----

  /** A continuation in which later rotations are in time, puts are append-only, and no tombstone is put. */
  ghost predicate Admissible(cfg: Config, live: set<Chunk>, s: State, es: seq<Event>) {
    && Runs(cfg, s, es) && Timely(cfg, s, es)
    && AppendOnly(Written(live, es))
    && forall d :: d in Written(live, es) ==> !d.tombstone
  }

  ghost predicate AllFound(cfg: Config, live: set<Chunk>, s: State, es: seq<Event>)
    requires Runs(cfg, s, es)
  {
    forall c :: c in Written(live, es) && c.id !in Gone({}, es) && !Expired(c, Exec(cfg, s, es).clock) ==> Found(Exec(cfg, s, es), c)
  }

  /** From a rotation on, no unexpired chunk ever becomes unreadable that is not forgotten. */
  ghost predicate Safe(cfg: Config, live: set<Chunk>, s: State) {
    forall es :: Admissible(cfg, live, s, es) ==> AllFound(cfg, live, s, es)
  }

  /**
   * A rotation that begins at rest is safe exactly when the epoch it rotates out of is still inside the retention window.
   * If it is not, a chunk put during the rotation is lost in the drop.
   */
  lemma RotationSafeIff(cfg: Config, s: State, newId: string, now: int)
    requires AtRest(s) && Enabled(cfg, s, StartRotation(newId, now))
    ensures Safe(cfg, LiveSet(s.epochs), Step(cfg, s, StartRotation(newId, now))) <==> Start(cfg, s.current) >= Cutoff(cfg, now)
  {
    hide Start, Runs, Exec, Timely, Inv, Enabled;
    var live, s1 := LiveSet(s.epochs), Step(cfg, s, StartRotation(newId, now));
    if Start(cfg, s.current) >= Cutoff(cfg, now) {
      RestIsInv(cfg, s);
      RestAppendOnly(cfg, s);
      StepInv(cfg, s, StartRotation(newId, now), live, {});
      forall es | Admissible(cfg, live, s1, es) ensures AllFound(cfg, live, s1, es) {
        RunInv(cfg, s1, es, live, {});
        InvFound(cfg, Exec(cfg, s1, es), Written(live, es), Gone({}, es));
      }
    } else {
      var es, c := LatePutIsLost(cfg, s, newId, now);
      assert !AllFound(cfg, live, s1, es);
    }
  }

  lemma RestAppendOnly(cfg: Config, s: State)
    requires AtRest(s)
    ensures AppendOnly(LiveSet(s.epochs))
  {
    RestIsInv(cfg, s);
  }

  lemma InvFound(cfg: Config, s: State, kept: set<Chunk>, gone: set<string>)
    requires Inv(cfg, s, kept, gone)
    ensures forall c :: c in kept && c.id !in gone && !Expired(c, s.clock) ==> Found(s, c)
  {
  }

  /** A string longer than any of a set is not in it. */
  lemma {:induction false} FreshString(ids: set<string>) returns (n: nat)
    ensures forall id :: id in ids ==> |id| < n
    decreases |ids|
  {
    if ids == {} {
      n := 0;
    } else {
      var id :| id in ids;
      var m := FreshString(ids - {id});
      n := if |id| < m then m else |id| + 1;
      assert forall x :: x in ids ==> x == id || x in ids - {id};
    }
  }

  ghost function AllIds(es: Epochs): set<string> {
    set e, k | e in es && k in es[e] :: k
  }

  /** A chunk that never expires. */
  function Lasting(id: string): Chunk {
    Chunk(id, None, 0, None, false, None, [], "note", "project", None, "peer", None, None, 1.0, "")
  }

  lemma FreshChunk(es: Epochs, es': Epochs) returns (c: Chunk)
    ensures c.id !in AllIds(es) && c.id !in AllIds(es') && !c.tombstone && c.ttl.None?
  {
    var n := FreshString(AllIds(es) + AllIds(es'));
    c := Lasting(seq(n, _ => 'x'));
    assert |c.id| == n;
  }

  /** With nothing left to migrate, a chunk put into an epoch that is about to be dropped will not be there afterwards. */
  lemma PutIntoDropped(cfg: Config, s: State, c: Chunk)
    requires Sane(cfg, s) && s.task.Migrating? && s.task.todo == [] && s.task.chunks == [] && Old(cfg, s, s.current)
    requires c.id !in AllIds(s.epochs)
    ensures Enabled(cfg, s, Put(c)) && Sane(cfg, Step(cfg, s, Put(c))) && !Destined(cfg, Step(cfg, s, Put(c)), c.id)
  {
    hide Start;
    StepSane(cfg, s, Put(c));
    var s' := Step(cfg, s, Put(c));
    forall e ensures !Spared(cfg, s', e, c.id) {
      assert e in s.epochs && e != s.current ==> c.id !in s.epochs[e];
    }
  }

  lemma UndisturbedWrites(live: set<Chunk>, before: seq<Event>, c: Chunk, after: seq<Event>)
    requires Undisturbed(before) && Undisturbed(after)
    ensures Written(live, before + [Put(c)] + after) == live + {c} && Gone({}, before + [Put(c)] + after) == {}
    ensures forall i :: 0 <= i < |before + [Put(c)] + after| ==> !(before + [Put(c)] + after)[i].StartRotation?
  {
    var es := before + [Put(c)] + after;
    forall i | 0 <= i < |es| ensures !es[i].StartRotation? && !es[i].Forget? && (es[i].Put? ==> es[i] == Put(c)) {
      if i < |before| {
        assert es[i] == before[i];
      } else if i > |before| {
        assert es[i] == after[i - |before| - 1];
      }
    }
    assert es[|before|] == Put(c);
  }

  /** The losing run: the rotation up to its last await, a put, and the rest of the lifecycle. */
  lemma LatePutIsLost(cfg: Config, s: State, newId: string, now: int) returns (es: seq<Event>, c: Chunk)
    requires AtRest(s) && Enabled(cfg, s, StartRotation(newId, now)) && Start(cfg, s.current) < Cutoff(cfg, now)
    ensures
      var s1 := Step(cfg, s, StartRotation(newId, now));
      && Admissible(cfg, LiveSet(s.epochs), s1, es)
      && c in Written(LiveSet(s.epochs), es) && c.id !in Gone({}, es) && !Expired(c, Exec(cfg, s1, es).clock)
      && !Found(Exec(cfg, s1, es), c)
  {
    hide Start;
    var s1 := Step(cfg, s, StartRotation(newId, now));
    assert Sane(cfg, s1) && s1.task == Opening(newId) && s1.current == s.current && s1.clock == now && s1.epochs == s.epochs;
    assert Old(cfg, s1, s1.current);
    RestAppendOnly(cfg, s);
    hide Enabled, Step, Sane, Destined, AtRest;
    var before := RunsToRotation(cfg, s1);
    var s2 := Exec(cfg, s1, before);
    RunSane(cfg, s1, before);
    c := FreshChunk(s.epochs, s2.epochs);
    PutIntoDropped(cfg, s2, c);
    var s3 := Step(cfg, s2, Put(c));
    var after := RunsItsCourse(cfg, s3);
    es := before + [Put(c)] + after;
    RunsOne(cfg, s2, Put(c));
    RunsOn(cfg, s1, before, [Put(c)]);
    RunsOn(cfg, s1, before + [Put(c)], after);
    UndisturbedWrites(LiveSet(s.epochs), before, c, after);
    NoRotationIsTimely(cfg, s1, es);
    FreshAppendOnly(s.epochs, c);
    RunDestined(cfg, s3, after, c.id);
    RunSane(cfg, s3, after);
    AtRestVisible(cfg, Exec(cfg, s3, after), c.id);
    NotVisibleNotFound(Exec(cfg, s3, after), c);
  }

  lemma NotVisibleNotFound(s: State, c: Chunk)
    requires !Visible(s, c.id)
    ensures !Found(s, c)
  {
  }

  lemma FreshAppendOnly(es: Epochs, c: Chunk)
    requires AppendOnly(LiveSet(es)) && c.id !in AllIds(es) && !c.tombstone && Keyed(es)
    ensures AppendOnly(LiveSet(es) + {c}) && forall d :: d in LiveSet(es) + {c} ==> !d.tombstone
  {
    forall d | d in LiveSet(es) ensures d.id != c.id && !d.tombstone {
      var e, k :| e in es && k in es[e] && !es[e][k].tombstone && es[e][k] == d;
      assert k in AllIds(es);
    }
  }
}
