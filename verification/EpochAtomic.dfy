/** Left alone, the steps of rotation and drop come to what the manager's methods do in one go. */
module EpochAtomic {
  import opened Chunks
  import opened Epochs
  import opened EpochSteps
  import opened EpochFates
  import Loro

  /** The epochs of `es` with those dropped since `es0` put back. */
  ghost function Whole(es0: Epochs, es: Epochs, newId: string): Epochs
    requires newId in es
  {
    map e | e in es0.Keys + {newId} :: if e in es then es[e] else es0[e]
  }

  /** Half-way through a migration: what has arrived, what is at hand, and what is still to be visited. */
  ghost predicate Copied(cfg: Config, es0: Epochs, es: Epochs, newId: string, now: int, todo: seq<string>, chunks: seq<Chunk>) {
    && es.Keys == es0.Keys + {newId}
    && (forall e :: e in es0 && e != newId ==> es[e] == es0[e])
    && (forall k :: k in es[newId] ==> es[newId][k].id == k && es[newId][k] in Migrants(es0, Expiring(es0, newId, cfg, now), now))
    && (forall c :: c in chunks && !Expired(c, now) ==> c in Migrants(es0, Expiring(es0, newId, cfg, now), now))
    && (forall e, c :: e in Expiring(es0, newId, cfg, now) && e !in todo && c in Migrants(es0, {e}, now) ==>
                         c.id in es[newId] || c in chunks)
  }

  /** Half-way through a drop: only expiring epochs are gone, and those that are not are still to come. */
  ghost predicate DroppedSome(cfg: Config, es0: Epochs, es: Epochs, newId: string, now: int, todo: seq<string>, closing: Option<string>) {
    && newId in es && es.Keys <= es0.Keys + {newId}
    && RotatesTo(es0, Whole(es0, es, newId), newId, cfg, now)
    && (forall e :: e in es0 && e !in es ==> e in Expiring(es0, newId, cfg, now))
    && (forall e :: e in Expiring(es0, newId, cfg, now) && e in es ==> e in todo || closing == Some(e))
    && (closing.Some? ==> closing.value in Expiring(es0, newId, cfg, now))
  }

  ghost predicate OnTheWay(cfg: Config, es0: Epochs, newId: string, now: int, s: State) {
    && newId !in es0 && Keyed(es0) && s.clock == now
    && match s.task
       case Opening(id) => id == newId && s.epochs == es0
       case Migrating(id, todo, chunks) => id == newId && Copied(cfg, es0, s.epochs, newId, now, todo, chunks)
       case Rotated => s.current == newId && RotatesTo(es0, s.epochs, newId, cfg, now)
       case Dropping(todo, closing) => s.current == newId && DroppedSome(cfg, es0, s.epochs, newId, now, todo, closing)
       case Idle => s.current == newId && DroppedSome(cfg, es0, s.epochs, newId, now, [], None)
  }

  lemma OpenedCopied(cfg: Config, es0: Epochs, newId: string, now: int, ids: seq<string>)
    requires newId !in es0 && Elems(ids) == es0.Keys + {newId}
    ensures Copied(cfg, es0, es0[newId := map[]], newId, now, ids, [])
  {
    hide Start, Cutoff;
    forall e | e in Expiring(es0, newId, cfg, now) ensures e in ids {
      assert e in Elems(ids);
    }
    hide Migrants;
  }

  lemma LiveMigrants(es0: Epochs, e: string, c: Chunk, now: int)
    requires e in es0
    ensures c in Migrants(es0, {e}, now) <==> c in Loro.Live(es0[e]) && !Expired(c, now)
  {
  }

  lemma MoreMigrants(es0: Epochs, e: string, from: set<string>, c: Chunk, now: int)
    requires e in from && c in Migrants(es0, {e}, now)
    ensures c in Migrants(es0, from, now)
  {
  }

  lemma VisitCopied(cfg: Config, es0: Epochs, es: Epochs, newId: string, now: int, todo: seq<string>, listing: seq<Chunk>)
    requires newId !in es0 && todo != [] && todo[0] in es && Elems(listing) == Loro.Live(es[todo[0]])
    requires Copied(cfg, es0, es, newId, now, todo, [])
    ensures Copied(cfg, es0, es, newId, now, todo[1..], if todo[0] != newId && Start(cfg, todo[0]) < Cutoff(cfg, now) then listing else [])
  {
    hide Start, Cutoff, Migrants, Loro.Live;
    var id, expiring := todo[0], Expiring(es0, newId, cfg, now);
    assert forall e :: e in todo <==> e == id || e in todo[1..];
    assert forall c :: c in listing <==> c in Elems(listing);
    if id in expiring {
      forall c ensures c in Migrants(es0, {id}, now) <==> c in listing && !Expired(c, now) {
        LiveMigrants(es0, id, c, now);
      }
      forall c | c in listing && !Expired(c, now) ensures c in Migrants(es0, expiring, now) {
        MoreMigrants(es0, id, expiring, c, now);
      }
    }
    hide Expired;
  }

  lemma CopyCopied(cfg: Config, es0: Epochs, es: Epochs, newId: string, now: int, todo: seq<string>, chunks: seq<Chunk>)
    requires newId !in es0 && newId in es && chunks != [] && Copied(cfg, es0, es, newId, now, todo, chunks)
    ensures Copied(cfg, es0, es[newId := CopyInto(es[newId], chunks[0], now)], newId, now, todo, chunks[1..])
  {
    hide Start, Cutoff, Migrants, Expiring;
    var c0 := chunks[0];
    assert forall c :: c in chunks <==> c == c0 || c in chunks[1..];
    forall e, c | e in Expiring(es0, newId, cfg, now) && e !in todo && c in Migrants(es0, {e}, now)
      ensures c.id in CopyInto(es[newId], c0, now) || c in chunks[1..]
    {
      MigrantUnexpired(es0, {e}, now, c);
      hide Expired;
    }
  }

  lemma MigrantUnexpired(es0: Epochs, from: set<string>, now: int, c: Chunk)
    requires c in Migrants(es0, from, now)
    ensures !Expired(c, now)
  {
  }

  lemma AllCopied(cfg: Config, es0: Epochs, es: Epochs, newId: string, now: int)
    requires newId !in es0 && Copied(cfg, es0, es, newId, now, [], [])
    ensures RotatesTo(es0, es, newId, cfg, now)
  {
    hide Start, Cutoff, Expiring;
    var expiring := Expiring(es0, newId, cfg, now);
    forall c | c in Migrants(es0, expiring, now) ensures c.id in es[newId] {
      var e, k :| e in es0 && e in expiring && k in es0[e] && !es0[e][k].tombstone && !Expired(es0[e][k], now) && es0[e][k] == c;
      assert c in Migrants(es0, {e}, now);
    }
    hide Migrants;
  }

  lemma DropBegins(cfg: Config, es0: Epochs, es: Epochs, newId: string, now: int, ids: seq<string>)
    requires newId !in es0 && RotatesTo(es0, es, newId, cfg, now) && Elems(ids) == es.Keys
    ensures DroppedSome(cfg, es0, es, newId, now, ids, None)
  {
    hide Start, Cutoff, Holds;
    assert Whole(es0, es, newId) == es;
    forall e | e in es ensures e in ids {
      assert e in Elems(ids);
    }
    hide Expiring, Whole;
  }

  lemma DropPasses(cfg: Config, es0: Epochs, es: Epochs, newId: string, now: int, todo: seq<string>)
    requires newId !in es0 && todo != [] && DroppedSome(cfg, es0, es, newId, now, todo, None)
    ensures
      var id := todo[0];
      DroppedSome(cfg, es0, es, newId, now, todo[1..], if id == newId || !(Start(cfg, id) < Cutoff(cfg, now)) || id !in es then None else Some(id))
  {
    hide Start, Cutoff, Whole, RotatesTo;
    assert forall e :: e in todo <==> e == todo[0] || e in todo[1..];
  }

  lemma DropDeletes(cfg: Config, es0: Epochs, es: Epochs, newId: string, now: int, todo: seq<string>, id: string)
    requires newId !in es0 && DroppedSome(cfg, es0, es, newId, now, todo, Some(id))
    ensures DroppedSome(cfg, es0, es - {id}, newId, now, todo, None)
  {
    hide Start, Cutoff, Holds;
    assert id != newId;
    assert Whole(es0, es - {id}, newId) == Whole(es0, es, newId) by {
      assert id in es0 && Whole(es0, es, newId)[id] == es0[id];
    }
    hide Whole, RotatesTo, Expiring;
  }

  /** The end of a drop. */
  lemma DropIsOver(cfg: Config, es0: Epochs, es: Epochs, newId: string, now: int)
    requires newId !in es0 && DroppedSome(cfg, es0, es, newId, now, [], None)
    ensures exists es1 :: RotatesTo(es0, es1, newId, cfg, now) && es == Dropped(es1, newId, cfg, now)
  {
    hide Start, Cutoff, Holds;
    var es1 := Whole(es0, es, newId);
    forall e ensures e in es <==> e in es1 && e !in Expiring(es1, newId, cfg, now) {
      assert e in Expiring(es1, newId, cfg, now) <==> e in Expiring(es0, newId, cfg, now);
    }
    assert es == Dropped(es1, newId, cfg, now);
  }

  lemma StepOnTheWay(cfg: Config, es0: Epochs, newId: string, now: int, s: State, e: Event)
    requires OnTheWay(cfg, es0, newId, now, s) && Enabled(cfg, s, e) && !e.Put? && !e.Forget? && !e.StartRotation?
    ensures OnTheWay(cfg, es0, newId, now, Step(cfg, s, e))
  {
    hide Start, Cutoff, Copied, DroppedSome, RotatesTo, Keyed, CopyInto, Loro.Live, Elems;
    match e
    case Opened(ids) => OpenedCopied(cfg, es0, newId, now, ids);
    case Visit(listing) => VisitCopied(cfg, es0, s.epochs, newId, now, s.task.todo, listing);
    case CopyOne => CopyCopied(cfg, es0, s.epochs, newId, now, s.task.todo, s.task.chunks);
    case FinishRotation => AllCopied(cfg, es0, s.epochs, newId, now);
    case StartDrop(ids) => DropBegins(cfg, es0, s.epochs, newId, now, ids);
    case DropNext => DropPasses(cfg, es0, s.epochs, newId, now, s.task.todo);
    case DeleteClosed => DropDeletes(cfg, es0, s.epochs, newId, now, s.task.todo, s.task.closing.value);
    case FinishDrop =>
  }

  lemma {:induction false} RunOnTheWay(cfg: Config, es0: Epochs, newId: string, now: int, s: State, es: seq<Event>)
    requires OnTheWay(cfg, es0, newId, now, s) && Runs(cfg, s, es) && Undisturbed(es)
    ensures OnTheWay(cfg, es0, newId, now, Exec(cfg, s, es))
    decreases |es|
  {
    hide Enabled, Step, OnTheWay;
    if es != [] {
      StepOnTheWay(cfg, es0, newId, now, s, es[0]);
      RunOnTheWay(cfg, es0, newId, now, Step(cfg, s, es[0]), es[1..]);
    }
  }

  /**
   * An undisturbed rotation has, once done, rotated as the manager's method does, whatever order epochs and chunks came in;
   * and an undisturbed drop after it has dropped what that method drops.
   */
  lemma UndisturbedIsAtomic(cfg: Config, s: State, newId: string, now: int, es: seq<Event>)
    requires AtRest(s) && Enabled(cfg, s, StartRotation(newId, now))
    requires Runs(cfg, Step(cfg, s, StartRotation(newId, now)), es) && Undisturbed(es)
    ensures
      var end := Exec(cfg, Step(cfg, s, StartRotation(newId, now)), es);
      && (end.task.Rotated? || end.task.Dropping? || end.task.Idle? ==> end.current == newId)
      && (end.task.Rotated? ==> RotatesTo(s.epochs, end.epochs, newId, cfg, now))
      && (end.task.Idle? ==> exists es1 :: RotatesTo(s.epochs, es1, newId, cfg, now) && end.epochs == Dropped(es1, newId, cfg, now))
  {
    hide Start, Cutoff, RotatesTo, Dropped, Copied, DroppedSome, Runs, Exec;
    var s1 := Step(cfg, s, StartRotation(newId, now));
    RunOnTheWay(cfg, s.epochs, newId, now, s1, es);
    var end := Exec(cfg, s1, es);
    if end.task.Idle? {
      DropIsOver(cfg, s.epochs, end.epochs, newId, now);
    }
  }

  /** With no store closed a forget is the manager's forget. */
  lemma ForgetIsAtomic(cfg: Config, s: State, e: string, id: string, now: int)
    requires Enabled(cfg, s, Forget(e, id, now)) && s.closed == {}
    ensures ForgetsTo(s.epochs, Step(cfg, s, Forget(e, id, now)).epochs, cfg, s.current, id, now)
  {
    hide Start;
    assert forall f :: LiveOpen(s, f, id) <==> LiveIn(s.epochs, f, id);
    hide LiveOpen, LiveIn;
    assert Readable(s.epochs, id) ==> NewestLive(s.epochs, cfg, e, id);
  }
}
