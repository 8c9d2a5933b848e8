/**
 * Rotation and drop as they really run: suspended at every await, with puts, gets and forgets in between.
 */
module EpochSteps {
  import opened Chunks
  import opened Epochs
  import Loro

  /** Where the lifecycle task is suspended. */
  datatype Task =
    | Idle
    | Opening(newId: string)
    | Migrating(newId: string, todo: seq<string>, chunks: seq<Chunk>)
    | Rotated
    | Dropping(todo: seq<string>, closing: Option<string>)

  /** `clock` is the time of the latest rotation; reads of a closed store find nothing. */
  datatype State = State(epochs: Epochs, closed: set<string>, current: string, task: Task, clock: int)

  datatype Event =
    | Put(chunk: Chunk)
    | Forget(epoch: string, id: string, now: int)
    | StartRotation(newId: string, now: int)
    | Opened(ids: seq<string>)
    | Visit(listing: seq<Chunk>)
    | CopyOne
    | FinishRotation
    | StartDrop(ids: seq<string>)
    | DropNext
    | DeleteClosed
    | FinishDrop

  predicate Old(cfg: Config, s: State, e: string) {
    Start(cfg, e) < Cutoff(cfg, s.clock)
  }

  /** What a get that runs now sees: closed stores answer nothing. */
  ghost predicate LiveOpen(s: State, e: string, id: string) {
    e !in s.closed && LiveIn(s.epochs, e, id)
  }

  /** A forget takes a newest epoch in which the id can be seen, or the current one if there is none. */
  ghost predicate Forgettable(cfg: Config, s: State, e: string, id: string) {
    && e in s.epochs
    && if exists f :: LiveOpen(s, f, id)
       then LiveOpen(s, e, id) && forall f :: LiveOpen(s, f, id) ==> Start(cfg, f) <= Start(cfg, e)
       else e == s.current
  }

  /** The listings are what the stores may answer: all keys, all live entries, in some order. */
  ghost predicate Enabled(cfg: Config, s: State, e: Event) {
    match e
    case Put(_) => s.current in s.epochs
    case Forget(e, id, _) => Forgettable(cfg, s, e, id)
    case StartRotation(newId, now) => s.task.Idle? && now >= s.clock && newId !in s.epochs
    case Opened(ids) => s.task.Opening? && s.task.newId !in s.epochs && Elems(ids) == s.epochs.Keys + {s.task.newId}
    case Visit(listing) => s.task.Migrating? && s.task.chunks == [] && s.task.todo != [] && s.task.todo[0] in s.epochs
                           && Elems(listing) == Loro.Live(s.epochs[s.task.todo[0]])
    case CopyOne => s.task.Migrating? && s.task.chunks != [] && s.task.newId in s.epochs
    case FinishRotation => s.task.Migrating? && s.task.chunks == [] && s.task.todo == []
    case StartDrop(ids) => s.task.Rotated? && Elems(ids) == s.epochs.Keys
    case DropNext => s.task.Dropping? && s.task.closing.None? && s.task.todo != []
    case DeleteClosed => s.task.Dropping? && s.task.closing.Some?
    case FinishDrop => s.task.Dropping? && s.task.closing.None? && s.task.todo == []
  }

  function PutIn(es: Epochs, e: string, c: Chunk): Epochs
    requires e in es
  {
    es[e := es[e][c.id := c]]
  }

  /** One iteration of the migration loop: expired chunks are abandoned. */
  function CopyInto(v: View, c: Chunk, now: int): View {
    if Expired(c, now) then v else v[c.id := c]
  }

  ghost function Step(cfg: Config, s: State, e: Event): State
    requires Enabled(cfg, s, e)
  {
    match e
    case Put(c) => s.(epochs := PutIn(s.epochs, s.current, c))
    case Forget(e, id, now) => s.(epochs := PutIn(s.epochs, e, Loro.Tombstone(id, now)))
    case StartRotation(newId, now) => s.(task := Opening(newId), clock := now)
    case Opened(ids) => s.(epochs := s.epochs[s.task.newId := map[]], task := Migrating(s.task.newId, ids, []))
    case Visit(listing) =>
      var id := s.task.todo[0];
      s.(task := Migrating(s.task.newId, s.task.todo[1..], if id != s.task.newId && Old(cfg, s, id) then listing else []))
    case CopyOne =>
      s.(epochs := s.epochs[s.task.newId := CopyInto(s.epochs[s.task.newId], s.task.chunks[0], s.clock)],
         task := Migrating(s.task.newId, s.task.todo, s.task.chunks[1..]))
    case FinishRotation => s.(current := s.task.newId, task := Rotated)
    case StartDrop(ids) => s.(task := Dropping(ids, None))
    case DropNext =>
      var id := s.task.todo[0];
      if id == s.current || !Old(cfg, s, id) || id !in s.epochs then s.(task := Dropping(s.task.todo[1..], None))
      else s.(closed := s.closed + {id}, task := Dropping(s.task.todo[1..], Some(id)))
    case DeleteClosed =>
      s.(epochs := s.epochs - {s.task.closing.value}, closed := s.closed - {s.task.closing.value}, task := Dropping(s.task.todo, None))
    case FinishDrop => s.(task := Idle)
  }

  /** What a get that runs now finds. */
  ghost predicate Found(s: State, c: Chunk) {
    exists e :: LiveOpen(s, e, c.id) && s.epochs[e][c.id] == c
  }

  /** Every unexpired chunk of an old epoch already visited is on its way or has arrived, unless its id was forgotten. */
  ghost predicate CopiedTo(cfg: Config, s: State, gone: set<string>, target: string, todo: seq<string>, pending: seq<Chunk>) {
    forall e, id :: id !in gone && e !in todo && e != target && Old(cfg, s, e) && LiveIn(s.epochs, e, id) && !Expired(s.epochs[e][id], s.clock) ==>
                      s.epochs[e][id] in pending || LiveIn(s.epochs, target, id)
  }

  ghost predicate TaskInv(cfg: Config, s: State, gone: set<string>) {
    match s.task
    case Idle => s.closed == {}
    case Opening(newId) => s.closed == {} && newId !in s.epochs && !Old(cfg, s, s.current)
    case Migrating(newId, todo, chunks) =>
      && s.closed == {} && newId in s.epochs && newId != s.current && !Old(cfg, s, s.current)
      && Elems(todo) <= s.epochs.Keys
      && CopiedTo(cfg, s, gone, newId, todo, chunks)
    case Rotated => s.closed == {} && CopiedTo(cfg, s, gone, s.current, [], [])
    case Dropping(todo, closing) =>
      && CopiedTo(cfg, s, gone, s.current, [], [])
      && (closing.None? ==> s.closed == {})
      && (closing.Some? ==> s.closed == {closing.value} && closing.value != s.current && Old(cfg, s, closing.value))
  }

  ghost predicate PendingKnown(s: State, kept: set<Chunk>) {
    s.task.Migrating? ==> forall c :: c in s.task.chunks ==> c in kept && !c.tombstone
  }

  /** `kept` holds the chunks live at the start and those put since, `gone` the ids forgotten since. */
  ghost predicate Inv(cfg: Config, s: State, kept: set<Chunk>, gone: set<string>) {
    && Keyed(s.epochs)
    && s.current in s.epochs && s.current !in s.closed
    && LiveSet(s.epochs) <= kept && AppendOnly(kept) && (forall c :: c in kept ==> !c.tombstone)
    && PendingKnown(s, kept)
    && TaskInv(cfg, s, gone)
    && (forall c :: c in kept && c.id !in gone && !Expired(c, s.clock) ==> Found(s, c))
  }

  /** The proviso: a rotation starts while the old current epoch is still inside the retention window. */
  predicate InTime(cfg: Config, s: State, e: Event) {
    e.StartRotation? ==> Start(cfg, s.current) >= Cutoff(cfg, e.now)
  }

  function Keeps(kept: set<Chunk>, e: Event): set<Chunk> {
    if e.Put? then kept + {e.chunk} else kept
  }

  function Forgets(gone: set<string>, e: Event): set<string> {
    if e.Forget? then gone + {e.id} else gone
  }

  lemma LiveKnown(es: Epochs, kept: set<Chunk>, e: string, id: string)
    requires LiveSet(es) <= kept && LiveIn(es, e, id)
    ensures es[e][id] in kept
  {
  }

  lemma VisitKnown(s: State, kept: set<Chunk>, e: string, listing: seq<Chunk>)
    requires e in s.epochs && LiveSet(s.epochs) <= kept && (forall c :: c in kept ==> !c.tombstone)
    requires Elems(listing) == Loro.Live(s.epochs[e])
    ensures forall c :: c in listing ==> c in kept && !c.tombstone
  {
    forall c | c in listing ensures c in kept {
      assert c in Elems(listing);
      var id :| id in s.epochs[e] && !s.epochs[e][id].tombstone && s.epochs[e][id] == c;
      LiveKnown(s.epochs, kept, e, id);
    }
  }

  /** What a step changes in the epochs: nothing, a new empty one, one entry, or one epoch less. */
  lemma StepEntry(cfg: Config, s: State, e: Event, f: string, id: string)
    requires Enabled(cfg, s, e) && f in Step(cfg, s, e).epochs && id in Step(cfg, s, e).epochs[f]
    ensures
      var c := Step(cfg, s, e).epochs[f][id];
      || (f in s.epochs && id in s.epochs[f] && c == s.epochs[f][id])
      || (e.Put? && c == e.chunk && id == c.id)
      || (e.Forget? && c == Loro.Tombstone(e.id, e.now) && id == c.id)
      || (e.CopyOne? && s.task.Migrating? && s.task.chunks != [] && c == s.task.chunks[0] && id == c.id)
  {
    hide Start;
  }

  lemma StepKnown(cfg: Config, s: State, e: Event, kept: set<Chunk>, gone: set<string>)
    requires Enabled(cfg, s, e) && Inv(cfg, s, kept, gone) && (e.Put? ==> !e.chunk.tombstone)
    ensures LiveSet(Step(cfg, s, e).epochs) <= Keeps(kept, e) && Keyed(Step(cfg, s, e).epochs)
    ensures PendingKnown(Step(cfg, s, e), Keeps(kept, e))
  {
    hide Start, TaskInv;
    var s' := Step(cfg, s, e);
    forall c | c in LiveSet(s'.epochs) ensures c in Keeps(kept, e) {
      var f, id :| f in s'.epochs && id in s'.epochs[f] && !s'.epochs[f][id].tombstone && s'.epochs[f][id] == c;
      StepEntry(cfg, s, e, f, id);
      if f in s.epochs && id in s.epochs[f] && c == s.epochs[f][id] {
        LiveKnown(s.epochs, kept, f, id);
      }
    }
    forall f, id | f in s'.epochs && id in s'.epochs[f] ensures s'.epochs[f][id].id == id {
      StepEntry(cfg, s, e, f, id);
    }
    if e.Visit? {
      VisitKnown(s, kept, s.task.todo[0], e.listing);
    }
  }

  lemma VisitCopies(cfg: Config, s: State, listing: seq<Chunk>, gone: set<string>)
    requires Enabled(cfg, s, Visit(listing)) && s.task.newId in s.epochs && CopiedTo(cfg, s, gone, s.task.newId, s.task.todo, [])
    ensures
      var s' := Step(cfg, s, Visit(listing));
      CopiedTo(cfg, s', gone, s'.task.newId, s'.task.todo, s'.task.chunks)
  {
    hide Start;
    var v, todo, s' := s.task.todo[0], s.task.todo, Step(cfg, s, Visit(listing));
    forall f, id | id !in gone && f !in todo[1..] && f != s.task.newId && Old(cfg, s, f) && LiveIn(s.epochs, f, id) && !Expired(s.epochs[f][id], s.clock)
      ensures s.epochs[f][id] in s'.task.chunks || LiveIn(s.epochs, s.task.newId, id)
    {
      if f == v {
        assert s.epochs[f][id] in Elems(listing);
      } else {
        assert f !in todo;
      }
    }
  }

  lemma CopyCopies(cfg: Config, s: State, gone: set<string>)
    requires Enabled(cfg, s, CopyOne) && Keyed(s.epochs) && CopiedTo(cfg, s, gone, s.task.newId, s.task.todo, s.task.chunks)
    requires forall c :: c in s.task.chunks ==> !c.tombstone
    ensures
      var s' := Step(cfg, s, CopyOne);
      CopiedTo(cfg, s', gone, s.task.newId, s.task.todo, s.task.chunks[1..])
  {
    hide Start;
    var c, s' := s.task.chunks[0], Step(cfg, s, CopyOne);
    forall f, id | id !in gone && f !in s.task.todo && f != s.task.newId && Old(cfg, s, f) && LiveIn(s'.epochs, f, id) && !Expired(s'.epochs[f][id], s.clock)
      ensures s'.epochs[f][id] in s.task.chunks[1..] || LiveIn(s'.epochs, s.task.newId, id)
    {
      assert LiveIn(s.epochs, f, id) && s'.epochs[f][id] == s.epochs[f][id];
    }
  }

  lemma PutCopies(cfg: Config, s: State, c: Chunk, gone: set<string>, target: string, todo: seq<string>, pending: seq<Chunk>)
    requires Enabled(cfg, s, Put(c)) && !c.tombstone && CopiedTo(cfg, s, gone, target, todo, pending)
    requires s.current == target || !Old(cfg, s, s.current)
    ensures CopiedTo(cfg, Step(cfg, s, Put(c)), gone, target, todo, pending)
  {
    hide Start;
    var s' := Step(cfg, s, Put(c));
    forall f, id | id !in gone && f !in todo && f != target && Old(cfg, s, f) && LiveIn(s'.epochs, f, id) && !Expired(s'.epochs[f][id], s.clock)
      ensures s'.epochs[f][id] in pending || LiveIn(s'.epochs, target, id)
    {
      assert f != s.current && LiveIn(s.epochs, f, id);
    }
  }

  lemma DeleteCopies(cfg: Config, s: State, gone: set<string>)
    requires Enabled(cfg, s, DeleteClosed) && s.task.closing.value != s.current && CopiedTo(cfg, s, gone, s.current, [], [])
    ensures CopiedTo(cfg, Step(cfg, s, DeleteClosed), gone, s.current, [], [])
  {
    hide Start;
    var s' := Step(cfg, s, DeleteClosed);
    forall f, id | id !in gone && f != s.current && Old(cfg, s, f) && LiveIn(s'.epochs, f, id) && !Expired(s'.epochs[f][id], s.clock)
      ensures LiveIn(s'.epochs, s.current, id)
    {
      assert LiveIn(s.epochs, f, id);
    }
  }

  /** A forget takes away copies of its own id only. */
  lemma ForgetCopies(cfg: Config, s: State, f: string, id: string, now: int, gone: set<string>, target: string, todo: seq<string>, pending: seq<Chunk>)
    requires Enabled(cfg, s, Forget(f, id, now)) && CopiedTo(cfg, s, gone, target, todo, pending)
    ensures CopiedTo(cfg, Step(cfg, s, Forget(f, id, now)), gone + {id}, target, todo, pending)
  {
    hide Start;
    var s' := Step(cfg, s, Forget(f, id, now));
    forall g, k | k !in gone + {id} && g !in todo && g != target && Old(cfg, s, g) && LiveIn(s'.epochs, g, k) && !Expired(s'.epochs[g][k], s.clock)
      ensures s'.epochs[g][k] in pending || LiveIn(s'.epochs, target, k)
    {
      assert LiveIn(s.epochs, g, k) && s.epochs[g][k] == s'.epochs[g][k];
    }
  }

  lemma StepTask(cfg: Config, s: State, e: Event, kept: set<Chunk>, gone: set<string>)
    requires Enabled(cfg, s, e) && Inv(cfg, s, kept, gone) && InTime(cfg, s, e) && (e.Put? ==> !e.chunk.tombstone)
    ensures TaskInv(cfg, Step(cfg, s, e), Forgets(gone, e))
  {
    hide Start, CopiedTo;
    match e
    case Put(c) =>
      match s.task {
        case Migrating(newId, todo, chunks) => PutCopies(cfg, s, c, gone, newId, todo, chunks);
        case Rotated => PutCopies(cfg, s, c, gone, s.current, [], []);
        case Dropping(_, _) => PutCopies(cfg, s, c, gone, s.current, [], []);
        case _ =>
      }
    case Forget(f, id, now) =>
      match s.task {
        case Migrating(newId, todo, chunks) => ForgetCopies(cfg, s, f, id, now, gone, newId, todo, chunks);
        case Rotated => ForgetCopies(cfg, s, f, id, now, gone, s.current, [], []);
        case Dropping(_, _) => ForgetCopies(cfg, s, f, id, now, gone, s.current, [], []);
        case _ =>
      }
    case Opened(ids) => OpenedCopies(cfg, s, ids, gone);
    case Visit(listing) =>
      VisitCopies(cfg, s, listing, gone);
      assert Elems(s.task.todo[1..]) <= Elems(s.task.todo);
    case CopyOne =>
      CopyCopies(cfg, s, gone);
      assert Step(cfg, s, e).epochs.Keys == s.epochs.Keys;
    case FinishRotation => FinishCopies(cfg, s, gone);
    case StartDrop(_) => SameCopies(cfg, s, Step(cfg, s, e), gone);
    case DropNext => SameCopies(cfg, s, Step(cfg, s, e), gone);
    case DeleteClosed => DeleteCopies(cfg, s, gone);
    case _ =>
  }

  lemma OpenedCopies(cfg: Config, s: State, ids: seq<string>, gone: set<string>)
    requires Enabled(cfg, s, Opened(ids))
    ensures var s' := Step(cfg, s, Opened(ids)); CopiedTo(cfg, s', gone, s'.task.newId, ids, []) && Elems(ids) <= s'.epochs.Keys
  {
    hide Start;
    var s' := Step(cfg, s, Opened(ids));
    assert Elems(ids) == s'.epochs.Keys;
    assert forall f :: f in s'.epochs ==> f in Elems(ids);
  }

  lemma FinishCopies(cfg: Config, s: State, gone: set<string>)
    requires Enabled(cfg, s, FinishRotation) && CopiedTo(cfg, s, gone, s.task.newId, s.task.todo, s.task.chunks)
    ensures var s' := Step(cfg, s, FinishRotation); CopiedTo(cfg, s', gone, s'.current, [], [])
  {
    hide Start;
  }

  lemma SameCopies(cfg: Config, s: State, s': State, gone: set<string>)
    requires s'.epochs == s.epochs && s'.current == s.current && s'.clock == s.clock && CopiedTo(cfg, s, gone, s.current, [], [])
    ensures CopiedTo(cfg, s', gone, s'.current, [], [])
  {
    hide Start;
  }

  /** Only the drop takes an epoch away, and only an old one other than the current. */
  lemma StepTakes(cfg: Config, s: State, e: Event, gone: set<string>, f: string)
    requires Enabled(cfg, s, e) && TaskInv(cfg, s, gone) && f in s.epochs && f !in s.closed
    requires f !in Step(cfg, s, e).epochs || f in Step(cfg, s, e).closed
    ensures s.task.Dropping? && f != s.current && Old(cfg, s, f)
  {
    hide Start, CopiedTo, Forgettable;
  }

  /** A closed or deleted epoch takes nothing with it: its unexpired chunks are live in the current one. */
  lemma StepFound(cfg: Config, s: State, e: Event, kept: set<Chunk>, gone: set<string>, c: Chunk)
    requires Enabled(cfg, s, e) && Inv(cfg, s, kept, gone) && AppendOnly(Keeps(kept, e)) && (e.Put? ==> !e.chunk.tombstone)
    requires c in Keeps(kept, e) && c.id !in Forgets(gone, e) && !Expired(c, Step(cfg, s, e).clock)
    ensures Found(Step(cfg, s, e), c)
  {
    hide Start, Old, Forgettable;
    var s' := Step(cfg, s, e);
    if e.Put? && c == e.chunk {
      assert LiveOpen(s', s.current, c.id);
    } else {
      assert !Expired(c, s.clock);
      assert Keyed(s.epochs) && PendingKnown(s, kept);
      var f :| LiveOpen(s, f, c.id) && s.epochs[f][c.id] == c;
      if f in s'.epochs && f !in s'.closed {
        StaysLive(cfg, s, e, kept, f, c.id);
        hide Step, Inv, Enabled;
        StillSame(cfg, s, e, kept, gone, f, c);
        assert LiveOpen(s', f, c.id);
      } else {
        TakenFound(cfg, s, e, kept, gone, f, c);
      }
    }
    hide LiveIn, Enabled, Inv, Step;
  }

  /** What a step leaves in place and does not forget stays live. */
  lemma StaysLive(cfg: Config, s: State, e: Event, kept: set<Chunk>, f: string, id: string)
    requires Enabled(cfg, s, e) && LiveIn(s.epochs, f, id) && id !in Forgets({}, e) && f in Step(cfg, s, e).epochs
    requires (e.Put? ==> !e.chunk.tombstone) && PendingKnown(s, kept) && !(e.Opened? && f == s.task.newId)
    ensures LiveIn(Step(cfg, s, e).epochs, f, id)
  {
    hide Start, Forgettable;
  }

  /** What the drop takes away is found in the current epoch. */
  lemma TakenFound(cfg: Config, s: State, e: Event, kept: set<Chunk>, gone: set<string>, f: string, c: Chunk)
    requires Enabled(cfg, s, e) && Inv(cfg, s, kept, gone) && AppendOnly(Keeps(kept, e)) && (e.Put? ==> !e.chunk.tombstone)
    requires c in kept && c.id !in gone && !Expired(c, s.clock) && LiveOpen(s, f, c.id) && s.epochs[f][c.id] == c
    requires f !in Step(cfg, s, e).epochs || f in Step(cfg, s, e).closed
    ensures Found(Step(cfg, s, e), c)
  {
    hide Start, Forgettable;
    StepTakes(cfg, s, e, gone, f);
    hide Old;
    assert LiveIn(s.epochs, s.current, c.id);
    LiveKnown(s.epochs, kept, s.current, c.id);
    hide LiveSet, Keyed;
    assert s.epochs[s.current][c.id] == c;
    assert LiveOpen(Step(cfg, s, e), s.current, c.id);
  }

  lemma StillSame(cfg: Config, s: State, e: Event, kept: set<Chunk>, gone: set<string>, f: string, c: Chunk)
    requires Enabled(cfg, s, e) && Inv(cfg, s, kept, gone) && AppendOnly(Keeps(kept, e)) && (e.Put? ==> !e.chunk.tombstone)
    requires c in kept && LiveIn(s.epochs, f, c.id) && s.epochs[f][c.id] == c && LiveIn(Step(cfg, s, e).epochs, f, c.id)
    ensures Step(cfg, s, e).epochs[f][c.id] == c
  {
    StepKnown(cfg, s, e, kept, gone);
    LiveKnown(Step(cfg, s, e).epochs, Keeps(kept, e), f, c.id);
  }

  lemma StepInv(cfg: Config, s: State, e: Event, kept: set<Chunk>, gone: set<string>)
    requires Enabled(cfg, s, e) && Inv(cfg, s, kept, gone) && InTime(cfg, s, e)
    requires AppendOnly(Keeps(kept, e)) && (e.Put? ==> !e.chunk.tombstone)
    ensures Inv(cfg, Step(cfg, s, e), Keeps(kept, e), Forgets(gone, e))
  {
    StepKnown(cfg, s, e, kept, gone);
    StepTask(cfg, s, e, kept, gone);
    forall c | c in Keeps(kept, e) && c.id !in Forgets(gone, e) && !Expired(c, Step(cfg, s, e).clock) ensures Found(Step(cfg, s, e), c) {
      StepFound(cfg, s, e, kept, gone, c);
    }
    StepCurrent(cfg, s, e, gone);
  }

  lemma StepCurrent(cfg: Config, s: State, e: Event, gone: set<string>)
    requires Enabled(cfg, s, e) && TaskInv(cfg, s, gone) && s.current in s.epochs && s.current !in s.closed
    ensures Step(cfg, s, e).current in Step(cfg, s, e).epochs && Step(cfg, s, e).current !in Step(cfg, s, e).closed
  {
    hide Start, CopiedTo, Forgettable;
  }

  // ----- runs -----

  ghost predicate Runs(cfg: Config, s: State, es: seq<Event>)
    decreases |es|
  {
    es == [] || (Enabled(cfg, s, es[0]) && Runs(cfg, Step(cfg, s, es[0]), es[1..]))
  }

  ghost function Exec(cfg: Config, s: State, es: seq<Event>): State
    requires Runs(cfg, s, es)
    decreases |es|
  {
    if es == [] then s else Exec(cfg, Step(cfg, s, es[0]), es[1..])
  }

  /** Every rotation of the run starts in time. */
  ghost predicate Timely(cfg: Config, s: State, es: seq<Event>)
    requires Runs(cfg, s, es)
    decreases |es|
  {
    es == [] || (InTime(cfg, s, es[0]) && Timely(cfg, Step(cfg, s, es[0]), es[1..]))
  }

  ghost function Written(kept: set<Chunk>, es: seq<Event>): set<Chunk> {
    kept + set i | 0 <= i < |es| && es[i].Put? :: es[i].chunk
  }

  ghost function Gone(gone: set<string>, es: seq<Event>): set<string> {
    gone + set i | 0 <= i < |es| && es[i].Forget? :: es[i].id
  }

  lemma WrittenStep(kept: set<Chunk>, gone: set<string>, es: seq<Event>)
    requires es != []
    ensures Written(kept, es) == Written(Keeps(kept, es[0]), es[1..]) && Keeps(kept, es[0]) <= Written(kept, es)
    ensures Gone(gone, es) == Gone(Forgets(gone, es[0]), es[1..])
  {
    var rest := es[1..];
    assert forall i :: 0 <= i < |rest| ==> rest[i] == es[i + 1];
    forall c ensures c in Written(kept, es) <==> c in Written(Keeps(kept, es[0]), rest) {
      if i :| 0 <= i < |es| && es[i].Put? && es[i].chunk == c {
        assert i > 0 ==> rest[i - 1] == es[i];
      }
      if i :| 0 <= i < |rest| && rest[i].Put? && rest[i].chunk == c {
        assert es[i + 1] == rest[i];
      }
    }
    forall id ensures id in Gone(gone, es) <==> id in Gone(Forgets(gone, es[0]), rest) {
      if i :| 0 <= i < |es| && es[i].Forget? && es[i].id == id {
        assert i > 0 ==> rest[i - 1] == es[i];
      }
      if i :| 0 <= i < |rest| && rest[i].Forget? && rest[i].id == id {
        assert es[i + 1] == rest[i];
      }
    }
  }

  lemma {:induction false} RunInv(cfg: Config, s: State, es: seq<Event>, kept: set<Chunk>, gone: set<string>)
    requires Runs(cfg, s, es) && Timely(cfg, s, es) && Inv(cfg, s, kept, gone) && AppendOnly(Written(kept, es))
    requires forall c :: c in Written(kept, es) ==> !c.tombstone
    ensures Inv(cfg, Exec(cfg, s, es), Written(kept, es), Gone(gone, es))
    decreases |es|
  {
    hide Inv, Enabled, Step, InTime;
    if es == [] {
      assert Written(kept, es) == kept && Gone(gone, es) == gone;
    } else {
      WrittenStep(kept, gone, es);
      StepInv(cfg, s, es[0], kept, gone);
      RunInv(cfg, Step(cfg, s, es[0]), es[1..], Keeps(kept, es[0]), Forgets(gone, es[0]));
    }
  }

  /** A manager at rest: one copy of the truth in its epochs, nothing closed, nothing suspended. */
  ghost predicate AtRest(s: State) {
    s.task.Idle? && s.closed == {} && s.current in s.epochs && Keyed(s.epochs) && OneContent(s.epochs)
  }

  lemma RestIsInv(cfg: Config, s: State)
    requires AtRest(s)
    ensures Inv(cfg, s, LiveSet(s.epochs), {})
  {
    hide Start;
    forall c | c in LiveSet(s.epochs) ensures Found(s, c) && !c.tombstone {
      var e, k :| e in s.epochs && k in s.epochs[e] && !s.epochs[e][k].tombstone && s.epochs[e][k] == c;
      assert LiveOpen(s, e, c.id);
    }
    forall c, d | c in LiveSet(s.epochs) && d in LiveSet(s.epochs) && c.id == d.id ensures c == d {
      var e, k :| e in s.epochs && k in s.epochs[e] && !s.epochs[e][k].tombstone && s.epochs[e][k] == c;
      var f, l :| f in s.epochs && l in s.epochs[f] && !s.epochs[f][l].tombstone && s.epochs[f][l] == d;
      assert LiveIn(s.epochs, e, k) && LiveIn(s.epochs, f, l) && k == l;
    }
  }

  /**
   * At every point of every run of rotations and drops with puts and forgets in between, each rotation starting in time:
   * there is a store to write to, and every unexpired chunk that was live at the start or put since, and whose id was not
   * forgotten since, can be read.
   */
  lemma NothingUnreadable(cfg: Config, s: State, es: seq<Event>, c: Chunk)
    requires AtRest(s) && Runs(cfg, s, es) && Timely(cfg, s, es) && AppendOnly(Written(LiveSet(s.epochs), es))
    requires forall d :: d in Written(LiveSet(s.epochs), es) ==> !d.tombstone
    ensures Exec(cfg, s, es).current in Exec(cfg, s, es).epochs && Exec(cfg, s, es).current !in Exec(cfg, s, es).closed
    ensures c in Written(LiveSet(s.epochs), es) && c.id !in Gone({}, es) && !Expired(c, Exec(cfg, s, es).clock) ==> Found(Exec(cfg, s, es), c)
  {
    RestIsInv(cfg, s);
    RunInv(cfg, s, es, LiveSet(s.epochs), {});
  }
}
