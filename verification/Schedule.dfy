/** The scheduler over the steps of the lifecycle: its ticks decide when rotations begin. */
module Schedule {
  import opened Chunks
  import opened Epochs
  import opened EpochTime
  import opened EpochSteps

  /** What happens in turn: a tick of the scheduler, or a step of a user or of the lifecycle task. */
  datatype Slot = Tick(now: int) | Turn(event: Event)

  /** The epoch that is current, or about to be. */
  function Target(s: State): string {
    match s.task
    case Opening(newId) => newId
    case Migrating(newId, _, _) => newId
    case _ => s.current
  }

  predicate Rotating(s: State) {
    s.task.Opening? || s.task.Migrating?
  }

  ghost function TickEvent(cfg: ValidConfig, now: int): Event {
    StartRotation(ComputeEpochId(now, cfg.durationMs), now)
  }

  /**
   * A tick does nothing while a rotation is under way; otherwise it rotates into the epoch of its clock, unless that is
   * current. `last` is the time of the last tick that was not skipped, and no more than retain lengths lie between two.
   */
  ghost predicate Scheduled(cfg: ValidConfig, s: State, slots: seq<Slot>, last: int)
    decreases |slots|
  {
    slots == [] ||
    match slots[0]
    case Turn(e) => !e.StartRotation? && Enabled(cfg, s, e) && Scheduled(cfg, Step(cfg, s, e), slots[1..], last)
    case Tick(now) =>
      if Rotating(s) then Scheduled(cfg, s, slots[1..], last)
      else
        && Dated(cfg, now) && now - last <= cfg.retain * cfg.durationMs + 1
        && if ComputeEpochId(now, cfg.durationMs) == s.current then Scheduled(cfg, s, slots[1..], now)
           else Enabled(cfg, s, TickEvent(cfg, now)) && Scheduled(cfg, Step(cfg, s, TickEvent(cfg, now)), slots[1..], now)
  }

  /** The steps that come of it. */
  ghost function Happened(cfg: ValidConfig, s: State, slots: seq<Slot>, last: int): seq<Event>
    requires Scheduled(cfg, s, slots, last)
    decreases |slots|
  {
    if slots == [] then []
    else
      match slots[0]
      case Turn(e) => [e] + Happened(cfg, Step(cfg, s, e), slots[1..], last)
      case Tick(now) =>
        if Rotating(s) then Happened(cfg, s, slots[1..], last)
        else if ComputeEpochId(now, cfg.durationMs) == s.current then Happened(cfg, s, slots[1..], now)
        else [TickEvent(cfg, now)] + Happened(cfg, Step(cfg, s, TickEvent(cfg, now)), slots[1..], now)
  }

  lemma SameTarget(cfg: Config, s: State, e: Event)
    requires Enabled(cfg, s, e) && !e.StartRotation?
    ensures Target(Step(cfg, s, e)) == Target(s)
  {
    hide Forgettable;
  }

  lemma RunsCons(cfg: Config, s: State, e: Event, es: seq<Event>)
    requires Enabled(cfg, s, e) && InTime(cfg, s, e) && Runs(cfg, Step(cfg, s, e), es) && Timely(cfg, Step(cfg, s, e), es)
    ensures Runs(cfg, s, [e] + es) && Timely(cfg, s, [e] + es)
  {
    hide Enabled, Step, InTime;
    assert ([e] + es)[1..] == es;
  }

  /** Ticks that are no further apart than that make every rotation begin in time. */
  lemma {:induction false} TicksAreTimely(cfg: ValidConfig, s: State, slots: seq<Slot>, last: int)
    requires Scheduled(cfg, s, slots, last) && Dated(cfg, last) && Target(s) == ComputeEpochId(last, cfg.durationMs)
    ensures Runs(cfg, s, Happened(cfg, s, slots, last)) && Timely(cfg, s, Happened(cfg, s, slots, last))
    decreases |slots|
  {
    hide Start, Cutoff, ComputeEpochId, Dated, Step, Enabled, Runs, Timely;
    if slots == [] {
      NothingHappened(cfg, s);
    } else {
      var rest := slots[1..];
      match slots[0]
      case Turn(e) =>
        SameTarget(cfg, s, e);
        TicksAreTimely(cfg, Step(cfg, s, e), rest, last);
        RunsCons(cfg, s, e, Happened(cfg, Step(cfg, s, e), rest, last));
      case Tick(now) =>
        if Rotating(s) {
          TicksAreTimely(cfg, s, rest, last);
        } else if ComputeEpochId(now, cfg.durationMs) == s.current {
          TicksAreTimely(cfg, s, rest, now);
        } else {
          var e := TickEvent(cfg, now);
          RecentStaysInside(cfg, last, now);
          TickTarget(cfg, s, now);
          TicksAreTimely(cfg, Step(cfg, s, e), rest, now);
          RunsCons(cfg, s, e, Happened(cfg, Step(cfg, s, e), rest, now));
        }
    }
  }

  lemma NothingHappened(cfg: Config, s: State)
    ensures Runs(cfg, s, []) && Timely(cfg, s, [])
  {
  }

  lemma TickTarget(cfg: ValidConfig, s: State, now: int)
    requires Enabled(cfg, s, TickEvent(cfg, now))
    ensures Target(Step(cfg, s, TickEvent(cfg, now))) == ComputeEpochId(now, cfg.durationMs)
  {
    hide ComputeEpochId;
  }

  /** So with such a scheduler no unexpired chunk that is not forgotten is ever out of reach of a get. */
  lemma NothingLostOnSchedule(cfg: ValidConfig, s: State, slots: seq<Slot>, last: int, c: Chunk)
    requires AtRest(s) && Dated(cfg, last) && s.current == ComputeEpochId(last, cfg.durationMs) && Scheduled(cfg, s, slots, last)
    requires AppendOnly(Written(LiveSet(s.epochs), Happened(cfg, s, slots, last)))
    requires forall d :: d in Written(LiveSet(s.epochs), Happened(cfg, s, slots, last)) ==> !d.tombstone
    ensures
      var es := Happened(cfg, s, slots, last);
      && Runs(cfg, s, es)
      && (c in Written(LiveSet(s.epochs), es) && c.id !in Gone({}, es) && !Expired(c, Exec(cfg, s, es).clock) ==> Found(Exec(cfg, s, es), c))
  {
    hide Start, ComputeEpochId, Dated, Scheduled, Happened, Runs, Timely, Exec, Written, Gone, Found;
    TicksAreTimely(cfg, s, slots, last);
    NothingUnreadable(cfg, s, Happened(cfg, s, slots, last), c);
  }
}
