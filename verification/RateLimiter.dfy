/** Sliding-window rate limiting with soft bans, against the full history of events. */
module RateLimiter {

  // ----- histories -----

  predicate Ascending(h: seq<int>) {
    forall i, j :: 0 <= i < j < |h| ==> h[i] <= h[j]
  }

  /** The number of events in a closed interval. */
  function CountIn(h: seq<int>, lo: int, hi: int): nat {
    if h == [] then 0
    else CountIn(h[..|h| - 1], lo, hi) + if lo <= h[|h| - 1] <= hi then 1 else 0
  }

  /** Event `i` came when fewer than `max` had happened in the window that ends with it. */
  predicate Timely(h: seq<int>, i: nat, windowMs: nat, max: nat)
    requires i < |h|
  {
    CountIn(h[..i], h[i] - windowMs, h[i]) < max
  }

  ghost predicate Disciplined(h: seq<int>, windowMs: nat, max: nat) {
    Ascending(h) && forall i :: 0 <= i < |h| ==> Timely(h, i, windowMs, max)
  }

  lemma {:induction false} CountMonotone(h: seq<int>, lo: int, hi: int, lo': int, hi': int)
    requires forall i :: 0 <= i < |h| && lo <= h[i] <= hi ==> lo' <= h[i] <= hi'
    ensures CountIn(h, lo, hi) <= CountIn(h, lo', hi')
  {
    if h != [] {
      CountMonotone(h[..|h| - 1], lo, hi, lo', hi');
    }
  }

  lemma {:induction false} CountNone(h: seq<int>, lo: int, hi: int)
    requires forall i :: 0 <= i < |h| ==> !(lo <= h[i] <= hi)
    ensures CountIn(h, lo, hi) == 0
  {
    if h != [] {
      CountNone(h[..|h| - 1], lo, hi);
    }
  }

  lemma {:induction false} CountAll(h: seq<int>, lo: int, hi: int)
    requires forall i :: 0 <= i < |h| ==> lo <= h[i] <= hi
    ensures CountIn(h, lo, hi) == |h|
  {
    if h != [] {
      CountAll(h[..|h| - 1], lo, hi);
    }
  }

  lemma {:induction false} CountSplit(h: seq<int>, k: nat, lo: int, hi: int)
    requires k <= |h|
    ensures CountIn(h, lo, hi) == CountIn(h[..k], lo, hi) + CountIn(h[k..], lo, hi)
  {
    if k == |h| {
      assert h[..k] == h;
    } else {
      var init := h[..|h| - 1];
      CountSplit(init, k, lo, hi);
      assert init[..k] == h[..k] && init[k..] == h[k..][..|h| - k - 1];
    }
  }

  /** The places of the events from `lo` to `hi`, both included. */
  ghost function Between(h: seq<int>, lo: int, hi: int): set<int> {
    set i | 0 <= i < |h| && lo <= h[i] <= hi
  }

  lemma {:induction false} CountIs(h: seq<int>, lo: int, hi: int)
    ensures CountIn(h, lo, hi) == |Between(h, lo, hi)|
  {
    if h != [] {
      var n := |h| - 1;
      CountIs(h[..n], lo, hi);
      BetweenOneMore(h, lo, hi);
      assert n !in Between(h[..n], lo, hi);
      hide Between;
    }
  }

  lemma BetweenOneMore(h: seq<int>, lo: int, hi: int)
    requires h != []
    ensures Between(h, lo, hi) == Between(h[..|h| - 1], lo, hi) + if lo <= h[|h| - 1] <= hi then {|h| - 1} else {}
  {
    var init := h[..|h| - 1];
    forall i ensures i in Between(h, lo, hi) <==> i in Between(init, lo, hi) || (i == |h| - 1 && lo <= h[i] <= hi) {
      assert 0 <= i < |h| - 1 ==> init[i] == h[i];
    }
  }

  lemma InitDisciplined(h: seq<int>, windowMs: nat, max: nat)
    requires h != [] && Disciplined(h, windowMs, max)
    ensures Disciplined(h[..|h| - 1], windowMs, max)
  {
    var init := h[..|h| - 1];
    forall i | 0 <= i < |init| ensures Timely(init, i, windowMs, max) {
      assert init[..i] == h[..i] && Timely(h, i, windowMs, max);
    }
  }

  lemma {:induction false} WindowLimited(h: seq<int>, windowMs: nat, max: nat, t: int)
    requires Disciplined(h, windowMs, max)
    ensures CountIn(h, t, t + windowMs) <= max
  {
    if h != [] {
      var init, e := h[..|h| - 1], h[|h| - 1];
      InitDisciplined(h, windowMs, max);
      WindowLimited(init, windowMs, max, t);
      if t <= e <= t + windowMs {
        assert Timely(h, |h| - 1, windowMs, max);
        CountMonotone(init, t, t + windowMs, e - windowMs, e);
      }
    }
  }

  predicate WithinLimit(h: seq<int>, t: int, windowMs: nat, max: nat) {
    CountIn(h, t, t + windowMs) <= max
  }

  /** Looking only at the window before each event bounds every closed interval of that length, and is no stricter. */
  lemma EveryWindowLimitedIff(h: seq<int>, windowMs: nat, max: nat)
    requires Ascending(h)
    ensures Disciplined(h, windowMs, max) <==> forall t :: WithinLimit(h, t, windowMs, max)
  {
    if Disciplined(h, windowMs, max) {
      forall t ensures WithinLimit(h, t, windowMs, max) {
        WindowLimited(h, windowMs, max, t);
      }
    }
    if forall t :: WithinLimit(h, t, windowMs, max) {
      forall i | 0 <= i < |h| ensures Timely(h, i, windowMs, max) {
        LimitedIsTimely(h, i, windowMs, max);
      }
    }
    hide Timely, WithinLimit, Ascending;
  }

  lemma LimitedIsTimely(h: seq<int>, i: nat, windowMs: nat, max: nat)
    requires i < |h| && WithinLimit(h, h[i] - windowMs, windowMs, max)
    ensures Timely(h, i, windowMs, max)
  {
    var upTo := h[..i + 1];
    CountSplit(h, i + 1, h[i] - windowMs, h[i]);
    assert upTo[..|upTo| - 1] == h[..i] && upTo[|upTo| - 1] == h[i];
    assert CountIn(upTo, h[i] - windowMs, h[i]) == CountIn(h[..i], h[i] - windowMs, h[i]) + 1;
  }

  // ----- the limiter -----

  datatype Window = Window(timestamps: seq<int>, softBanned: bool, bannedUntil: int)

  predicate BannedAt(w: Window, now: int) {
    w.softBanned && now < w.bannedUntil
  }

  /** What the limiter kept is the end of the history; what it let go is out of reach of any later window. */
  ghost predicate Remembers(w: Window, h: seq<int>, windowMs: nat, clock: int) {
    && Ascending(h)
    && (forall i :: 0 <= i < |h| ==> h[i] <= clock)
    && |w.timestamps| <= |h|
    && w.timestamps == h[|h| - |w.timestamps|..]
    && forall i :: 0 <= i < |h| - |w.timestamps| ==> h[i] < clock - windowMs
  }

  lemma PrunedRemembers(w: Window, i: nat, h: seq<int>, windowMs: nat, clock: int, now: int)
    requires Remembers(w, h, windowMs, clock) && clock <= now && i <= |w.timestamps|
    requires forall j :: 0 <= j < i ==> w.timestamps[j] < now - windowMs
    requires i < |w.timestamps| ==> w.timestamps[i] >= now - windowMs
    ensures Remembers(w.(timestamps := w.timestamps[i..]), h, windowMs, now)
    ensures |w.timestamps| - i == CountIn(h, now - windowMs, now)
  {
    hide CountIn;
    var cutoff, gone := now - windowMs, |h| - |w.timestamps|;
    var k := gone + i;
    assert w.timestamps[i..] == h[k..];
    forall j | 0 <= j < k ensures h[j] < cutoff {
      assert j >= gone ==> h[j] == w.timestamps[j - gone];
    }
    forall j | 0 <= j < |h| - k ensures cutoff <= h[k..][j] <= now {
      assert h[k] == w.timestamps[i];
    }
    CountSplit(h, k, cutoff, now);
    CountNone(h[..k], cutoff, now);
    CountAll(h[k..], cutoff, now);
  }

  /** Dropping the timestamps before the window from the front of the list. */
  method Prune(w: Window, now: int, windowMs: nat, ghost h: seq<int>, ghost clock: int) returns (w': Window)
    requires Remembers(w, h, windowMs, clock) && clock <= now
    ensures Remembers(w', h, windowMs, now)
    ensures w'.softBanned == w.softBanned && w'.bannedUntil == w.bannedUntil
    ensures |w'.timestamps| == CountIn(h, now - windowMs, now)
  {
    hide Remembers, CountIn;
    var cutoff := now - windowMs;
    var ts := w.timestamps;
    var i := 0;
    while i < |ts| && ts[i] < cutoff
      invariant 0 <= i <= |ts|
      invariant forall j :: 0 <= j < i ==> ts[j] < cutoff
    {
      i := i + 1;
    }
    PrunedRemembers(w, i, h, windowMs, clock, now);
    assert w.timestamps[0..] == w.timestamps;
    w' := if i > 0 then w.(timestamps := ts[i..]) else w;
  }

  lemma RemembersLater(w: Window, h: seq<int>, windowMs: nat, clock: int, now: int)
    requires Remembers(w, h, windowMs, clock) && clock <= now
    ensures Remembers(w, h, windowMs, now)
  {
  }

  lemma RemembersNothing(windowMs: nat, clock: int)
    ensures Remembers(UNKNOWN, [], windowMs, clock)
  {
  }

  lemma RemembersPushed(w: Window, h: seq<int>, windowMs: nat, now: int)
    requires Remembers(w, h, windowMs, now)
    ensures Remembers(w.(timestamps := w.timestamps + [now]), h + [now], windowMs, now)
  {
    var ts, h' := w.timestamps + [now], h + [now];
    var k := |h| - |w.timestamps|;
    assert h'[k..] == h[k..] + [now];
  }

  lemma RemembersBan(w: Window, h: seq<int>, windowMs: nat, now: int, softBanned: bool, bannedUntil: int)
    requires Remembers(w, h, windowMs, now)
    ensures Remembers(w.(softBanned := softBanned, bannedUntil := bannedUntil), h, windowMs, now)
  {
  }

  lemma RemembersPast(w: Window, h: seq<int>, windowMs: nat, now: int)
    requires Remembers(w, h, windowMs, now)
    ensures forall i :: 0 <= i < |h| ==> h[i] <= now
  {
  }

  /** What a peer the limiter has no entry for is treated as. */
  const UNKNOWN := Window([], false, 0)

  /** From `now` on, the two windows ban alike. */
  ghost predicate SameBan(w: Window, w': Window, now: int) {
    forall t :: t >= now ==> (BannedAt(w, t) <==> BannedAt(w', t))
  }

  ghost predicate RemembersAll(peers: map<string, Window>, history: map<string, seq<int>>, windowMs: nat, clock: int) {
    history.Keys == peers.Keys && forall p :: p in peers ==> Remembers(peers[p], history[p], windowMs, clock)
  }

  lemma UpdateRemembers(peers: map<string, Window>, history: map<string, seq<int>>, windowMs: nat, clock: int, p: string, w: Window, h: seq<int>)
    requires RemembersAll(peers, history, windowMs, clock) && Remembers(w, h, windowMs, clock)
    ensures RemembersAll(peers[p := w], history[p := h], windowMs, clock)
    ensures p in history && history[p] == h ==> RemembersAll(peers[p := w], history, windowMs, clock)
  {
    hide Remembers;
    if p in history && history[p] == h {
      assert history[p := h] == history;
    }
  }

  lemma LaterRemembers(peers: map<string, Window>, history: map<string, seq<int>>, windowMs: nat, clock: int, now: int)
    requires RemembersAll(peers, history, windowMs, clock) && clock <= now
    ensures RemembersAll(peers, history, windowMs, now)
  {
    hide Remembers;
    forall p | p in peers ensures Remembers(peers[p], history[p], windowMs, now) {
      RemembersLater(peers[p], history[p], windowMs, clock, now);
    }
  }

  lemma KeysRemembered(peers: map<string, Window>, history: map<string, seq<int>>, windowMs: nat, clock: int)
    requires RemembersAll(peers, history, windowMs, clock)
    ensures history.Keys == peers.Keys
  {
  }

  lemma EntryRemembered(peers: map<string, Window>, history: map<string, seq<int>>, windowMs: nat, clock: int, p: string)
    requires RemembersAll(peers, history, windowMs, clock) && p in peers
    ensures p in history && Remembers(peers[p], history[p], windowMs, clock)
  {
  }

  function EventsOf(history: map<string, seq<int>>, p: string): seq<int> {
    if p in history then history[p] else []
  }

  function EntryOf(peers: map<string, Window>, p: string): Window {
    if p in peers then peers[p] else UNKNOWN
  }

  /** The entries and histories of all peers but `except` are as before. */
  ghost predicate OthersKept(peers: map<string, Window>, history: map<string, seq<int>>,
                             peers': map<string, Window>, history': map<string, seq<int>>, except: string)
  {
    forall p :: p != except ==> EventsOf(history', p) == EventsOf(history, p) && EntryOf(peers', p) == EntryOf(peers, p)
  }

  lemma UpdateKeepsOthers(was: map<string, Window>, had: map<string, seq<int>>, peers: map<string, Window>, history: map<string, seq<int>>,
                          p: string, w: Window)
    requires OthersKept(was, had, peers, history, p)
    ensures OthersKept(was, had, peers[p := w], history, p) && EntryOf(peers[p := w], p) == w
  {
  }

  lemma PushKeepsOthers(was: map<string, Window>, had: map<string, seq<int>>, peers: map<string, Window>, history: map<string, seq<int>>,
                        p: string, w: Window, h: seq<int>)
    requires OthersKept(was, had, peers, history, p)
    ensures OthersKept(was, had, peers[p := w], history[p := h], p)
    ensures EntryOf(peers[p := w], p) == w && EventsOf(history[p := h], p) == h
  {
  }

  lemma CreatedKeepsOthers(peers: map<string, Window>, history: map<string, seq<int>>, p: string)
    requires p !in peers && p !in history
    ensures OthersKept(peers, history, peers[p := UNKNOWN], history[p := []], p)
    ensures EventsOf(history[p := []], p) == EventsOf(history, p) && EntryOf(peers[p := UNKNOWN], p) == EntryOf(peers, p)
  {
  }

  lemma CreatedRemembers(peers: map<string, Window>, history: map<string, seq<int>>, windowMs: nat, clock: int, p: string)
    requires RemembersAll(peers, history, windowMs, clock)
    ensures RemembersAll(peers[p := UNKNOWN], history[p := []], windowMs, clock)
  {
    hide Remembers, RemembersAll;
    RemembersNothing(windowMs, clock);
    UpdateRemembers(peers, history, windowMs, clock, p, UNKNOWN, []);
  }

  class RateLimiter {
    const maxPerWindow: nat
    const windowMs: nat
    var peers: map<string, Window>

    /** Every event recorded since the peer's last reset, and the latest time seen. */
    ghost var history: map<string, seq<int>>
    ghost var clock: int

    ghost predicate Valid()
      reads this
    {
      RemembersAll(peers, history, windowMs, clock)
    }

    constructor (maxPerWindow: nat, windowMs: nat, ghost start: int)
      ensures Valid() && peers == map[] && clock == start
      ensures this.maxPerWindow == maxPerWindow && this.windowMs == windowMs
    {
      this.maxPerWindow, this.windowMs := maxPerWindow, windowMs;
      peers, history, clock := map[], map[], start;
    }

    /** Decides as if it had the whole history: not banned, and fewer than the maximum in the window ending now. */
    method Check(peerId: string, now: int) returns (allowed: bool)
      requires Valid() && clock <= now
      modifies this
      ensures Valid() && clock == now && OthersKept(old(peers), old(history), peers, history, peerId)
      ensures EventsOf(history, peerId) == EventsOf(old(history), peerId) && SameBan(EntryOf(old(peers), peerId), EntryOf(peers, peerId), now)
      ensures allowed <==> !BannedAt(EntryOf(old(peers), peerId), now)
                           && CountIn(EventsOf(old(history), peerId), now - windowMs, now) < maxPerWindow
      ensures forall i :: 0 <= i < |EventsOf(history, peerId)| ==> EventsOf(history, peerId)[i] <= now
    {
      hide Ascending, CountIn, Remembers, RemembersAll, OthersKept;
      GetOrCreate(peerId);
      Advance(now);
      var window := peers[peerId];
      EntryRemembered(peers, history, windowMs, now, peerId);
      RemembersPast(window, history[peerId], windowMs, now);
      if window.softBanned {
        if now < window.bannedUntil {
          return false;
        }
        RemembersBan(window, history[peerId], windowMs, now, false, 0);
        window := window.(softBanned := false, bannedUntil := 0);
      }
      window := Prune(window, now, windowMs, history[peerId], clock);
      UpdateRemembers(peers, history, windowMs, now, peerId, window, history[peerId]);
      UpdateKeepsOthers(old(peers), old(history), peers, history, peerId, window);
      peers := peers[peerId := window];
      allowed := |window.timestamps| < maxPerWindow;
    }

    method Record(peerId: string, now: int)
      requires Valid() && clock <= now
      modifies this
      ensures Valid() && clock == now && OthersKept(old(peers), old(history), peers, history, peerId)
      ensures EventsOf(history, peerId) == EventsOf(old(history), peerId) + [now]
      ensures SameBan(EntryOf(old(peers), peerId), EntryOf(peers, peerId), now)
    {
      hide Ascending, CountIn, Remembers, RemembersAll, OthersKept;
      GetOrCreate(peerId);
      Advance(now);
      EntryRemembered(peers, history, windowMs, now, peerId);
      var window := Prune(peers[peerId], now, windowMs, history[peerId], clock);
      ghost var kept := window;
      window := window.(timestamps := window.timestamps + [now]);
      RemembersPushed(kept, history[peerId], windowMs, now);
      UpdateRemembers(peers, history, windowMs, now, peerId, window, history[peerId] + [now]);
      PushKeepsOthers(old(peers), old(history), peers, history, peerId, window, history[peerId] + [now]);
      peers := peers[peerId := window];
      history := history[peerId := history[peerId] + [now]];
    }

    method SoftBan(peerId: string, durationMs: int, now: int)
      requires Valid() && clock <= now
      modifies this
      ensures Valid() && clock == now && OthersKept(old(peers), old(history), peers, history, peerId)
      ensures EventsOf(history, peerId) == EventsOf(old(history), peerId)
      ensures forall t :: BannedAt(EntryOf(peers, peerId), t) <==> t < now + durationMs
    {
      hide Ascending, CountIn, Remembers, RemembersAll, OthersKept, EventsOf;
      GetOrCreate(peerId);
      Advance(now);
      var until := now + durationMs;
      var window := peers[peerId];
      EntryRemembered(peers, history, windowMs, now, peerId);
      RemembersBan(window, history[peerId], windowMs, now, true, until);
      window := window.(softBanned := true, bannedUntil := until);
      UpdateRemembers(peers, history, windowMs, now, peerId, window, history[peerId]);
      UpdateKeepsOthers(old(peers), old(history), peers, history, peerId, window);
      hide EntryOf;
      peers := peers[peerId := window];
    }

    method IsBanned(peerId: string, now: int) returns (banned: bool)
      requires Valid() && clock <= now
      modifies this`peers
      ensures Valid() && OthersKept(old(peers), old(history), peers, history, peerId) && EventsOf(history, peerId) == EventsOf(old(history), peerId)
      ensures banned == BannedAt(EntryOf(old(peers), peerId), now) && SameBan(EntryOf(old(peers), peerId), EntryOf(peers, peerId), now)
    {
      hide Ascending, CountIn, Remembers;
      if peerId !in peers || !peers[peerId].softBanned {
        return false;
      }
      if now >= peers[peerId].bannedUntil {
        RemembersBan(peers[peerId], history[peerId], windowMs, clock, false, 0);
        var window := peers[peerId].(softBanned := false, bannedUntil := 0);
        UpdateRemembers(peers, history, windowMs, clock, peerId, window, history[peerId]);
        hide RemembersAll;
        peers := peers[peerId := window];
        return false;
      }
      banned := true;
    }

    method GetCount(peerId: string, now: int) returns (count: nat)
      requires Valid() && clock <= now
      modifies this
      ensures Valid() && clock == now && OthersKept(old(peers), old(history), peers, history, peerId)
      ensures EventsOf(history, peerId) == EventsOf(old(history), peerId) && SameBan(EntryOf(old(peers), peerId), EntryOf(peers, peerId), now)
      ensures count == CountIn(EventsOf(old(history), peerId), now - windowMs, now)
    {
      hide Ascending, Remembers;
      Advance(now);
      if peerId !in peers {
        return 0;
      }
      var window := Prune(peers[peerId], now, windowMs, history[peerId], clock);
      UpdateRemembers(peers, history, windowMs, now, peerId, window, history[peerId]);
      hide RemembersAll;
      peers := peers[peerId := window];
      count := |window.timestamps|;
    }

    /** A reset forgets the peer's events and lifts its ban. */
    method Reset(peerId: string)
      requires Valid()
      modifies this`peers, this`history
      ensures Valid() && OthersKept(old(peers), old(history), peers, history, peerId)
      ensures EventsOf(history, peerId) == [] && EntryOf(peers, peerId) == UNKNOWN
    {
      hide Ascending, CountIn, Remembers;
      peers := peers - {peerId};
      history := history - {peerId};
    }

    method GetOrCreate(peerId: string)
      requires Valid()
      modifies this`peers, this`history
      ensures Valid() && peerId in peers && peerId in history && OthersKept(old(peers), old(history), peers, history, peerId)
      ensures EventsOf(history, peerId) == EventsOf(old(history), peerId) && EntryOf(peers, peerId) == EntryOf(old(peers), peerId)
    {
      hide Ascending, CountIn, Remembers, RemembersAll, EventsOf, EntryOf;
      KeysRemembered(peers, history, windowMs, clock);
      if peerId in peers {
        return;
      }
      CreatedRemembers(peers, history, windowMs, clock, peerId);
      CreatedKeepsOthers(peers, history, peerId);
      hide OthersKept;
      peers := peers[peerId := UNKNOWN];
      history := history[peerId := []];
    }

    ghost method Advance(now: int)
      requires Valid() && clock <= now
      modifies this`clock
      ensures Valid() && clock == now
    {
      hide Ascending, CountIn, Remembers;
      LaterRemembers(peers, history, windowMs, clock, now);
      clock := now;
    }

    /** Every peer's events were recorded in discipline. */
    ghost predicate AllDisciplined()
      reads this`history
    {
      forall p :: Disciplined(EventsOf(history, p), windowMs, maxPerWindow)
    }

    /**
     * Ingest as the daemon does it: check, ban for one window on refusal, record once everything else passed too.
     * So events are recorded only at the instant of a true check, and discipline is kept. The checks before and
     * after the rate check are parameters; a chunk without a peer id passes by the limiter.
     */
    method Ingest(peerId: string, earlierChecksPass: bool, laterChecksPass: bool, now: int) returns (accepted: bool)
      requires Valid() && clock <= now && AllDisciplined()
      modifies this
      ensures Valid() && clock == now && AllDisciplined() && OthersKept(old(peers), old(history), peers, history, peerId)
      ensures accepted <==>
                && earlierChecksPass
                && laterChecksPass
                && (peerId != "" ==> && !BannedAt(EntryOf(old(peers), peerId), now)
                                     && CountIn(EventsOf(old(history), peerId), now - windowMs, now) < maxPerWindow)
      ensures EventsOf(history, peerId) == EventsOf(old(history), peerId) + if accepted && peerId != "" then [now] else []
      ensures
        var overLimit := BannedAt(EntryOf(old(peers), peerId), now)
                         || CountIn(EventsOf(old(history), peerId), now - windowMs, now) >= maxPerWindow;
        if earlierChecksPass && peerId != "" && overLimit
        then forall t :: BannedAt(EntryOf(peers, peerId), t) <==> t < now + windowMs
        else SameBan(EntryOf(old(peers), peerId), EntryOf(peers, peerId), now)
    {
      hide Ascending, CountIn, Remembers, Disciplined, Valid;
      Advance(now);
      if !earlierChecksPass {
        return false;
      }
      if peerId != "" {
        var allowed := Check(peerId, now);
        if !allowed {
          SoftBan(peerId, windowMs, now);
          return false;
        }
      }
      if !laterChecksPass {
        return false;
      }
      if peerId != "" {
        RecordedInDiscipline(EventsOf(history, peerId), windowMs, maxPerWindow, now);
        Record(peerId, now);
      }
      accepted := true;
    }

    /** A peer that the rate check refused is refused for a window's length, whatever its history. */
    method IngestTwice(peerId: string, now: int, laterChecksPass: bool, later: int, earlier': bool, later': bool)
      returns (first: bool, second: bool)
      requires Valid() && clock <= now <= later && AllDisciplined()
      modifies this
      ensures peerId != "" && laterChecksPass && !first && later < now + windowMs ==> !second
    {
      hide Ascending, CountIn, Remembers, Disciplined, Valid, OthersKept, EventsOf, EntryOf;
      first := Ingest(peerId, true, laterChecksPass, now);
      second := Ingest(peerId, earlier', later', later);
    }
  }

  lemma RecordedInDiscipline(h: seq<int>, windowMs: nat, max: nat, now: int)
    requires Disciplined(h, windowMs, max) && (forall i :: 0 <= i < |h| ==> h[i] <= now)
    requires CountIn(h, now - windowMs, now) < max
    ensures Disciplined(h + [now], windowMs, max)
  {
    hide CountIn;
    var h' := h + [now];
    forall i | 0 <= i < |h'| ensures Timely(h', i, windowMs, max) {
      assert h'[..i] == h[..i];
      if i == |h| {
        assert h[..i] == h;
      } else {
        assert Timely(h, i, windowMs, max);
      }
    }
  }
}
