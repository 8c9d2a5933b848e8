/** Hashcash stamps: what a leading-zero test means, when a stamp verifies, and how long a cached one is good. */
module Pow {
  import opened Arith
  import opened Chunks

  // ----- leading zero bits -----

  function Power2(n: nat): (r: nat)
    ensures r > 0
  {
    if n == 0 then 1 else 2 * Power2(n - 1)
  }

  predicate IsHexDigit(c: char) {
    '0' <= c <= '9' || 'a' <= c <= 'f'
  }

  predicate IsHex(h: string) {
    forall i :: 0 <= i < |h| ==> IsHexDigit(h[i])
  }

  function DigitValue(c: char): (r: nat)
    requires IsHexDigit(c)
    ensures r < 16 && (r == 0 <==> c == '0')
  {
    if c <= '9' then c as int - '0' as int else 10 + (c as int - 'a' as int)
  }

  /** parseInt(c, 16) of one digit, as the 32-bit word the bit operators work on. */
  function DigitWord(c: char): bv32 {
    match c
    case '1' => 1 case '2' => 2 case '3' => 3 case '4' => 4 case '5' => 5
    case '6' => 6 case '7' => 7 case '8' => 8 case '9' => 9
    case 'a' => 10 case 'b' => 11 case 'c' => 12 case 'd' => 13 case 'e' => 14 case 'f' => 15
    case _ => 0
  }

  /** The number a hex string writes. */
  function Value(h: string): (r: nat)
    requires IsHex(h)
  {
    if h == [] then 0 else DigitValue(h[0]) * Power2(4 * (|h| - 1)) + Value(h[1..])
  }

  /**
   * The difficulty a digest meets. Up to its own length that is being a small number; one to three bits more
   * than it has are granted to an all-zero digest, and anything beyond to none.
   */
  ghost predicate Meets(h: string, bits: int)
    requires IsHex(h)
  {
    var length := 4 * |h|;
    if bits <= 0 then true
    else if bits <= length then Value(h) < Power2(length - bits)
    else bits < length + 4 && Value(h) == 0
  }

  lemma {:induction false} PowerAdds(a: nat, b: nat)
    ensures Power2(a + b) == Power2(a) * Power2(b)
  {
    if a > 0 {
      PowerAdds(a - 1, b);
    }
  }

  lemma Scaled(d: nat, q: nat, p: nat, v: nat)
    requires v < p
    ensures d * p + v < q * p <==> d < q
  {
    Distribute(q, d, p);
    Sign(q - d, p);
  }

  lemma {:induction false} ValueBelow(h: string)
    requires IsHex(h)
    ensures Value(h) < Power2(4 * |h|)
  {
    if h != [] {
      var rest := 4 * (|h| - 1);
      ValueBelow(h[1..]);
      PowerAdds(4, rest);
      Scaled(DigitValue(h[0]), 16, Power2(rest), Value(h[1..]));
    }
  }

  lemma PowerGrows(a: nat, b: nat)
    requires a <= b
    ensures Power2(a) <= Power2(b)
  {
    PowerAdds(a, b - a);
    assert Power2(a) * Power2(b - a) >= Power2(a);
  }

  /** A digest that meets a difficulty meets every lower one. */
  lemma MeetsLess(h: string, bits: int, fewer: int)
    requires IsHex(h) && Meets(h, bits) && fewer <= bits
    ensures Meets(h, fewer)
  {
    var length := 4 * |h|;
    if 0 < fewer && bits <= length {
      PowerGrows(length - bits, length - fewer);
    }
  }

  /** A leading zero digit only shortens the number. */
  lemma ZeroDigit(h: string, bits: int)
    requires IsHex(h) && h != [] && bits >= 4
    ensures Meets(h, bits) <==> h[0] == '0' && Meets(h[1..], bits - 4)
  {
    var rest := 4 * (|h| - 1);
    var d := DigitValue(h[0]);
    assert d >= 1 ==> d * Power2(rest) >= Power2(rest);
    if bits <= 4 * |h| {
      PowerGrows(rest + 4 - bits, rest);
    }
    ValueBelow(h[1..]);
  }

  /** The highest bits of the leading digit decide when fewer than four bits are asked for. */
  lemma PartialDigit(h: string, bits: int)
    requires IsHex(h) && h != [] && 0 < bits < 4
    ensures Meets(h, bits) <==> DigitValue(h[0]) < Power2(4 - bits)
  {
    var rest := 4 * (|h| - 1);
    var d, p, q := DigitValue(h[0]), Power2(rest), Power2(4 - bits);
    ValueBelow(h[1..]);
    PowerAdds(4 - bits, rest);
    assert 4 * |h| - bits == (4 - bits) + rest;
    Scaled(d, q, p, Value(h[1..]));
  }

  lemma MaskedDigit(c: char, bits: int)
    requires IsHexDigit(c) && 0 < bits < 4
    ensures (DigitWord(c) & (0xf & ((0xf as bv32) << (4 - bits))) == 0) <==> DigitValue(c) < Power2(4 - bits)
  {
    assert Power2(1) == 2 && Power2(2) == 4 && Power2(3) == 8;
  }

  /** The digit-by-digit test decides whether the digest meets the difficulty. */
  method HasLeadingZeroBits(h: string, bits: int) returns (ok: bool)
    requires IsHex(h)
    ensures ok <==> Meets(h, bits)
  {
    hide Meets;
    if bits <= 0 {
      MeetsNothing(h, bits);
      return true;
    }
    var fullNibbles, remainder := bits / 4, bits % 4;
    var i := 0;
    while i < fullNibbles
      invariant 0 <= i <= fullNibbles && i <= |h|
      invariant Meets(h, bits) <==> Meets(h[i..], bits - 4 * i)
    {
      if i == |h| {
        NothingLeft(h[i..], bits - 4 * i);
        return false;
      }
      ZeroDigit(h[i..], bits - 4 * i);
      if h[i] != '0' {
        return false;
      }
      assert h[i..][1..] == h[i + 1..];
      i := i + 1;
    }
    if remainder > 0 && i < |h| {
      PartialDigit(h[i..], remainder);
      MaskedDigit(h[i], remainder);
      var mask := 0xf & ((0xf as bv32) << (4 - remainder));
      return DigitWord(h[i]) & mask == 0;
    }
    if i == |h| {
      NothingLeft(h[i..], remainder);
    } else {
      MeetsNothing(h[i..], remainder);
    }
    ok := true;
  }

  lemma MeetsNothing(h: string, bits: int)
    requires IsHex(h) && bits <= 0
    ensures Meets(h, bits)
  {
  }

  lemma NothingLeft(h: string, bits: int)
    requires h == []
    ensures Meets(h, bits) <==> bits < 4
  {
  }

  // ----- stamps -----

  datatype HashcashStamp = HashcashStamp(bits: int, challenge: string, nonce: string, hash: string)

  /** SHA-256 as hex, and how numbers are written in decimal and hex. */
  datatype Hashing = Hashing(sha: string -> string, decimal: int -> string, hex: nat -> string)

  /** Digests have 64 hex digits; numerals have no colon and tell numbers apart. */
  ghost predicate IsHashing(f: Hashing) {
    && (forall s :: IsHex(f.sha(s)) && |f.sha(s)| == 64)
    && (forall n :: ':' !in f.decimal(n))
    && (forall m, n :: f.decimal(m) == f.decimal(n) ==> m == n)
  }

  function WindowIndex(now: int, windowMs: int): int
    requires windowMs > 0
  {
    now / windowMs
  }

  /** What is hashed for a challenge. */
  function ChallengeText(f: Hashing, peerId: string, scope: string, window: int): string {
    peerId + ":" + scope + ":" + f.decimal(window)
  }

  function Challenge(f: Hashing, peerId: string, scope: string, window: int): string {
    f.sha(ChallengeText(f, peerId, scope, window))
  }

  /** The hex digits in order, as numbers and as words. */
  lemma HexDigits()
    ensures IsHex("0123456789abcdef") && !IsHexDigit('g') && !IsHexDigit('A')
    ensures DigitValue('1') == 1 && DigitValue('9') == 9 && DigitValue('a') == 10 && DigitValue('f') == 15
    ensures DigitWord('0') == 0 && DigitWord('1') == 1 && DigitWord('2') == 2 && DigitWord('3') == 3
    ensures DigitWord('4') == 4 && DigitWord('5') == 5 && DigitWord('6') == 6 && DigitWord('7') == 7
    ensures DigitWord('8') == 8 && DigitWord('9') == 9 && DigitWord('a') == 10 && DigitWord('b') == 11
    ensures DigitWord('c') == 12 && DigitWord('d') == 13 && DigitWord('e') == 14 && DigitWord('f') == 15
  {
  }

  lemma LastColon(a: string, d: string, a': string, d': string)
    requires ':' !in d && ':' !in d' && a + ":" + d == a' + ":" + d'
    ensures a == a' && d == d'
  {
    var t := a + ":" + d;
    assert t[|a|] == ':' && t[|a'|] == ':';
    forall k | |a| < k < |t| ensures t[k] != ':' {
      assert t[k] == d[k - |a| - 1];
    }
    forall k | |a'| < k < |t| ensures t[k] != ':' {
      assert t[k] == d'[k - |a'| - 1];
    }
    assert t[..|a|] == a && t[..|a'|] == a' && t[|a| + 1..] == d && t[|a'| + 1..] == d';
  }

  /** The hashed text determines the window, and peer and scope as far as the colon between them can be told from others. */
  lemma ChallengeTextIff(f: Hashing, peerId: string, scope: string, window: int, peerId': string, scope': string, window': int)
    requires IsHashing(f)
    ensures ChallengeText(f, peerId, scope, window) == ChallengeText(f, peerId', scope', window') <==>
            window == window' && peerId + ":" + scope == peerId' + ":" + scope'
  {
    if ChallengeText(f, peerId, scope, window) == ChallengeText(f, peerId', scope', window') {
      LastColon(peerId + ":" + scope, f.decimal(window), peerId' + ":" + scope', f.decimal(window'));
    }
  }

  /** In one scope, or in scopes without a colon, that is peer and scope. */
  lemma PeerAndScopeIff(peerId: string, scope: string, peerId': string, scope': string)
    requires scope == scope' || (':' !in scope && ':' !in scope')
    ensures peerId + ":" + scope == peerId' + ":" + scope' <==> peerId == peerId' && scope == scope'
  {
    var t, t' := peerId + ":" + scope, peerId' + ":" + scope';
    if t == t' {
      if scope == scope' {
        assert t[..|t| - |scope| - 1] == peerId && t'[..|t'| - |scope| - 1] == peerId';
      } else {
        LastColon(peerId, scope, peerId', scope');
      }
    }
  }

  /** With colons in a scope two different pairs share a challenge. */
  lemma ScopesRunTogether(f: Hashing, window: int)
    ensures Challenge(f, "a:b", "c", window) == Challenge(f, "a", "b:c", window)
  {
    assert "a:b" + ":" + "c" == "a" + ":" + "b:c";
  }

  /** An honest stamp of the peer for the window. */
  ghost predicate MinedFor(f: Hashing, s: HashcashStamp, peerId: string, scope: string, bits: int, window: int) {
    && s.bits == bits
    && s.challenge == Challenge(f, peerId, scope, window)
    && s.hash == f.sha(s.challenge + s.nonce)
    && IsHex(s.hash)
    && Meets(s.hash, bits)
  }

  /**
   * The lowest nonce that meets the difficulty. The original counts up without a bound; here it gives up after
   * `fuel` tries.
   */
  method MineStamp(f: Hashing, peerId: string, scope: string, bits: int, windowMs: int, now: int, fuel: nat)
    returns (r: Option<HashcashStamp>)
    requires IsHashing(f) && windowMs > 0
    ensures r.Some? ==> MinedFor(f, r.value, peerId, scope, bits, WindowIndex(now, windowMs))
    ensures
      var challenge := Challenge(f, peerId, scope, WindowIndex(now, windowMs));
      if r.None? then forall n: nat :: n < fuel ==> !Meets(f.sha(challenge + f.hex(n)), bits)
      else exists n: nat :: n < fuel && r.value.nonce == f.hex(n) && forall k: nat :: k < n ==> !Meets(f.sha(challenge + f.hex(k)), bits)
  {
    hide Meets;
    var challenge := Challenge(f, peerId, scope, WindowIndex(now, windowMs));
    var nonce: nat := 0;
    while nonce < fuel
      invariant nonce <= fuel
      invariant forall k: nat :: k < nonce ==> !Meets(f.sha(challenge + f.hex(k)), bits)
    {
      var nonceHex := f.hex(nonce);
      var hash := f.sha(challenge + nonceHex);
      var found := HasLeadingZeroBits(hash, bits);
      if found {
        return Some(HashcashStamp(bits, challenge, nonceHex, hash));
      }
      nonce := nonce + 1;
    }
    r := None;
  }

  /** What a verifier demands at `now`. */
  ghost predicate Accepts(f: Hashing, s: HashcashStamp, peerId: string, scope: string, bits: int, windowMs: int, now: int)
    requires windowMs > 0
  {
    var window := WindowIndex(now, windowMs);
    && s.bits >= bits
    && f.sha(s.challenge + s.nonce) == s.hash
    && IsHex(s.hash)
    && Meets(s.hash, bits)
    && (s.challenge == Challenge(f, peerId, scope, window) || s.challenge == Challenge(f, peerId, scope, window - 1))
  }

  method VerifyStamp(f: Hashing, s: HashcashStamp, peerId: string, scope: string, bits: int, windowMs: int, now: int) returns (ok: bool)
    requires IsHashing(f) && windowMs > 0
    ensures ok <==> Accepts(f, s, peerId, scope, bits, windowMs, now)
  {
    hide Meets;
    if s.bits < bits {
      return false;
    }
    if f.sha(s.challenge + s.nonce) != s.hash {
      return false;
    }
    var hard := HasLeadingZeroBits(s.hash, bits);
    if !hard {
      return false;
    }
    var idx := WindowIndex(now, windowMs);
    ok := s.challenge == Challenge(f, peerId, scope, idx) || s.challenge == Challenge(f, peerId, scope, idx - 1);
  }

  /** Whose a stamp is, and the window in which its mining began. */
  datatype Origin = Origin(peerId: string, window: int)

  predicate Collides(f: Hashing, a: string, b: string) {
    a != b && f.sha(a) == f.sha(b)
  }

  /** SHA-256 shows no collision between the text of a stamp's challenge and the two that a verifier hashes in `window`. */
  predicate NoCollisionIn(f: Hashing, scope: string, o: Origin, peerId: string, scope': string, window: int) {
    var text := ChallengeText(f, o.peerId, scope, o.window);
    !Collides(f, text, ChallengeText(f, peerId, scope', window)) && !Collides(f, text, ChallengeText(f, peerId, scope', window - 1))
  }

  predicate NoCollision(f: Hashing, scope: string, o: Origin, peerId: string, window: int) {
    NoCollisionIn(f, scope, o, peerId, scope, window)
  }

  /**
   * An honest stamp passes at any difficulty up to its own during the window it was mined in and the next, for the
   * peer and the scope it was mined for, as far as the two joined by a colon tell them, and never else.
   */
  lemma AcceptedInScopeIff(f: Hashing, s: HashcashStamp, o: Origin, scope: string, bits: int,
                           peerId: string, scope': string, required: int, windowMs: int, now: int)
    requires IsHashing(f) && windowMs > 0 && required <= bits && MinedFor(f, s, o.peerId, scope, bits, o.window)
    requires NoCollisionIn(f, scope, o, peerId, scope', now / windowMs)
    ensures Accepts(f, s, peerId, scope', required, windowMs, now) <==>
      peerId + ":" + scope' == o.peerId + ":" + scope && 0 <= now / windowMs - o.window <= 1
  {
    var window := now / windowMs;
    MeetsLess(s.hash, bits, required);
    ChallengeTextIff(f, o.peerId, scope, o.window, peerId, scope', window);
    ChallengeTextIff(f, o.peerId, scope, o.window, peerId, scope', window - 1);
    hide Meets, ChallengeText, IsHashing;
  }

  /**
   * An honest stamp passes at any difficulty up to its own during the window it was mined in and the next,
   * for its own peer, and never else.
   */
  lemma AcceptedIff(f: Hashing, s: HashcashStamp, o: Origin, scope: string, bits: int,
                    peerId: string, required: int, windowMs: int, now: int)
    requires IsHashing(f) && windowMs > 0 && required <= bits && MinedFor(f, s, o.peerId, scope, bits, o.window)
    requires NoCollision(f, scope, o, peerId, WindowIndex(now, windowMs))
    ensures Accepts(f, s, peerId, scope, required, windowMs, now) <==>
      peerId == o.peerId && 0 <= WindowIndex(now, windowMs) - o.window <= 1
  {
    hide Accepts, MinedFor, NoCollisionIn, IsHashing;
    AcceptedInScopeIff(f, s, o, scope, bits, peerId, scope, required, windowMs, now);
    PeerAndScopeIff(peerId, scope, o.peerId, scope);
  }

  /** Such functions exist. */
  lemma HashingExists() returns (f: Hashing)
    ensures IsHashing(f)
  {
    f := Hashing(_ => Zeros(64), n => Strokes(n), n => Strokes(n));
    forall m, n | Strokes(m) == Strokes(n) ensures m == n {
      assert (m < 0 <==> Strokes(m) != [] && Strokes(m)[0] == '-') && (n < 0 <==> Strokes(n) != [] && Strokes(n)[0] == '-');
    }
  }

  function Zeros(n: nat): string {
    seq(n, _ => '0')
  }

  /** A numeral of as many strokes as the number says. */
  function Strokes(n: int): string {
    if n < 0 then "-" + seq(-n, _ => '1') else seq(n, _ => '1')
  }

  // ----- the cache -----

  /** Scope, bits and window length: the original joins them with colons, the last two being numbers. */
  type CacheKey = (string, int, int)

  datatype StampCacheEntry = StampCacheEntry(stamp: HashcashStamp, windowIndex: int, bits: int, windowMs: int, minedAt: int, mineTimeMs: int)

  ghost predicate Genuine(f: Hashing, key: CacheKey, e: StampCacheEntry, o: Origin) {
    && MinedFor(f, e.stamp, o.peerId, key.0, key.1, o.window)
    && o.window <= e.windowIndex
    && key.2 > 0
  }

  class StampCache {
    const hashing: Hashing
    var cache: map<CacheKey, StampCacheEntry>
    ghost var origins: map<CacheKey, Origin>

    ghost predicate Valid()
      reads this
    {
      && IsHashing(hashing)
      && cache.Keys == origins.Keys
      && forall key :: key in cache ==> Genuine(hashing, key, cache[key], origins[key])
    }

    /** The cache serves one peer, as in a daemon. */
    ghost predicate ServesOnly(peerId: string)
      reads this
    {
      forall key :: key in origins ==> origins[key].peerId == peerId
    }

    constructor (hashing: Hashing)
      requires IsHashing(hashing)
      ensures Valid() && cache == map[] && this.hashing == hashing && forall p :: ServesOnly(p)
    {
      this.hashing := hashing;
      cache, origins := map[], map[];
    }

    method Get(scope: string, bits: int, windowMs: int, now: int) returns (r: Option<StampCacheEntry>)
      requires Valid() && windowMs > 0
      ensures
        var key := (scope, bits, windowMs);
        r == if key in cache && cache[key].windowIndex == WindowIndex(now, windowMs) then Some(cache[key]) else None
    {
      var key := (scope, bits, windowMs);
      if key !in cache {
        return None;
      }
      var entry := cache[key];
      if entry.windowIndex != WindowIndex(now, windowMs) {
        return None;
      }
      r := Some(entry);
    }

    method Set(scope: string, bits: int, windowMs: int, stamp: HashcashStamp, mineTimeMs: int, now: int, ghost o: Origin)
      requires Valid() && windowMs > 0
      requires MinedFor(hashing, stamp, o.peerId, scope, bits, o.window) && o.window <= WindowIndex(now, windowMs)
      modifies this
      ensures Valid()
      ensures
        var key, entry := (scope, bits, windowMs), StampCacheEntry(stamp, WindowIndex(now, windowMs), bits, windowMs, now, mineTimeMs);
        cache == old(cache)[key := entry] && origins == old(origins)[key := o]
    {
      hide MinedFor;
      var key := (scope, bits, windowMs);
      var entry := StampCacheEntry(stamp, WindowIndex(now, windowMs), bits, windowMs, now, mineTimeMs);
      assert Genuine(hashing, key, entry, o);
      hide Genuine;
      cache := cache[key := entry];
      origins := origins[key := o];
    }

    /**
     * A stamp from the cache or freshly mined, mining starting at `start` and ending at `end`. Asked for its own
     * peer the stamp is good for the rest of the window it is returned in, at any difficulty up to `bits`, exactly
     * when at most one window boundary was crossed while it was mined. The key has no peer in it: a hit returns
     * whosever stamp is there, and for another peer that stamp is never good.
     */
    method GetOrMine(peerId: string, scope: string, bits: int, windowMs: int, start: int, end: int, fuel: nat)
      returns (r: Option<HashcashStamp>, ghost window: int, ghost origin: Origin)
      requires Valid() && windowMs > 0 && start <= end
      modifies this
      ensures Valid() && (old(ServesOnly(peerId)) ==> ServesOnly(peerId) && origin.peerId == peerId)
      ensures
        var key, w := (scope, bits, windowMs), WindowIndex(start, windowMs);
        if key in old(cache) && old(cache)[key].windowIndex == w
        then r == Some(old(cache)[key].stamp) && window == w && origin == old(origins)[key] && cache == old(cache) && origins == old(origins)
        else window == WindowIndex(end, windowMs) && origin == Origin(peerId, w)
             && (r.None? ==> cache == old(cache) && origins == old(origins))
             && (r.Some? ==> origins == old(origins)[key := origin] && cache == old(cache)[key := cache[key]]
                             && cache[key].stamp == r.value && cache[key].windowIndex == window)
      ensures r.Some? ==> origin.window <= window && MinedFor(hashing, r.value, origin.peerId, scope, bits, origin.window)
      ensures r.Some? && origin.peerId == peerId && window - origin.window <= 1 ==>
                forall required, t :: required <= bits && WindowIndex(t, windowMs) == window ==>
                                        Accepts(hashing, r.value, peerId, scope, required, windowMs, t)
      ensures r.Some? && (origin.peerId != peerId || window - origin.window > 1) && NoCollision(hashing, scope, origin, peerId, window) ==>
                forall required, t :: WindowIndex(t, windowMs) == window ==>
                                        !Accepts(hashing, r.value, peerId, scope, required, windowMs, t)
    {
      hide Meets, Accepts, MinedFor, NoCollision;
      var cached := Get(scope, bits, windowMs, start);
      if cached.Some? {
        window, origin := WindowIndex(start, windowMs), origins[(scope, bits, windowMs)];
        GoodWhileClose(hashing, cached.value.stamp, origin, peerId, scope, bits, windowMs, window);
        return Some(cached.value.stamp), window, origin;
      }
      window, origin := WindowIndex(end, windowMs), Origin(peerId, WindowIndex(start, windowMs));
      r := MineStamp(hashing, peerId, scope, bits, windowMs, start, fuel);
      if r.Some? {
        QuotientsAscend(start, end, windowMs);
        Set(scope, bits, windowMs, r.value, end - start, end, origin);
        GoodWhileClose(hashing, r.value, origin, peerId, scope, bits, windowMs, window);
      }
    }

    method Clear()
      requires Valid()
      modifies this
      ensures Valid() && cache == map[]
    {
      cache, origins := map[], map[];
    }
  }

  lemma GoodWhileClose(f: Hashing, s: HashcashStamp, o: Origin, peerId: string, scope: string, bits: int, windowMs: int, window: int)
    requires IsHashing(f) && windowMs > 0 && o.window <= window && MinedFor(f, s, o.peerId, scope, bits, o.window)
    ensures o.peerId == peerId && window - o.window <= 1 ==>
              forall required, t :: required <= bits && WindowIndex(t, windowMs) == window ==>
                                      Accepts(f, s, peerId, scope, required, windowMs, t)
    ensures (o.peerId != peerId || window - o.window > 1) && NoCollision(f, scope, o, peerId, window) ==>
              forall required, t :: WindowIndex(t, windowMs) == window ==>
                                      !Accepts(f, s, peerId, scope, required, windowMs, t)
  {
    forall required | required <= bits ensures Meets(s.hash, required) {
      MeetsLess(s.hash, bits, required);
    }
    ChallengeTextIff(f, o.peerId, scope, o.window, peerId, scope, window);
    ChallengeTextIff(f, o.peerId, scope, o.window, peerId, scope, window - 1);
    PeerAndScopeIff(peerId, scope, o.peerId, scope);
    hide Meets, ChallengeText, IsHashing;
  }

  /**
   * Two peers behind one cache: once the first has got a stamp, the second is given that same stamp exactly when it
   * asks for the same scope, bits and window length in the window the entry was stored in, and then it is no good to it.
   */
  method TwoPeers(cache: StampCache, first: string, second: string, key: CacheKey, key': CacheKey,
                  start: int, end: int, later: int, laterEnd: int, fuel: nat)
    returns (a: Option<HashcashStamp>, b: Option<HashcashStamp>, ghost window: int, ghost origin: Origin)
    requires cache.Valid() && cache.cache == map[] && cache.origins == map[]
    requires first != second && key.2 > 0 && key'.2 > 0 && start <= end && later <= laterEnd
    modifies cache
    ensures a.Some? ==> (origin.peerId == first <==> key' == key && WindowIndex(later, key'.2) == window)
    ensures a.Some? && key' == key && WindowIndex(later, key'.2) == window ==>
              && b == a
              && (NoCollision(cache.hashing, key.0, origin, second, window) ==>
                    forall required, t :: WindowIndex(t, key.2) == window ==>
                                            !Accepts(cache.hashing, b.value, second, key.0, required, key.2, t))
  {
    hide Accepts, NoCollision, MinedFor;
    ghost var o;
    a, window, o := cache.GetOrMine(first, key.0, key.1, key.2, start, end, fuel);
    ghost var w;
    b, w, origin := cache.GetOrMine(second, key'.0, key'.1, key'.2, later, laterEnd, fuel);
  }
}
