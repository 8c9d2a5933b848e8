/** Manifests: built from the stores with two Bloom filters, gossiped, indexed by peers, and asked about. */
module Discovery {
  import opened Chunks
  import opened Bloom
  import Pow

  const MANIFEST_POW_BITS := 16
  const MANIFEST_POW_WINDOW_MS := 3_600_000

  /** Bytes to text and back. */
  datatype Base64 = Base64(encode: seq<bv8> -> string, decode: string -> seq<bv8>)

  ghost predicate IsBase64(c: Base64) {
    forall b :: c.decode(c.encode(b)) == b
  }

  datatype DiscoveryManifest = DiscoveryManifest(
    peerId: string,
    collections: seq<string>,
    topicBloom: string,
    contentBloom: string,
    chunkCount: nat,
    updatedAt: int,
    pow: Option<Pow.HashcashStamp>)

  datatype PeerIndexEntry = PeerIndexEntry(
    peerId: string,
    collections: seq<string>,
    topicBloom: BloomFilter,
    contentBloom: BloomFilter,
    chunkCount: nat,
    updatedAt: int,
    lastSeen: int)

  // ----- what a manifest is about -----

  /** The live chunks of a list, in order. */
  function Live(cs: seq<Chunk>): seq<Chunk> {
    if cs == [] then [] else Live(cs[..|cs| - 1]) + if cs[|cs| - 1].tombstone then [] else [cs[|cs| - 1]]
  }

  /** The live chunks of all stores; a store that cannot be listed counts as empty. */
  function Held(stores: seq<Option<seq<Chunk>>>): seq<Chunk> {
    if stores == [] then []
    else Held(stores[..|stores| - 1]) + if stores[|stores| - 1].Some? then Live(stores[|stores| - 1].value) else []
  }

  function IdsOf(cs: seq<Chunk>): seq<string> {
    if cs == [] then [] else IdsOf(cs[..|cs| - 1]) + [cs[|cs| - 1].id]
  }

  function TopicsOf(cs: seq<Chunk>): seq<string> {
    if cs == [] then [] else TopicsOf(cs[..|cs| - 1]) + cs[|cs| - 1].topic
  }

  function AddNew(s: seq<string>, x: string): seq<string> {
    if x in s then s else s + [x]
  }

  function CollectionsOf(cs: seq<Chunk>): seq<string> {
    if cs == [] then []
    else
      var earlier, c := CollectionsOf(cs[..|cs| - 1]), cs[|cs| - 1].collection;
      if Truthy(c) then AddNew(earlier, c.value) else earlier
  }

  /** The collections named by the chunks, each once. */
  lemma {:induction false} CollectionsAre(cs: seq<Chunk>)
    ensures forall x :: x in CollectionsOf(cs) <==> x != "" && exists c :: c in cs && c.collection == Some(x)
    ensures NoRepeats(CollectionsOf(cs))
  {
    if cs != [] {
      CollectionsAre(cs[..|cs| - 1]);
      assert cs == cs[..|cs| - 1] + [cs[|cs| - 1]];
    }
  }

  /** The manifest says of these chunks how many there are, in which collections, and which ids and topics they have. */
  ghost predicate Describes(c: Base64, m: DiscoveryManifest, cs: seq<Chunk>) {
    && Represents(c.decode(m.topicBloom), TopicsOf(cs))
    && Represents(c.decode(m.contentBloom), IdsOf(cs))
    && m.collections == CollectionsOf(cs)
    && m.chunkCount == |cs|
  }

  lemma {:induction false} LiveMembers(cs: seq<Chunk>)
    ensures forall c :: c in Live(cs) <==> c in cs && !c.tombstone
  {
    if cs != [] {
      LiveMembers(cs[..|cs| - 1]);
      assert cs == cs[..|cs| - 1] + [cs[|cs| - 1]];
    }
  }

  lemma {:induction false} HeldMembers(stores: seq<Option<seq<Chunk>>>)
    ensures forall c :: c in Held(stores) <==> !c.tombstone && exists i :: 0 <= i < |stores| && stores[i].Some? && c in stores[i].value
  {
    if stores != [] {
      var init, last := stores[..|stores| - 1], stores[|stores| - 1];
      HeldMembers(init);
      if last.Some? {
        LiveMembers(last.value);
      }
      assert forall i :: 0 <= i < |init| ==> init[i] == stores[i];
    }
  }

  lemma {:induction false} IdsMembers(cs: seq<Chunk>, c: Chunk)
    requires c in cs
    ensures c.id in IdsOf(cs)
    ensures forall t :: t in c.topic ==> t in TopicsOf(cs)
  {
    var init, last := cs[..|cs| - 1], cs[|cs| - 1];
    assert cs == init + [last];
    if c in init {
      IdsMembers(init, c);
    }
  }

  /** What the two filters and the counters say of these chunks while a manifest is being built. */
  ghost predicate Covers(topics: seq<bv8>, ids: seq<bv8>, collections: seq<string>, chunkCount: nat, cs: seq<Chunk>) {
    && Represents(topics, TopicsOf(cs))
    && Represents(ids, IdsOf(cs))
    && collections == CollectionsOf(cs)
    && chunkCount == |cs|
  }

  lemma CoversOneMore(topics: seq<bv8>, ids: seq<bv8>, collections: seq<string>, chunkCount: nat, cs: seq<Chunk>, c: Chunk)
    requires Represents(topics, TopicsOf(cs) + c.topic) && Represents(ids, IdsOf(cs) + [c.id])
    requires collections == (if Truthy(c.collection) then AddNew(CollectionsOf(cs), c.collection.value) else CollectionsOf(cs))
    requires chunkCount == |cs| + 1
    ensures Covers(topics, ids, collections, chunkCount, cs + [c])
  {
    hide Represents;
    assert (cs + [c])[..|cs|] == cs;
  }

  // ----- building -----

  method AddTopics(bloom: BloomFilter, topics: seq<string>, ghost items: seq<string>)
    requires Represents(bloom.bits[..], items)
    modifies bloom.bits
    ensures Represents(bloom.bits[..], items + topics)
  {
    hide Represents, Positions, BitSet;
    RepresentsLength(bloom.bits[..], items);
    assert items + topics[..0] == items;
    for i := 0 to |topics|
      invariant Represents(bloom.bits[..], items + topics[..i])
    {
      ghost var was := bloom.bits[..];
      bloom.Add(topics[i]);
      RepresentsOneMore(was, items + topics[..i], bloom.bits[..], topics[i]);
      assert items + topics[..i] + [topics[i]] == items + topics[..i + 1];
    }
    assert topics[..|topics|] == topics;
  }

  /** One store's list: tombstones are skipped. */
  method AddChunks(topicBloom: BloomFilter, contentBloom: BloomFilter, chunks: seq<Chunk>,
                   collections: seq<string>, chunkCount: nat, ghost before: seq<Chunk>)
    returns (collections': seq<string>, chunkCount': nat)
    requires topicBloom.bits != contentBloom.bits
    requires Covers(topicBloom.bits[..], contentBloom.bits[..], collections, chunkCount, before)
    modifies topicBloom.bits, contentBloom.bits
    ensures Covers(topicBloom.bits[..], contentBloom.bits[..], collections', chunkCount', before + Live(chunks))
  {
    hide Represents, Positions, BitSet, TopicsOf, IdsOf, CollectionsOf;
    collections', chunkCount' := collections, chunkCount;
    assert before + Live(chunks[..0]) == before;
    for i := 0 to |chunks|
      invariant Covers(topicBloom.bits[..], contentBloom.bits[..], collections', chunkCount', before + Live(chunks[..i]))
    {
      var chunk := chunks[i];
      ghost var cs := before + Live(chunks[..i]);
      assert chunks[..i + 1][..i] == chunks[..i];
      if chunk.tombstone {
        assert Live(chunks[..i + 1]) == Live(chunks[..i]);
        continue;
      }
      assert before + Live(chunks[..i + 1]) == cs + [chunk];
      chunkCount' := chunkCount' + 1;
      ghost var was := contentBloom.bits[..];
      RepresentsLength(was, IdsOf(cs));
      contentBloom.Add(chunk.id);
      RepresentsOneMore(was, IdsOf(cs), contentBloom.bits[..], chunk.id);
      AddTopics(topicBloom, chunk.topic, TopicsOf(cs));
      if Truthy(chunk.collection) {
        collections' := AddNew(collections', chunk.collection.value);
      }
      CoversOneMore(topicBloom.bits[..], contentBloom.bits[..], collections', chunkCount', cs, chunk);
    }
    assert chunks[..|chunks|] == chunks;
  }

  lemma RepresentsLength(bytes: seq<bv8>, items: seq<string>)
    requires Represents(bytes, items)
    ensures |bytes| == BLOOM_BYTES
  {
  }

  /** Both filters over all stores. */
  method Summarise(stores: seq<Option<seq<Chunk>>>)
    returns (topicBloom: BloomFilter, contentBloom: BloomFilter, collections: seq<string>, chunkCount: nat)
    ensures Covers(topicBloom.bits[..], contentBloom.bits[..], collections, chunkCount, Held(stores))
  {
    hide Represents, Live, TopicsOf, IdsOf, CollectionsOf;
    topicBloom := new BloomFilter();
    contentBloom := new BloomFilter();
    collections, chunkCount := [], 0;
    CoversNothing(topicBloom.bits[..], contentBloom.bits[..]);
    for i := 0 to |stores|
      invariant fresh(topicBloom.bits) && fresh(contentBloom.bits) && topicBloom.bits != contentBloom.bits
      invariant Covers(topicBloom.bits[..], contentBloom.bits[..], collections, chunkCount, Held(stores[..i]))
    {
      assert stores[..i + 1][..i] == stores[..i];
      var chunks := if stores[i].Some? then stores[i].value else [];
      collections, chunkCount := AddChunks(topicBloom, contentBloom, chunks, collections, chunkCount, Held(stores[..i]));
      LiveNothing();
      assert Held(stores[..i + 1]) == Held(stores[..i]) + Live(chunks);
    }
    assert stores[..|stores|] == stores;
  }

  lemma LiveNothing()
    ensures Live([]) == []
  {
  }

  lemma CoversNothing(topics: seq<bv8>, ids: seq<bv8>)
    requires Represents(topics, []) && Represents(ids, [])
    ensures Covers(topics, ids, [], 0, [])
  {
  }

  // ----- indexing -----

  /** What a remote peer that requires proof of work demands of a manifest: fixed bits and window, whatever the sender mined. */
  ghost predicate Admissible(f: Pow.Hashing, m: DiscoveryManifest, now: int) {
    m.pow.Some? && Pow.Accepts(f, m.pow.value, m.peerId, m.peerId, MANIFEST_POW_BITS, MANIFEST_POW_WINDOW_MS, now)
  }

  /** The entry's filters are those of chunks the peer held. */
  ghost predicate Tells(e: PeerIndexEntry, cs: seq<Chunk>)
    reads e.topicBloom.bits, e.contentBloom.bits
  {
    Represents(e.topicBloom.bits[..], TopicsOf(cs)) && Represents(e.contentBloom.bits[..], IdsOf(cs))
  }

  lemma DescribedTells(b: Base64, m: DiscoveryManifest, e: PeerIndexEntry, cs: seq<Chunk>)
    requires IsBase64(b) && Describes(b, m, cs)
    requires e.topicBloom.bits[..] == b.decode(m.topicBloom) && e.contentBloom.bits[..] == b.decode(m.contentBloom)
    ensures Tells(e, cs)
  {
    hide Represents, TopicsOf, IdsOf, CollectionsOf;
  }

  class DiscoveryManager {
    const localPeerId: string
    const requirePoW: bool
    const stampCache: Pow.StampCache?
    const powBits: int
    const powWindowMs: int
    const base64: Base64
    const hashing: Pow.Hashing
    var peerIndex: map<string, PeerIndexEntry>

    /** For peers whose indexed manifest was honest: what they held when it was built. */
    ghost var holdings: map<string, seq<Chunk>>

    ghost function Filters(): set<object>
      reads this`peerIndex
    {
      (set p | p in peerIndex :: peerIndex[p].topicBloom.bits) + set p | p in peerIndex :: peerIndex[p].contentBloom.bits
    }

    ghost predicate Valid()
      reads this, Filters()
    {
      && IsBase64(base64)
      && Pow.IsHashing(hashing)
      && powWindowMs > 0
      && (stampCache != null ==> stampCache.hashing == hashing)
      && forall p :: p in holdings ==> p in peerIndex && Tells(peerIndex[p], holdings[p])
    }

    constructor (localPeerId: string, requirePoW: bool, stampCache: Pow.StampCache?, powBits: int, powWindowMs: int,
                 base64: Base64, hashing: Pow.Hashing)
      requires IsBase64(base64) && Pow.IsHashing(hashing) && powWindowMs > 0
      requires stampCache != null ==> stampCache.hashing == hashing
      ensures Valid() && peerIndex == map[] && holdings == map[]
    {
      this.localPeerId, this.requirePoW, this.stampCache := localPeerId, requirePoW, stampCache;
      this.powBits, this.powWindowMs, this.base64, this.hashing := powBits, powWindowMs, base64, hashing;
      peerIndex, holdings := map[], map[];
    }

    /**
     * The manifest describes exactly the live chunks of the stores that could be listed. With a stamp cache it
     * carries a stamp of this peer; None means that mining gave up.
     */
    method BuildManifest(stores: seq<Option<seq<Chunk>>>, start: int, end: int, fuel: nat)
      returns (m: Option<DiscoveryManifest>, ghost minedIn: int)
      requires Valid() && start <= end
      requires stampCache != null ==> stampCache.Valid() && stampCache.ServesOnly(localPeerId)
      modifies if stampCache == null then {} else {stampCache}
      ensures Valid() && (stampCache != null ==> stampCache.Valid() && stampCache.ServesOnly(localPeerId))
      ensures m.Some? ==> m.value.peerId == localPeerId && Describes(base64, m.value, Held(stores))
      ensures m.Some? ==> m.value.chunkCount == |Held(stores)| && m.value.updatedAt == start
      ensures m.Some? ==> forall x :: x in m.value.collections <==> x != "" && exists c :: c in Held(stores) && c.collection == Some(x)
      ensures stampCache == null ==> m.Some? && m.value.pow.None?
      ensures stampCache != null && m.Some? ==>
                m.value.pow.Some? && Pow.MinedFor(hashing, m.value.pow.value, localPeerId, localPeerId, powBits, minedIn)
    {
      hide Represents, Held, Pow.Accepts, Pow.MinedFor, Pow.NoCollision;
      var topicBloom, contentBloom, collections, chunkCount := Summarise(stores);
      var manifest := DiscoveryManifest(localPeerId, collections, base64.encode(topicBloom.bits[..]),
                                        base64.encode(contentBloom.bits[..]), chunkCount, start, None);
      CollectionsAre(Held(stores));
      minedIn := 0;
      if stampCache == null {
        return Some(manifest), minedIn;
      }
      ghost var window, origin;
      var stamp;
      stamp, window, origin := stampCache.GetOrMine(localPeerId, localPeerId, powBits, powWindowMs, start, end, fuel);
      minedIn := origin.window;
      if stamp.None? {
        return None, minedIn;
      }
      m := Some(manifest.(pow := stamp));
    }

    /**
     * Indexing replaces what was known of the sender, unless it is another peer without an acceptable stamp where
     * one is required. `held` is what an honest sender held, None for a manifest one knows nothing about.
     */
    method ProcessManifestLocal(m: DiscoveryManifest, now: int, ghost held: Option<seq<Chunk>>) returns (indexed: bool)
      requires Valid() && (held.Some? ==> Describes(base64, m, held.value))
      modifies this
      ensures Valid()
      ensures indexed <==> m.peerId == localPeerId || !requirePoW || Admissible(hashing, m, now)
      ensures !indexed ==> peerIndex == old(peerIndex) && holdings == old(holdings)
      ensures indexed ==>
                && m.peerId in peerIndex
                && var e := peerIndex[m.peerId];
                && peerIndex == old(peerIndex)[m.peerId := e]
                && fresh(e.topicBloom.bits) && e.topicBloom.bits[..] == base64.decode(m.topicBloom)
                && fresh(e.contentBloom.bits) && e.contentBloom.bits[..] == base64.decode(m.contentBloom)
                && (e.peerId, e.collections, e.chunkCount, e.updatedAt, e.lastSeen) == (m.peerId, m.collections, m.chunkCount, m.updatedAt, now)
                && holdings == if held.Some? then old(holdings)[m.peerId := held.value] else old(holdings) - {m.peerId}
    {
      hide Represents, TopicsOf, IdsOf, CollectionsOf, Pow.Accepts, Pow.Meets, Describes;
      ghost var was, had := peerIndex, holdings;
      var isSelf := m.peerId == localPeerId;
      if !isSelf && requirePoW && m.pow.Some? {
        var ok := Pow.VerifyStamp(hashing, m.pow.value, m.peerId, m.peerId, MANIFEST_POW_BITS, MANIFEST_POW_WINDOW_MS, now);
        if !ok {
          return false;
        }
      } else if !isSelf && requirePoW && m.pow.None? {
        return false;
      }
      var topicBloom := new BloomFilter.FromBuffer(base64.decode(m.topicBloom));
      var contentBloom := new BloomFilter.FromBuffer(base64.decode(m.contentBloom));
      var entry := PeerIndexEntry(m.peerId, m.collections, topicBloom, contentBloom, m.chunkCount, m.updatedAt, now);
      peerIndex := peerIndex[m.peerId := entry];
      holdings := if held.Some? then holdings[m.peerId := held.value] else holdings - {m.peerId};
      indexed := true;
      forall p | p in holdings ensures p in peerIndex && Tells(peerIndex[p], holdings[p]) {
        hide Tells;
        if p != m.peerId {
          assert p in was && peerIndex[p] == was[p] && holdings[p] == had[p];
          assert old(Tells(was[p], had[p]));
        } else {
          DescribedTells(base64, m, entry, held.value);
        }
      }
      hide Tells;
    }

    /** A manifest from the network: one's own is not indexed again. */
    method ProcessManifest(m: DiscoveryManifest, now: int, ghost held: Option<seq<Chunk>>) returns (indexed: bool)
      requires Valid() && (held.Some? ==> Describes(base64, m, held.value))
      modifies this
      ensures Valid()
      ensures indexed <==> m.peerId != localPeerId && (!requirePoW || Admissible(hashing, m, now))
      ensures !indexed ==> peerIndex == old(peerIndex) && holdings == old(holdings)
      ensures indexed ==> holdings == if held.Some? then old(holdings)[m.peerId := held.value] else old(holdings) - {m.peerId}
    {
      if m.peerId == localPeerId {
        return false;
      }
      indexed := ProcessManifestLocal(m, now, held);
    }

    /** Some(false) is a definite no; it is never said of a topic the peer held when its manifest was built. */
    method PeerHasTopic(peerId: string, topic: string) returns (r: Option<bool>)
      requires Valid()
      ensures r.None? <==> peerId !in peerIndex
      ensures peerId in peerIndex ==> r == Some(Contains(peerIndex[peerId].topicBloom.bits[..], topic))
      ensures peerId in holdings && (exists c :: c in holdings[peerId] && topic in c.topic) ==> r == Some(true)
    {
      hide Represents, Contains;
      if peerId !in peerIndex {
        return None;
      }
      NothingDenied(peerIndex[peerId], if peerId in holdings then holdings[peerId] else []);
      var found := peerIndex[peerId].topicBloom.Has(topic);
      r := Some(found);
    }

    method PeerProbablyHasTopic(peerId: string, topic: string) returns (r: bool)
      requires Valid()
      ensures r <==> peerId in peerIndex && Contains(peerIndex[peerId].topicBloom.bits[..], topic)
      ensures peerId in holdings && (exists c :: c in holdings[peerId] && topic in c.topic) ==> r
    {
      var known := PeerHasTopic(peerId, topic);
      r := known == Some(true);
    }

    method PeerProbablyHasChunk(peerId: string, chunkId: string) returns (r: bool)
      requires Valid()
      ensures r <==> peerId in peerIndex && Contains(peerIndex[peerId].contentBloom.bits[..], chunkId)
      ensures peerId in holdings && (exists c :: c in holdings[peerId] && c.id == chunkId) ==> r
    {
      hide Represents, Contains;
      if peerId !in peerIndex {
        return false;
      }
      NothingDenied(peerIndex[peerId], if peerId in holdings then holdings[peerId] else []);
      r := peerIndex[peerId].contentBloom.Has(chunkId);
    }
  }

  /** Every topic and id of the chunks a filter pair tells of gets a yes. */
  lemma NothingDenied(e: PeerIndexEntry, cs: seq<Chunk>)
    ensures Tells(e, cs) ==> forall c :: c in cs ==>
                                            && Contains(e.contentBloom.bits[..], c.id)
                                            && forall t :: t in c.topic ==> Contains(e.topicBloom.bits[..], t)
  {
    hide Represents, Contains;
    if Tells(e, cs) {
      forall c | c in cs
        ensures Contains(e.contentBloom.bits[..], c.id)
        ensures forall t :: t in c.topic ==> Contains(e.topicBloom.bits[..], t)
      {
        IdsMembers(cs, c);
        NoFalseNegative(e.contentBloom.bits[..], IdsOf(cs), c.id);
        forall t | t in c.topic ensures Contains(e.topicBloom.bits[..], t) {
          NoFalseNegative(e.topicBloom.bits[..], TopicsOf(cs), t);
        }
      }
    }
  }

  /**
   * A stamped manifest passes at a peer that requires stamps exactly when it was mined for at least 16 bits and its
   * window number is the verifier's current or previous hour, also if the sender counts windows of another length.
   */
  lemma StampedManifestAdmissibleIff(f: Pow.Hashing, m: DiscoveryManifest, bits: int, minedIn: int, now: int)
    requires Pow.IsHashing(f) && m.pow.Some? && Pow.MinedFor(f, m.pow.value, m.peerId, m.peerId, bits, minedIn)
    requires Pow.NoCollision(f, m.peerId, Pow.Origin(m.peerId, minedIn), m.peerId, now / 3_600_000)
    ensures Admissible(f, m, now) <==> bits >= 16 && 0 <= now / 3_600_000 - minedIn <= 1
  {
    if bits >= 16 {
      Pow.AcceptedIff(f, m.pow.value, Pow.Origin(m.peerId, minedIn), m.peerId, bits, m.peerId, MANIFEST_POW_BITS, MANIFEST_POW_WINDOW_MS, now);
    }
  }
}
