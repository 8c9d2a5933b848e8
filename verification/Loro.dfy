/**
 * The CRDT document behind a store, as far as this project relies on it: a growing set of map writes,
 * each with a Lamport clock and the peer that made it. Merging is union; a key reads its latest write.
 */
module Loro {
  import opened Chunks

  datatype Op = Op(clock: nat, peer: nat, chunk: Chunk)

  /** A document, an exported update and a version marker all have this shape. */
  datatype Doc = Doc(ops: set<Op>, clock: nat)

  const EMPTY := Doc({}, 0)

  predicate Before(a: Op, b: Op) {
    a.clock < b.clock || (a.clock == b.clock && a.peer <= b.peer)
  }

  predicate Latest(ops: set<Op>, o: Op) {
    o in ops && forall p :: p in ops && p.chunk.id == o.chunk.id ==> Before(p, o)
  }

  /** No two writes share clock and peer: a write is identified by them. */
  ghost predicate Coherent(ops: set<Op>) {
    forall a, b :: a in ops && b in ops && a.clock == b.clock && a.peer == b.peer ==> a == b
  }

  ghost predicate Wf(d: Doc) {
    forall o :: o in d.ops ==> o.clock < d.clock
  }

  function KeysOf(ops: set<Op>): set<string> {
    set o | o in ops :: o.chunk.id
  }

  lemma {:induction false} LatestExists(ops: set<Op>, k: string) returns (o: Op)
    requires k in KeysOf(ops)
    ensures Latest(ops, o) && o.chunk.id == k
    decreases |ops|
  {
    var p :| p in ops && p.chunk.id == k;
    var rest := ops - {p};
    if k in KeysOf(rest) {
      var q := LatestExists(rest, k);
      o := if Before(q, p) then p else q;
    } else {
      assert forall r :: r in rest ==> r.chunk.id in KeysOf(rest);
      o := p;
    }
    forall r | r in ops && r.chunk.id == k ensures Before(r, o) {
      assert r == p || r in rest;
      if k !in KeysOf(rest) { assert r !in rest; }
    }
  }

  lemma HasLatest(ops: set<Op>, k: string)
    requires k in KeysOf(ops)
    ensures exists o :: Latest(ops, o) && o.chunk.id == k
  {
    var o := LatestExists(ops, k);
  }

  lemma LatestUnique(ops: set<Op>, a: Op, b: Op)
    requires Coherent(ops) && Latest(ops, a) && Latest(ops, b) && a.chunk.id == b.chunk.id
    ensures a == b
  {
    assert Before(a, b) && Before(b, a);
  }

  /** The write a key shows. */
  ghost function Shown(ops: set<Op>, k: string): (o: Op)
    requires k in KeysOf(ops)
    ensures Latest(ops, o) && o.chunk.id == k
  {
    HasLatest(ops, k);
    var o :| Latest(ops, o) && o.chunk.id == k;
    o
  }

  /** The map a document denotes. */
  ghost function View(ops: set<Op>): (v: map<string, Chunk>)
    ensures v.Keys == KeysOf(ops)
  {
    map k | k in KeysOf(ops) :: Shown(ops, k).chunk
  }

  lemma ViewKeyed(ops: set<Op>)
    ensures forall k :: k in View(ops) ==> View(ops)[k].id == k
  {
  }

  /** A document seen as a store: a tombstone reads as nothing. */
  ghost function Get(ops: set<Op>, k: string): Option<Chunk> {
    if LiveAt(View(ops), k) then Some(View(ops)[k]) else None
  }

  /** The chunks a map of entries makes visible. */
  ghost function Live(v: map<string, Chunk>): set<Chunk> {
    set k | k in v && !v[k].tombstone :: v[k]
  }

  ghost predicate LiveAt(v: map<string, Chunk>, k: string) {
    k in v && !v[k].tombstone
  }

  function Write(d: Doc, peer: nat, c: Chunk): Doc {
    Doc(d.ops + {Op(d.clock, peer, c)}, d.clock + 1)
  }

  function Import(d: Doc, u: Doc): Doc {
    Doc(d.ops + u.ops, if u.clock > d.clock then u.clock else d.clock)
  }

  /** Everything in `d` that is not in the version `since`; with no version, everything. */
  function Export(d: Doc, since: Option<Doc>): Doc {
    Doc(if since.Some? then d.ops - since.value.ops else d.ops, d.clock)
  }

  function Tombstone(id: string, now: int): Chunk {
    Chunk(id, None, now, None, true, None, ["_tombstone"], "project", "project", None, "_system", None, None, 0.0, "")
  }

  /** Of two concurrent writes with one clock the higher peer's is read, whichever arrived first. */
  lemma HigherPeerWins(a: Op, b: Op)
    requires a.chunk.id == b.chunk.id && a.clock == b.clock && a.peer < b.peer
    ensures View({a, b}) == map[b.chunk.id := b.chunk]
  {
    ShownIs({a, b}, b);
    assert KeysOf({a, b}) == {b.chunk.id};
    hide Latest, Coherent, KeysOf, Before, Shown;
    assert View({a, b}).Keys == {b.chunk.id};
  }

  lemma ShownIs(ops: set<Op>, o: Op)
    requires Coherent(ops) && Latest(ops, o)
    ensures o.chunk.id in KeysOf(ops) && Shown(ops, o.chunk.id) == o
  {
    assert o.chunk.id in KeysOf(ops);
    LatestUnique(ops, o, Shown(ops, o.chunk.id));
  }

  lemma WriteKeepsWf(d: Doc, peer: nat, c: Chunk)
    requires Wf(d) && Coherent(d.ops)
    ensures Wf(Write(d, peer, c)) && Coherent(Write(d, peer, c).ops)
  {
  }

  lemma WriteKeys(d: Doc, peer: nat, c: Chunk)
    ensures KeysOf(Write(d, peer, c).ops) == KeysOf(d.ops) + {c.id}
  {
    var ops' := Write(d, peer, c).ops;
    assert Op(d.clock, peer, c) in ops';
    forall k ensures k in KeysOf(ops') <==> k in KeysOf(d.ops) || k == c.id {
      if o :| o in d.ops && o.chunk.id == k { assert o in ops'; }
    }
  }

  lemma WriteKeepsOthers(d: Doc, peer: nat, c: Chunk, o: Op)
    requires Latest(d.ops, o) && o.chunk.id != c.id
    ensures Latest(Write(d, peer, c).ops, o)
  {
  }

  lemma ShownAfterWrite(d: Doc, peer: nat, c: Chunk, k: string)
    requires Wf(d) && Coherent(d.ops) && k in KeysOf(d.ops) + {c.id}
    ensures k in KeysOf(Write(d, peer, c).ops)
    ensures Shown(Write(d, peer, c).ops, k) == if k == c.id then Op(d.clock, peer, c) else Shown(d.ops, k)
  {
    WriteKeepsWf(d, peer, c);
    WriteKeys(d, peer, c);
    if k == c.id {
      ShownIs(Write(d, peer, c).ops, Op(d.clock, peer, c));
    } else {
      WriteKeepsOthers(d, peer, c, Shown(d.ops, k));
      ShownIs(Write(d, peer, c).ops, Shown(d.ops, k));
    }
  }

  /** A write changes exactly its own key, whatever was there before. */
  lemma WriteUpdatesView(d: Doc, peer: nat, c: Chunk)
    requires Wf(d) && Coherent(d.ops)
    ensures View(Write(d, peer, c).ops) == View(d.ops)[c.id := c]
  {
    hide Shown, Wf, Coherent, Latest, KeysOf, Write;
    WriteKeys(d, peer, c);
    var v', v := View(Write(d, peer, c).ops), View(d.ops)[c.id := c];
    forall k | k in v' ensures v'[k] == v[k] {
      ShownAfterWrite(d, peer, c, k);
    }
  }

  /** A receiver that has what the sender already acknowledged is brought fully up to date by a delta. */
  lemma DeltaCompletes(sender: Doc, receiver: Doc, since: Option<Doc>)
    requires since.Some? ==> since.value.ops <= receiver.ops
    ensures sender.ops <= Import(receiver, Export(sender, since)).ops
  {
  }

  /** What a delta promises determines it. */
  lemma DeltaUnique(sender: Doc, since: Option<Doc>, delta: Doc)
    requires delta.clock == sender.clock && delta.ops <= sender.ops && (since.Some? ==> delta.ops !! since.value.ops)
    requires forall receiver: Doc :: since.None? || since.value.ops <= receiver.ops ==>
                                       Import(receiver, delta).ops == receiver.ops + sender.ops
    ensures delta == Export(sender, since)
  {
    var receiver := if since.Some? then since.value else EMPTY;
    assert Import(receiver, delta).ops == receiver.ops + sender.ops;
    assert forall o :: o in sender.ops && o !in receiver.ops ==> o in delta.ops;
  }

  /** Merging is commutative, associative and idempotent, so delivery order and repetition are harmless. */
  lemma MergeLaws(a: Doc, b: Doc, c: Doc)
    ensures Import(a, b) == Import(b, a)
    ensures Import(Import(a, b), c) == Import(a, Import(b, c))
    ensures Import(Import(a, b), b) == Import(a, b)
  {
    assert a.ops + b.ops + c.ops == a.ops + (b.ops + c.ops);
    assert a.ops + b.ops + b.ops == a.ops + b.ops;
    assert a.ops + b.ops == b.ops + a.ops;
  }

  /**
   * Deletion is stable: once a tombstone is later than every live write of its key,
   * the key reads as absent in every document that holds the tombstone.
   */
  lemma TombstoneWins(ops: set<Op>, t: Op)
    requires t in ops && t.chunk.tombstone
    requires forall p :: p in ops && p.chunk.id == t.chunk.id && !p.chunk.tombstone ==> p.clock < t.clock
    ensures Get(ops, t.chunk.id) == None
  {
    assert t.chunk.id in KeysOf(ops);
    assert Before(t, Shown(ops, t.chunk.id));
  }
}
