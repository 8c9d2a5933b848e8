/** A memory store over one CRDT document. */
module LoroStore {
  import opened Chunks
  import opened Loro
  import opened QueryApply

  /** The visible chunks in the order of their keys. */
  function Listing(v: map<string, Chunk>, keys: seq<string>): seq<Chunk> {
    if keys == [] then []
    else Listing(v, keys[..|keys| - 1]) + if keys[|keys| - 1] in v && !v[keys[|keys| - 1]].tombstone then [v[keys[|keys| - 1]]] else []
  }

  lemma {:induction false} ListingIs(v: map<string, Chunk>, keys: seq<string>)
    requires forall k :: k in v ==> v[k].id == k
    ensures forall c :: c in Listing(v, keys) <==> c.id in keys && LiveAt(v, c.id) && v[c.id] == c
    ensures NoRepeats(keys) ==> forall i, j :: 0 <= i < j < |Listing(v, keys)| ==> Listing(v, keys)[i].id != Listing(v, keys)[j].id
  {
    if keys != [] {
      ListingIs(v, keys[..|keys| - 1]);
      assert keys == keys[..|keys| - 1] + [keys[|keys| - 1]];
    }
  }

  lemma ListingLive(v: map<string, Chunk>, keys: seq<string>)
    requires (forall k :: k in v ==> v[k].id == k) && Elems(keys) == v.Keys
    ensures Elems(Listing(v, keys)) == Live(v)
  {
    ListingIs(v, keys);
    forall c ensures c in Listing(v, keys) <==> c in Live(v) {
      assert c.id in keys <==> c.id in Elems(keys);
    }
  }

  /** The elements of a set in some order. */
  method Arrange(s: set<string>) returns (r: seq<string>)
    ensures Elems(r) == s && NoRepeats(r)
  {
    var rest := s;
    r := [];
    while rest != {}
      invariant rest <= s && Elems(r) == s - rest
      invariant NoRepeats(r)
      decreases rest
    {
      var x :| x in rest;
      assert Elems(r + [x]) == Elems(r) + {x};
      r, rest := r + [x], rest - {x};
    }
  }

  class LoroMemoryStore {
    const peer: nat
    const persistent: bool
    var doc: Doc
    var savePending: bool

    /** The order in which the document yields its keys: some order, the same as long as the document is unchanged. */
    var keys: seq<string>

    /** The map the document denotes, kept beside it for the specifications of its users. */
    ghost var entries: map<string, Chunk>

    ghost predicate Valid()
      reads this
    {
      Wf(doc) && Coherent(doc.ops) && entries == View(doc.ops) && Elems(keys) == entries.Keys && NoRepeats(keys)
    }

    /** A store that starts from what its snapshot file holds: nothing, if there is no file. */
    constructor (peer: nat, persistent: bool, snapshot: Doc)
      requires Wf(snapshot) && Coherent(snapshot.ops)
      ensures Valid() && doc == snapshot && entries == View(snapshot.ops) && !savePending
      ensures this.peer == peer && this.persistent == persistent
    {
      this.peer, this.persistent := peer, persistent;
      doc, savePending := snapshot, false;
      entries := View(snapshot.ops);
      new;
      keys := Arrange(KeysOf(snapshot.ops));
    }

    method Put(chunk: Chunk)
      requires Valid()
      modifies this
      ensures Valid() && doc == Write(old(doc), peer, chunk)
      ensures entries == old(entries)[chunk.id := chunk]
      ensures savePending == (old(savePending) || persistent)
    {
      hide View, Wf, Coherent, KeysOf;
      WriteKeepsWf(doc, peer, chunk);
      WriteUpdatesView(doc, peer, chunk);
      doc := Write(doc, peer, chunk);
      entries := entries[chunk.id := chunk];
      keys := Arrange(KeysOf(doc.ops));
      ScheduleSave();
    }

    /** A deletion is a write too, so that it reaches the peers. */
    method Forget(id: string, now: int)
      requires Valid()
      modifies this
      ensures Valid() && doc == Write(old(doc), peer, Tombstone(id, now))
      ensures entries == old(entries)[id := Tombstone(id, now)]
      ensures
        var t := entries[id];
        && t.id == id && t.tombstone && t.timestamp == now && t.ttl.None? && t.supersedes.None?
        && t.chunkType == "project" && t.namespace == "project" && t.topic == ["_tombstone"] && t.peerId == "_system" && t.content == ""
      ensures savePending == (old(savePending) || persistent)
    {
      Put(Tombstone(id, now));
    }

    method Get(id: string) returns (r: Option<Chunk>)
      requires Valid()
      ensures r == Loro.Get(doc.ops, id)
      ensures r == if LiveAt(entries, id) then Some(entries[id]) else None
    {
      var shown := set o | o in doc.ops && o.chunk.id == id && Latest(doc.ops, o);
      assert id in KeysOf(doc.ops) ==> Shown(doc.ops, id) in shown;
      if shown == {} {
        return None;
      }
      var o :| o in shown;
      ShownIs(doc.ops, o);
      r := if o.chunk.tombstone then None else Some(o.chunk);
    }

    /** All visible chunks, each once, in the order of the document's keys. */
    method List() returns (r: seq<Chunk>)
      requires Valid()
      ensures r == Listing(entries, keys)
      ensures Elems(r) == Live(entries)
      ensures forall i, j :: 0 <= i < j < |r| ==> r[i].id != r[j].id
    {
      hide KeysOf, View, Live, Wf, Coherent;
      ViewKeyed(doc.ops);
      r := [];
      for i := 0 to |keys|
        invariant r == Listing(entries, keys[..i])
      {
        assert keys[..i + 1][..i] == keys[..i];
        var c := Get(keys[i]);
        if c.Some? {
          r := r + [c.value];
        }
      }
      assert keys[..|keys|] == keys;
      ListingIs(entries, keys);
      ListingLive(entries, keys);
    }

    method Query(q: MemoryQuery, now: int, lower: string -> string) returns (r: seq<Chunk>)
      requires Valid()
      ensures r == ApplyQuery(Listing(entries, keys), q, now, lower)
      ensures forall c :: c in r ==> c in Live(entries) && Matches(c, q, now, lower)
    {
      var live := List();
      r := ApplyQuery(live, q, now, lower);
      QueryAnswer(live, q, now, lower);
      hide ApplyQuery, Matches, Live;
      assert forall c :: c in live <==> c in Elems(live);
    }

    /**
     * Importing the delta gives whoever holds the version the union with this document, and no write in it is one
     * that the version has already.
     */
    method ExportDelta(since: Option<Doc>) returns (delta: Doc)
      ensures forall receiver: Doc :: since.None? || since.value.ops <= receiver.ops ==>
                                        Import(receiver, delta).ops == receiver.ops + doc.ops
      ensures delta.clock == doc.clock && delta.ops <= doc.ops && (since.Some? ==> delta.ops !! since.value.ops)
    {
      delta := Export(doc, since);
      forall receiver: Doc | since.None? || since.value.ops <= receiver.ops
        ensures Import(receiver, delta).ops == receiver.ops + doc.ops
      {
        DeltaCompletes(doc, receiver, since);
      }
    }

    method GetVersionSnapshot() returns (version: Doc)
      ensures version == doc
    {
      version := doc;
    }

    /** Bytes that do not parse leave the document as it is. */
    method ImportDelta(bytes: Option<Doc>) returns (ok: bool)
      requires Valid()
      modifies this
      ensures ok == bytes.Some?
      ensures doc == if ok then Import(old(doc), bytes.value) else old(doc)
      ensures (ok ==> Wf(bytes.value) && Coherent(doc.ops)) ==> Valid()
      ensures savePending == (old(savePending) || (ok && persistent))
    {
      ok := bytes.Some?;
      if ok {
        doc := Import(doc, bytes.value);
        entries := View(doc.ops);
        keys := Arrange(KeysOf(doc.ops));
        ScheduleSave();
      }
    }

    method ScheduleSave()
      modifies this`savePending
      ensures savePending == (old(savePending) || persistent)
    {
      if savePending || !persistent {
        return;
      }
      savePending := true;
    }
  }
}
