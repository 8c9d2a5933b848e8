/** The data every other module shares: memory chunks and their links. */
module Chunks {

  datatype Option<+T> = None | Some(value: T)

  /** A typed edge from one chunk to another chunk id or to an agent:// URI. */
  datatype Link = Link(target: string, rel: string, caption: Option<string>)

  datatype Chunk = Chunk(
    id: string,
    supersedes: Option<string>,
    timestamp: int,
    ttl: Option<int>,
    tombstone: bool,
    links: Option<seq<Link>>,
    topic: seq<string>,
    chunkType: string,
    namespace: string,
    project: Option<string>,
    peerId: string,
    collection: Option<string>,
    contentFormat: Option<string>,
    confidence: real,
    content: string)

  /** What `if (x)` means for an optional string: the empty string is as good as absent. */
  predicate Truthy(s: Option<string>) {
    s.Some? && s.value != ""
  }

  /** `newer` names `older` in its supersedes field. */
  predicate Supersedes(newer: Chunk, older: Chunk) {
    Truthy(newer.supersedes) && newer.supersedes.value == older.id
  }

  predicate Expired(c: Chunk, now: int) {
    c.ttl.Some? && c.ttl.value < now
  }

  function Elems<T>(s: seq<T>): set<T> {
    set x | x in s
  }

  predicate NoRepeats<T(==)>(s: seq<T>) {
    forall i, j :: 0 <= i < j < |s| ==> s[i] != s[j]
  }

  lemma {:induction false} DistinctCount<T>(s: seq<T>)
    requires NoRepeats(s)
    ensures |Elems(s)| == |s|
  {
    if s != [] {
      var init, last := s[..|s| - 1], s[|s| - 1];
      DistinctCount(init);
      assert s == init + [last];
      assert Elems(s) == Elems(init) + {last};
    }
  }

  lemma {:induction false} SubsetCount<T>(a: set<T>, b: set<T>)
    requires a <= b
    ensures |a| <= |b|
  {
    if a != {} {
      var x :| x in a;
      SubsetCount(a - {x}, b - {x});
    }
  }
}
