/** The reverse link index: which chunks point at a target. */
module Backlinks {
  import opened Chunks

  /** The outgoing links of a chunk, the supersedes field included unless it is listed already. */
  function GetLinks(c: Chunk): seq<Link> {
    var links := if c.links.Some? then c.links.value else [];
    if Truthy(c.supersedes) && !(exists l :: l in links && l.target == c.supersedes.value && l.rel == "supersedes")
    then links + [Link(c.supersedes.value, "supersedes", None)]
    else links
  }

  function Targets(c: Chunk): set<string> {
    set l | l in GetLinks(c) :: l.target
  }

  ghost function TargetsOf(links: seq<Link>): set<string> {
    set l | l in links :: l.target
  }

  lemma TargetsOfOneMore(links: seq<Link>, i: nat)
    requires i < |links|
    ensures TargetsOf(links[..i + 1]) == TargetsOf(links[..i]) + {links[i].target}
  {
    assert links[..i + 1] == links[..i] + [links[i]];
  }

  lemma TargetsOfNone()
    ensures TargetsOf([]) == {}
  {
  }

  type Index = map<string, set<string>>

  ghost function Named(members: map<string, Chunk>): set<string> {
    set s, t | s in members && t in Targets(members[s]) :: t
  }

  ghost function Sources(members: map<string, Chunk>, t: string): set<string> {
    set s | s in members && t in Targets(members[s])
  }

  /** The index of a collection of chunks: no target without a source. */
  ghost function Reverse(members: map<string, Chunk>): Index {
    map t | t in Named(members) :: Sources(members, t)
  }

  function AddEdge(index: Index, target: string, source: string): Index {
    index[target := (if target in index then index[target] else {}) + {source}]
  }

  function DropEdge(index: Index, target: string, source: string): Index {
    if target !in index then index
    else if index[target] - {source} == {} then index - {target}
    else index[target := index[target] - {source}]
  }

  ghost function AddAll(index: Index, targets: set<string>, source: string): Index {
    map t | t in index.Keys + targets :: (if t in index then index[t] else {}) + (if t in targets then {source} else {})
  }

  ghost function DropAll(index: Index, targets: set<string>, source: string): Index {
    map t | t in index && !(t in targets && index[t] - {source} == {}) :: if t in targets then index[t] - {source} else index[t]
  }

  /** The targets named by the link list and by the supersedes field are those of the links as a whole. */
  lemma TargetsAre(c: Chunk)
    ensures
      var named := TargetsOf(if c.links.Some? then c.links.value else []);
      Targets(c) == if Truthy(c.supersedes) then named + {c.supersedes.value} else named
  {
    var links := if c.links.Some? then c.links.value else [];
    forall t ensures t in Targets(c) <==> (exists l :: l in links && l.target == t) || (Truthy(c.supersedes) && t == c.supersedes.value) {
      if l :| l in links && l.target == t {
        assert l in GetLinks(c);
      }
      if Truthy(c.supersedes) && t == c.supersedes.value {
        if l :| l in links && l.target == t && l.rel == "supersedes" {
          assert l in GetLinks(c);
        } else {
          assert Link(t, "supersedes", None) in GetLinks(c);
        }
      }
    }
  }

  lemma NamedIff(members: map<string, Chunk>, t: string)
    ensures t in Named(members) <==> Sources(members, t) != {}
  {
    if t in Named(members) {
      var s :| s in members && t in Targets(members[s]);
      assert s in Sources(members, t);
    }
    if s :| s in Sources(members, t) {
      assert t in Targets(members[s]);
    }
  }

  lemma SourcesAdded(members: map<string, Chunk>, c: Chunk, t: string)
    requires c.id in members ==> members[c.id] == c
    ensures Sources(members[c.id := c], t) == Sources(members, t) + if t in Targets(c) then {c.id} else {}
  {
  }

  lemma SourcesRemoved(members: map<string, Chunk>, c: Chunk, t: string)
    requires c.id in members ==> members[c.id] == c
    ensures Sources(members - {c.id}, t) == Sources(members, t) - {c.id}
    ensures t !in Targets(c) ==> c.id !in Sources(members, t)
  {
  }

  lemma AddMember(members: map<string, Chunk>, c: Chunk)
    requires c.id in members ==> members[c.id] == c
    ensures AddAll(Reverse(members), Targets(c), c.id) == Reverse(members[c.id := c])
  {
    hide Targets, Named, Sources;
    var left, right := AddAll(Reverse(members), Targets(c), c.id), Reverse(members[c.id := c]);
    forall t ensures (t in left <==> t in right) && (t in left ==> left[t] == right[t]) {
      NamedIff(members, t);
      NamedIff(members[c.id := c], t);
      SourcesAdded(members, c, t);
    }
  }

  lemma RemoveMember(members: map<string, Chunk>, c: Chunk)
    requires c.id in members ==> members[c.id] == c
    ensures DropAll(Reverse(members), Targets(c), c.id) == Reverse(members - {c.id})
  {
    hide Targets, Named, Sources;
    var left, right := DropAll(Reverse(members), Targets(c), c.id), Reverse(members - {c.id});
    forall t ensures (t in left <==> t in right) && (t in left ==> left[t] == right[t]) {
      NamedIff(members, t);
      NamedIff(members - {c.id}, t);
      SourcesRemoved(members, c, t);
    }
  }

  // ----- histories -----

  datatype Change = Add(chunk: Chunk) | Remove(chunk: Chunk)

  /** One change: a tombstone is not indexed. */
  ghost function Applied(index: Index, change: Change): Index {
    var c := change.chunk;
    if change.Remove? then DropAll(index, Targets(c), c.id)
    else if c.tombstone then index
    else AddAll(index, Targets(c), c.id)
  }

  ghost function Kept(members: map<string, Chunk>, change: Change): map<string, Chunk> {
    var c := change.chunk;
    if change.Remove? then members - {c.id} else if c.tombstone then members else members[c.id := c]
  }

  ghost function Replay(start: Index, changes: seq<Change>): Index {
    if changes == [] then start else Applied(Replay(start, changes[..|changes| - 1]), changes[|changes| - 1])
  }

  /** The chunks that a history leaves indexed. */
  ghost function Survivors(start: map<string, Chunk>, changes: seq<Change>): map<string, Chunk> {
    if changes == [] then start else Kept(Survivors(start, changes[..|changes| - 1]), changes[|changes| - 1])
  }

  /** An id never stands for two different chunks. */
  ghost predicate FixedContent(start: map<string, Chunk>, changes: seq<Change>) {
    && (forall i :: 0 <= i < |changes| && changes[i].chunk.id in start ==> start[changes[i].chunk.id] == changes[i].chunk)
    && forall i, j :: 0 <= i < |changes| && 0 <= j < |changes| && changes[i].chunk.id == changes[j].chunk.id ==>
                        changes[i].chunk == changes[j].chunk
  }

  lemma AppliedIsReverse(members: map<string, Chunk>, change: Change)
    requires change.chunk.id in members ==> members[change.chunk.id] == change.chunk
    ensures Applied(Reverse(members), change) == Reverse(Kept(members, change))
  {
    AddMember(members, change.chunk);
    RemoveMember(members, change.chunk);
  }

  lemma {:induction false} SurvivorsCome(start: map<string, Chunk>, changes: seq<Change>, id: string)
    requires id in Survivors(start, changes)
    ensures (id in start && start[id] == Survivors(start, changes)[id])
            || exists i :: 0 <= i < |changes| && changes[i].chunk == Survivors(start, changes)[id] && changes[i].chunk.id == id
  {
    if changes != [] {
      var init, last := changes[..|changes| - 1], changes[|changes| - 1];
      if last.Remove? || last.chunk.tombstone || last.chunk.id != id {
        SurvivorsCome(start, init, id);
        if i :| 0 <= i < |init| && init[i].chunk == Survivors(start, init)[id] && init[i].chunk.id == id {
          assert changes[i] == init[i];
        }
      } else {
        assert changes[|changes| - 1].chunk == Survivors(start, changes)[id];
      }
    }
  }

  /** After any history with fixed content per id, the index is the reverse of the surviving chunks' links. */
  lemma {:induction false} ReplayIsReverse(start: map<string, Chunk>, changes: seq<Change>)
    requires FixedContent(start, changes)
    ensures Replay(Reverse(start), changes) == Reverse(Survivors(start, changes))
  {
    hide Applied, Kept, Reverse;
    if changes != [] {
      var init, last := changes[..|changes| - 1], changes[|changes| - 1];
      ReplayIsReverse(start, init);
      var members, c := Survivors(start, init), last.chunk;
      if c.id in members {
        SurvivorsCome(start, init, c.id);
        if i :| 0 <= i < |init| && init[i].chunk == members[c.id] && init[i].chunk.id == c.id {
          assert changes[i].chunk == changes[|changes| - 1].chunk;
        } else {
          assert changes[|changes| - 1].chunk == start[c.id];
        }
      }
      AppliedIsReverse(members, last);
    }
  }

  /** So a target's backlinks are exactly the surviving chunks whose links name it, and no target is kept without any. */
  lemma BacklinksAreExact(changes: seq<Change>, target: string)
    requires FixedContent(map[], changes)
    ensures
      var index, alive := Replay(map[], changes), Survivors(map[], changes);
      && (forall s :: target in index && s in index[target] <==> s in alive && target in Targets(alive[s]))
      && (target in index ==> index[target] != {})
  {
    hide Targets;
    assert Reverse(map[]) == map[];
    ReplayIsReverse(map[], changes);
    var alive := Survivors(map[], changes);
    NamedIff(alive, target);
    forall s ensures s in Sources(alive, target) <==> s in alive && target in Targets(alive[s]) {
    }
  }

  // ----- the index -----

  function AddsOf(all: seq<Chunk>): seq<Change> {
    seq(|all|, i requires 0 <= i < |all| => Add(all[i]))
  }

  class BacklinkIndex {
    var index: Index

    constructor ()
      ensures index == map[]
    {
      index := map[];
    }

    method IndexChunk(chunk: Chunk)
      modifies this
      ensures index == Applied(old(index), Add(chunk))
    {
      if chunk.tombstone {
        return;
      }
      TargetsAre(chunk);
      hide Targets, TargetsOf, AddEdge, AddAll;
      var links := if chunk.links.Some? then chunk.links.value else [];
      ghost var start := index;
      NothingAdded(start, chunk.id);
      TargetsOfNone();
      assert links[..0] == [];
      for i := 0 to |links|
        invariant index == AddAll(start, TargetsOf(links[..i]), chunk.id)
      {
        TargetsOfOneMore(links, i);
        AddStep(start, TargetsOf(links[..i]), links[i].target, chunk.id);
        index := AddEdge(index, links[i].target, chunk.id);
      }
      assert links[..|links|] == links;
      if Truthy(chunk.supersedes) {
        AddStep(start, TargetsOf(links), chunk.supersedes.value, chunk.id);
        index := AddEdge(index, chunk.supersedes.value, chunk.id);
      }
    }

    method RemoveChunk(chunk: Chunk)
      modifies this
      ensures index == Applied(old(index), Remove(chunk))
    {
      TargetsAre(chunk);
      hide Targets, TargetsOf, DropEdge, DropAll;
      var links := if chunk.links.Some? then chunk.links.value else [];
      ghost var start := index;
      NothingDropped(start, chunk.id);
      TargetsOfNone();
      assert links[..0] == [];
      for i := 0 to |links|
        invariant index == DropAll(start, TargetsOf(links[..i]), chunk.id)
      {
        TargetsOfOneMore(links, i);
        DropStep(start, TargetsOf(links[..i]), links[i].target, chunk.id);
        index := DropEdge(index, links[i].target, chunk.id);
      }
      assert links[..|links|] == links;
      if Truthy(chunk.supersedes) {
        DropStep(start, TargetsOf(links), chunk.supersedes.value, chunk.id);
        index := DropEdge(index, chunk.supersedes.value, chunk.id);
      }
    }

    /** When the index is what some chunks reverse to, the backlinks are exactly those of them whose links name the target. */
    method GetBacklinks(target: string, ghost members: map<string, Chunk>) returns (r: set<string>)
      ensures r == if target in index then index[target] else {}
      ensures index == Reverse(members) ==> r == set s | s in members && target in Targets(members[s])
    {
      r := if target in index then index[target] else {};
      NamedIff(members, target);
    }

    method Build(all: seq<Chunk>)
      modifies this
      ensures index == Replay(old(index), AddsOf(all))
    {
      hide Applied;
      for i := 0 to |all|
        invariant index == Replay(old(index), AddsOf(all)[..i])
      {
        IndexChunk(all[i]);
        assert AddsOf(all)[..i + 1][..i] == AddsOf(all)[..i];
      }
      assert AddsOf(all)[..|all|] == AddsOf(all);
    }
  }

  lemma NothingAdded(start: Index, source: string)
    ensures AddAll(start, {}, source) == start
  {
    var left := AddAll(start, {}, source);
    forall t | t in left ensures left[t] == start[t] {
    }
  }

  lemma NothingDropped(start: Index, source: string)
    ensures DropAll(start, {}, source) == start
  {
    assert DropAll(start, {}, source).Keys == start.Keys;
  }

  lemma AddStep(start: Index, seen: set<string>, target: string, source: string)
    ensures AddEdge(AddAll(start, seen, source), target, source) == AddAll(start, seen + {target}, source)
  {
    var left, right := AddEdge(AddAll(start, seen, source), target, source), AddAll(start, seen + {target}, source);
    assert left.Keys == right.Keys;
    forall t | t in left ensures left[t] == right[t] {
    }
  }

  lemma DropStep(start: Index, seen: set<string>, target: string, source: string)
    ensures DropEdge(DropAll(start, seen, source), target, source) == DropAll(start, seen + {target}, source)
  {
    var left, right := DropEdge(DropAll(start, seen, source), target, source), DropAll(start, seen + {target}, source);
    assert target in seen && target in start ==> start[target] - {source} - {source} == start[target] - {source};
    assert left.Keys == right.Keys;
  }
}
