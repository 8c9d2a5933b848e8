/** Breadth-first search over the links of stored chunks. */
module Graph {
  import opened Chunks
  import Backlinks

  datatype Edge = Edge(source: string, target: string, rel: string, caption: Option<string>)

  /** Which links a search follows: the wanted relations, and no agent:// URIs. */
  datatype Filter = Filter(rels: Option<set<string>>, isAgentUri: string -> bool)

  predicate Allows(f: Filter, l: Link) {
    (f.rels.Some? ==> l.rel in f.rels.value) && !f.isAgentUri(l.target)
  }

  type Store = map<string, Chunk>

  ghost predicate Keyed(store: Store) {
    forall id :: id in store ==> store[id].id == id
  }

  /** The targets a search may go to from a stored chunk. */
  ghost function Next(store: Store, f: Filter, id: string): set<string> {
    if id in store then set l | l in Backlinks.GetLinks(store[id]) && Allows(f, l) :: l.target else {}
  }

  /** The ids at most `k` allowed links away from the start, every intermediate chunk being stored. */
  ghost function Hops(store: Store, f: Filter, start: string, k: nat): set<string> {
    if k == 0 then {start}
    else
      var near := Hops(store, f, start, k - 1);
      near + set id, t | id in near && t in Next(store, f, id) :: t
  }

  function Limit(maxDepth: int): nat {
    if maxDepth < 0 then 0 else maxDepth
  }

  type Queue = seq<(string, nat)>

  // ----- what holds while the search runs -----

  /** Depths in the queue ascend and span at most two levels; nothing visited is deeper than the queue. */
  ghost predicate Layered(queue: Queue, depth: map<string, nat>) {
    && (forall i, j :: 0 <= i < j < |queue| ==> queue[i].1 <= queue[j].1 <= queue[i].1 + 1)
    && (forall x, i :: x in depth && 0 <= i < |queue| ==> depth[x] <= queue[i].1)
  }

  ghost predicate Justified(edges: seq<Edge>, store: Store, depth: map<string, nat>, x: string, d: nat) {
    exists e :: e in edges && e.target == x && e.source in depth && e.source in store && depth[e.source] + 1 == d
  }

  /** Everything visited or queued was reached in so many hops, the start in none and the rest over a reported edge. */
  ghost predicate Sound(store: Store, f: Filter, start: string, limit: nat, queue: Queue, depth: map<string, nat>, edges: seq<Edge>) {
    && (forall x :: x in depth ==> Reached(store, f, start, limit, depth, edges, x, depth[x]))
    && (forall i :: 0 <= i < |queue| ==> Reached(store, f, start, limit, depth, edges, queue[i].0, queue[i].1))
  }

  ghost predicate Reached(store: Store, f: Filter, start: string, limit: nat, depth: map<string, nat>, edges: seq<Edge>, x: string, d: nat) {
    d <= limit && x in Hops(store, f, start, d) && (x == start || Justified(edges, store, depth, x, d))
  }

  ghost predicate Due(queue: Queue, depth: map<string, nat>, t: string, d: nat) {
    (t in depth && depth[t] <= d) || exists i :: 0 <= i < |queue| && queue[i].0 == t && queue[i].1 <= d
  }

  /** The links of every expanded chunk have been followed or are about to be. */
  ghost predicate Expanded(store: Store, f: Filter, limit: nat, queue: Queue, depth: map<string, nat>) {
    forall y, t :: y in depth && depth[y] < limit && t in Next(store, f, y) ==> Due(queue, depth, t, depth[y] + 1)
  }

  /** The nodes are the visited stored chunks, each once. */
  ghost predicate NodesAre(store: Store, depth: map<string, nat>, nodes: seq<Chunk>) {
    && (forall i :: 0 <= i < |nodes| ==> nodes[i].id in depth && nodes[i].id in store && store[nodes[i].id] == nodes[i])
    && (forall x :: x in depth && x in store ==> store[x] in nodes)
    && (forall i, j :: 0 <= i < j < |nodes| ==> nodes[i].id != nodes[j].id)
  }

  ghost predicate EdgesAre(store: Store, f: Filter, limit: nat, depth: map<string, nat>, edges: seq<Edge>) {
    forall e :: e in edges ==>
      && e.source in depth && e.source in store && depth[e.source] < limit
      && exists l :: l in Backlinks.GetLinks(store[e.source]) && Allows(f, l) && l.target == e.target && l.rel == e.rel
  }

  /** Every id the search can meet. */
  ghost function Universe(store: Store, f: Filter, start: string): set<string> {
    {start} + set id, t | id in store && t in Next(store, f, id) :: t
  }

  // ----- one chunk expanded -----

  /** The links followed from a chunk: allowed, and not to a visited id. */
  function Followed(links: seq<Link>, f: Filter, visited: set<string>): seq<Link> {
    if links == [] then []
    else
      var l := links[|links| - 1];
      Followed(links[..|links| - 1], f, visited) + if Allows(f, l) && l.target !in visited then [l] else []
  }

  function EdgesOf(id: string, links: seq<Link>): seq<Edge> {
    seq(|links|, i requires 0 <= i < |links| => Edge(id, links[i].target, links[i].rel, links[i].caption))
  }

  function QueueOf(links: seq<Link>, d: nat): Queue {
    seq(|links|, i requires 0 <= i < |links| => (links[i].target, d))
  }

  lemma {:induction false} FollowedMembers(links: seq<Link>, f: Filter, visited: set<string>)
    ensures forall l :: l in Followed(links, f, visited) <==> l in links && Allows(f, l) && l.target !in visited
  {
    if links != [] {
      FollowedMembers(links[..|links| - 1], f, visited);
      assert links == links[..|links| - 1] + [links[|links| - 1]];
    }
  }

  method FollowLinks(id: string, depth: nat, links: seq<Link>, f: Filter, visited: set<string>)
    returns (edges: seq<Edge>, queue: Queue)
    ensures edges == EdgesOf(id, Followed(links, f, visited)) && queue == QueueOf(Followed(links, f, visited), depth + 1)
  {
    edges, queue := [], [];
    for i := 0 to |links|
      invariant edges == EdgesOf(id, Followed(links[..i], f, visited))
      invariant queue == QueueOf(Followed(links[..i], f, visited), depth + 1)
    {
      var link := links[i];
      assert links[..i + 1][..i] == links[..i];
      if f.rels.Some? && link.rel !in f.rels.value {
        continue;
      }
      if !f.isAgentUri(link.target) && link.target !in visited {
        edges := edges + [Edge(id, link.target, link.rel, link.caption)];
        queue := queue + [(link.target, depth + 1)];
      }
    }
    assert links[..|links|] == links;
  }

  // ----- the search -----

  ghost predicate Searching(store: Store, f: Filter, start: string, limit: nat,
                            queue: Queue, depth: map<string, nat>, nodes: seq<Chunk>, edges: seq<Edge>) {
    && Layered(queue, depth)
    && Sound(store, f, start, limit, queue, depth, edges)
    && Expanded(store, f, limit, queue, depth)
    && NodesAre(store, depth, nodes)
    && EdgesAre(store, f, limit, depth, edges)
    && Due(queue, depth, start, 0)
  }

  lemma NextInUniverse(store: Store, f: Filter, start: string, id: string)
    ensures Next(store, f, id) <= Universe(store, f, start)
  {
  }

  lemma {:induction false} HopsInUniverse(store: Store, f: Filter, start: string, k: nat)
    ensures Hops(store, f, start, k) <= Universe(store, f, start)
  {
    if k > 0 {
      HopsInUniverse(store, f, start, k - 1);
      forall id { NextInUniverse(store, f, start, id); }
    }
  }

  /** An entry whose id is visited already can be skipped. */
  lemma SkipKeeps(store: Store, f: Filter, start: string, limit: nat, queue: Queue, depth: map<string, nat>, nodes: seq<Chunk>, edges: seq<Edge>)
    requires queue != [] && queue[0].0 in depth && Searching(store, f, start, limit, queue, depth, nodes, edges)
    ensures Searching(store, f, start, limit, queue[1..], depth, nodes, edges)
  {
    hide Hops, Next, Justified;
    forall t, d | Due(queue, depth, t, d) ensures Due(queue[1..], depth, t, d) {
      DueSkipped(queue, depth, depth, t, d);
    }
  }

  /** What was due stays due when the head of the queue is visited, or was visited before. */
  lemma DueSkipped(queue: Queue, depth: map<string, nat>, depth': map<string, nat>, t: string, d: nat)
    requires queue != [] && Due(queue, depth, t, d) && Layered(queue, depth)
    requires queue[0].0 in depth' && depth'[queue[0].0] <= queue[0].1
    requires forall x :: x in depth ==> x in depth' && depth'[x] == depth[x]
    ensures Due(queue[1..], depth', t, d)
  {
    if !(t in depth && depth[t] <= d) {
      var i :| 0 <= i < |queue| && queue[i].0 == t && queue[i].1 <= d;
      if i > 0 {
        assert queue[1..][i - 1] == queue[i];
      }
    }
  }

  /** Visiting the head of the queue and, above the limit, queueing the links it follows. */
  ghost function After(queue: Queue, id: string, d: nat, followed: seq<Link>): Queue {
    queue + QueueOf(followed, d + 1)
  }

  lemma VisitLayered(queue: Queue, depth: map<string, nat>, followed: seq<Link>)
    requires queue != [] && Layered(queue, depth) && queue[0].0 !in depth
    ensures Layered(After(queue[1..], queue[0].0, queue[0].1, followed), depth[queue[0].0 := queue[0].1])
  {
  }

  lemma JustifiedStays(edges: seq<Edge>, edges': seq<Edge>, store: Store, depth: map<string, nat>, depth': map<string, nat>, x: string, d: nat)
    requires Justified(edges, store, depth, x, d)
    requires forall e :: e in edges ==> e in edges'
    requires forall y :: y in depth ==> y in depth' && depth'[y] == depth[y]
    ensures Justified(edges', store, depth', x, d)
  {
  }

  lemma VisitSound(store: Store, f: Filter, start: string, limit: nat, queue: Queue, depth: map<string, nat>, edges: seq<Edge>, followed: seq<Link>)
    requires queue != [] && Sound(store, f, start, limit, queue, depth, edges) && queue[0].0 !in depth
    requires followed != [] ==> queue[0].0 in store && queue[0].1 < limit
    requires forall l :: l in followed ==> l.target in Next(store, f, queue[0].0)
    ensures
      var (id, d) := queue[0];
      Sound(store, f, start, limit, After(queue[1..], id, d, followed), depth[id := d], edges + EdgesOf(id, followed))
  {
    hide Next, Justified;
    var (id, d) := queue[0];
    var queue', depth', edges' := After(queue[1..], id, d, followed), depth[id := d], edges + EdgesOf(id, followed);
    forall x, k | Justified(edges, store, depth, x, k) ensures Justified(edges', store, depth', x, k) {
      JustifiedStays(edges, edges', store, depth, depth', x, k);
    }
    assert Reached(store, f, start, limit, depth, edges, queue[0].0, queue[0].1);
    forall i | 0 <= i < |queue'|
      ensures Reached(store, f, start, limit, depth', edges', queue'[i].0, queue'[i].1)
    {
      if i < |queue| - 1 {
        assert queue'[i] == queue[i + 1];
        assert Reached(store, f, start, limit, depth, edges, queue[i + 1].0, queue[i + 1].1);
      } else {
        var j := i - (|queue| - 1);
        FollowedJustified(store, depth', edges, id, d, followed, j);
      }
    }
  }

  lemma FollowedJustified(store: Store, depth': map<string, nat>, edges: seq<Edge>, id: string, d: nat, followed: seq<Link>, j: nat)
    requires j < |followed| && id in store && id in depth' && depth'[id] == d
    ensures Justified(edges + EdgesOf(id, followed), store, depth', followed[j].target, d + 1)
  {
    assert EdgesOf(id, followed)[j] in edges + EdgesOf(id, followed);
  }

  lemma VisitExpanded(store: Store, f: Filter, limit: nat, queue: Queue, depth: map<string, nat>, followed: seq<Link>, visited: set<string>)
    requires queue != [] && Layered(queue, depth) && Expanded(store, f, limit, queue, depth) && queue[0].0 !in depth
    requires visited == depth.Keys + {queue[0].0}
    requires queue[0].0 in store && queue[0].1 < limit ==>
               followed == Followed(Backlinks.GetLinks(store[queue[0].0]), f, visited)
    ensures
      var (id, d) := queue[0];
      Expanded(store, f, limit, After(queue[1..], id, d, followed), depth[id := d])
  {
    hide Followed;
    var (id, d) := queue[0];
    var queue', depth' := After(queue[1..], id, d, followed), depth[id := d];
    forall y, t | y in depth' && depth'[y] < limit && t in Next(store, f, y) ensures Due(queue', depth', t, depth'[y] + 1) {
      if y != id {
        DueSkipped(queue, depth, depth', t, depth[y] + 1);
        DueMore(queue[1..], QueueOf(followed, d + 1), depth', t, depth[y] + 1);
      } else {
        FollowedDue(store, f, queue, depth, followed, visited, t);
      }
    }
  }

  lemma DueMore(queue: Queue, more: Queue, depth: map<string, nat>, t: string, d: nat)
    requires Due(queue, depth, t, d)
    ensures Due(queue + more, depth, t, d)
  {
    if !(t in depth && depth[t] <= d) {
      var i :| 0 <= i < |queue| && queue[i].0 == t && queue[i].1 <= d;
      assert (queue + more)[i] == queue[i];
    }
  }

  lemma FollowedDue(store: Store, f: Filter, queue: Queue, depth: map<string, nat>, followed: seq<Link>, visited: set<string>, t: string)
    requires queue != [] && Layered(queue, depth) && queue[0].0 !in depth && queue[0].0 in store
    requires visited == depth.Keys + {queue[0].0}
    requires followed == Followed(Backlinks.GetLinks(store[queue[0].0]), f, visited)
    requires t in Next(store, f, queue[0].0)
    ensures Due(After(queue[1..], queue[0].0, queue[0].1, followed), depth[queue[0].0 := queue[0].1], t, queue[0].1 + 1)
  {
    var links := Backlinks.GetLinks(store[queue[0].0]);
    FollowedMembers(links, f, visited);
    if t !in visited {
      var l :| l in links && Allows(f, l) && l.target == t;
      var j :| 0 <= j < |followed| && followed[j] == l;
      var queue' := After(queue[1..], queue[0].0, queue[0].1, followed);
      assert queue'[|queue| - 1 + j] == (t, queue[0].1 + 1);
    }
  }

  lemma VisitEdges(store: Store, f: Filter, limit: nat, depth: map<string, nat>, edges: seq<Edge>, id: string, d: nat, followed: seq<Link>)
    requires EdgesAre(store, f, limit, depth, edges) && id !in depth
    requires followed != [] ==> id in store && d < limit
    requires forall l :: l in followed ==> l in Backlinks.GetLinks(store[id]) && Allows(f, l)
    ensures EdgesAre(store, f, limit, depth[id := d], edges + EdgesOf(id, followed))
  {
    var depth', edges' := depth[id := d], edges + EdgesOf(id, followed);
    forall e | e in edges'
      ensures e.source in depth' && e.source in store && depth'[e.source] < limit
      ensures exists l :: l in Backlinks.GetLinks(store[e.source]) && Allows(f, l) && l.target == e.target && l.rel == e.rel
    {
      if e !in edges {
        var j :| 0 <= j < |followed| && EdgesOf(id, followed)[j] == e;
        assert followed[j] in followed;
      }
    }
  }

  lemma VisitNodes(store: Store, depth: map<string, nat>, nodes: seq<Chunk>, id: string, d: nat)
    requires Keyed(store) && id !in depth && NodesAre(store, depth, nodes)
    ensures NodesAre(store, depth[id := d], if id in store then nodes + [store[id]] else nodes)
  {
  }

  /** When the queue is empty, nothing within the limit was missed, and depths are shortest distances. */
  lemma {:induction false} Complete(store: Store, f: Filter, start: string, limit: nat, depth: map<string, nat>, k: nat, x: string)
    requires Expanded(store, f, limit, [], depth) && Due([], depth, start, 0)
    requires k <= limit && x in Hops(store, f, start, k)
    ensures x in depth && depth[x] <= k
  {
    hide Next;
    if k > 0 {
      var near := Hops(store, f, start, k - 1);
      if x in near {
        Complete(store, f, start, limit, depth, k - 1, x);
      } else {
        var id :| id in near && x in Next(store, f, id);
        hide Hops;
        Complete(store, f, start, limit, depth, k - 1, id);
        assert Due([], depth, x, depth[id] + 1);
      }
    }
  }

  /**
   * The search stops, returns exactly the stored chunks within the limit, each once, and links every one of them
   * but the start to a returned chunk one hop closer; `depth` is the distance of each from the start.
   */
  method Search(store: Store, start: string, f: Filter, maxDepth: int)
    returns (nodes: seq<Chunk>, edges: seq<Edge>, ghost depth: map<string, nat>)
    requires Keyed(store)
    ensures forall c :: c in nodes <==> c.id in store && store[c.id] == c && c.id in Hops(store, f, start, Limit(maxDepth))
    ensures forall i, j :: 0 <= i < j < |nodes| ==> nodes[i].id != nodes[j].id
    ensures depth.Keys == Hops(store, f, start, Limit(maxDepth))
    ensures forall x, k :: x in depth && 0 <= k < depth[x] ==> x !in Hops(store, f, start, k)
    ensures forall x :: x in depth ==> x in Hops(store, f, start, depth[x])
    ensures forall c :: c in nodes && c.id != start ==>
              exists e :: e in edges && e.target == c.id && e.source in store && store[e.source] in nodes
                          && e.source in depth && depth[e.source] < depth[c.id]
    ensures EdgesAre(store, f, Limit(maxDepth), depth, edges)
    ensures start in depth && depth[start] == 0 && forall x :: x in depth && x != start ==> 1 <= depth[x] <= maxDepth
    ensures forall c :: c in nodes <==> c.id in store && store[c.id] == c && c.id in depth
    ensures FollowsLinks(store, f, maxDepth, depth, edges)
    ensures maxDepth <= 0 ==> edges == [] && depth.Keys == {start}
  {
    hide FollowsLinks;
    hide Hops, Next, Searching, EdgesAre, Universe, Followed, Onward, EdgesOf, QueueOf, Keyed;
    var limit := Limit(maxDepth);
    var visited: set<string> := {};
    var queue: Queue := [(start, 0)];
    nodes, edges, depth := [], [], map[];
    SearchStart(store, f, start, limit);
    while queue != []
      invariant visited == depth.Keys
      invariant Searching(store, f, start, limit, queue, depth, nodes, edges)
      decreases Universe(store, f, start) - visited, |queue|
    {
      var (id, d) := queue[0];
      if id in visited {
        SkipKeeps(store, f, start, limit, queue, depth, nodes, edges);
        queue := queue[1..];
        continue;
      }
      HeadInUniverse(store, f, start, limit, queue, depth, nodes, edges);
      visited := visited + {id};
      var moreEdges, moreQueue := Expand(store, f, id, d, maxDepth, visited);
      VisitKeeps(store, f, start, limit, queue, depth, nodes, edges, visited);
      if id in store {
        nodes := nodes + [store[id]];
      }
      depth := depth[id := d];
      queue, edges := queue[1..] + moreQueue, edges + moreEdges;
    }
    SearchDone(store, f, start, limit, depth, nodes, edges);
    SearchByDepth(store, f, start, maxDepth, depth, edges);
  }

  predicate HasLink(c: Chunk, target: string, rel: string) {
    || (c.links.Some? && exists l :: l in c.links.value && l.target == target && l.rel == rel)
    || (rel == "supersedes" && c.supersedes == Some(target) && target != "")
  }

  /** Edges are wanted links out of chunks above the depth limit, and every such link leads to a target at most one deeper. */
  ghost predicate FollowsLinks(store: Store, f: Filter, maxDepth: int, depth: map<string, nat>, edges: seq<Edge>) {
    && (forall e :: e in edges ==>
          && e.source in store && e.source in depth && depth[e.source] < maxDepth
          && (f.rels.Some? ==> e.rel in f.rels.value) && !f.isAgentUri(e.target)
          && HasLink(store[e.source], e.target, e.rel))
    && (forall x, l :: x in store && x in depth && depth[x] < maxDepth && store[x].links.Some? && l in store[x].links.value
                       && (f.rels.Some? ==> l.rel in f.rels.value) && !f.isAgentUri(l.target) ==>
                         l.target in depth && depth[l.target] <= depth[x] + 1)
    && (forall x :: x in store && x in depth && depth[x] < maxDepth && store[x].supersedes.Some? && store[x].supersedes.value != ""
                    && (f.rels.Some? ==> "supersedes" in f.rels.value) && !f.isAgentUri(store[x].supersedes.value) ==>
                      store[x].supersedes.value in depth && depth[store[x].supersedes.value] <= depth[x] + 1)
  }

  lemma LinksAre(c: Chunk, target: string, rel: string)
    ensures HasLink(c, target, rel) <==> exists l :: l in Backlinks.GetLinks(c) && l.target == target && l.rel == rel
  {
    var links := if c.links.Some? then c.links.value else [];
    assert forall l :: l in links ==> l in Backlinks.GetLinks(c);
    if rel == "supersedes" && c.supersedes == Some(target) && target != "" {
      if !(exists l :: l in links && l.target == target && l.rel == "supersedes") {
        assert Link(target, "supersedes", None) in Backlinks.GetLinks(c);
      }
    }
  }

  /** `depth` holds the distance of every id within the limit. */
  ghost predicate Distances(store: Store, f: Filter, start: string, limit: nat, depth: map<string, nat>) {
    && depth.Keys == Hops(store, f, start, limit)
    && (forall x, k :: x in depth && 0 <= k < depth[x] ==> x !in Hops(store, f, start, k))
    && (forall x :: x in depth ==> x in Hops(store, f, start, depth[x]))
  }

  lemma SearchByDepth(store: Store, f: Filter, start: string, maxDepth: int, depth: map<string, nat>, edges: seq<Edge>)
    requires Distances(store, f, start, Limit(maxDepth), depth) && EdgesAre(store, f, Limit(maxDepth), depth, edges)
    ensures start in depth && depth[start] == 0 && forall x :: x in depth && x != start ==> 1 <= depth[x] <= maxDepth
    ensures FollowsLinks(store, f, maxDepth, depth, edges)
    ensures maxDepth <= 0 ==> edges == [] && depth.Keys == {start}
  {
    hide Distances;
    var limit := Limit(maxDepth);
    assert edges != [] ==> edges[0] in edges;
    DistancesBounded(store, f, start, limit, depth);
    EdgesAreLinks(store, f, limit, depth, edges);
    hide EdgesAre;
    forall x, l | x in store && x in depth && depth[x] < maxDepth && store[x].links.Some? && l in store[x].links.value
                  && (f.rels.Some? ==> l.rel in f.rels.value) && !f.isAgentUri(l.target)
      ensures l.target in depth && depth[l.target] <= depth[x] + 1
    {
      LinkInReach(store, f, start, limit, depth, x, l.target, l.rel);
    }
    forall x | x in store && x in depth && depth[x] < maxDepth && store[x].supersedes.Some? && store[x].supersedes.value != ""
               && (f.rels.Some? ==> "supersedes" in f.rels.value) && !f.isAgentUri(store[x].supersedes.value)
      ensures store[x].supersedes.value in depth && depth[store[x].supersedes.value] <= depth[x] + 1
    {
      LinkInReach(store, f, start, limit, depth, x, store[x].supersedes.value, "supersedes");
    }
    hide HasLink;
    assert maxDepth <= 0 ==> depth.Keys == {start};
    forall e | e in edges ensures depth[e.source] < maxDepth {
    }
  }

  lemma DistancesBounded(store: Store, f: Filter, start: string, limit: nat, depth: map<string, nat>)
    requires Distances(store, f, start, limit, depth)
    ensures start in depth && depth[start] == 0 && forall x :: x in depth && x != start ==> 1 <= depth[x] <= limit
  {
    assert Hops(store, f, start, 0) == {start};
    HopsGrow(store, f, start, 0, limit);
    hide Hops;
    forall x | x in depth ensures depth[x] <= limit {
      assert depth[x] > limit ==> x !in Hops(store, f, start, limit);
    }
  }

  lemma LinkInReach(store: Store, f: Filter, start: string, limit: nat, depth: map<string, nat>, x: string, t: string, rel: string)
    requires Distances(store, f, start, limit, depth) && x in store && x in depth && depth[x] < limit && HasLink(store[x], t, rel)
    requires (f.rels.Some? ==> rel in f.rels.value) && !f.isAgentUri(t)
    ensures t in depth && depth[t] <= depth[x] + 1
  {
    hide Hops;
    LinkIsHop(store, f, start, x, t, rel, depth[x]);
    HopsGrow(store, f, start, depth[x] + 1, limit);
  }

  lemma LinkIsHop(store: Store, f: Filter, start: string, x: string, t: string, rel: string, d: nat)
    requires x in store && x in Hops(store, f, start, d) && HasLink(store[x], t, rel)
    requires (f.rels.Some? ==> rel in f.rels.value) && !f.isAgentUri(t)
    ensures t in Hops(store, f, start, d + 1)
  {
    LinksAre(store[x], t, rel);
    hide HasLink;
    assert t in Next(store, f, x);
  }

  lemma EdgesAreLinks(store: Store, f: Filter, limit: nat, depth: map<string, nat>, edges: seq<Edge>)
    requires EdgesAre(store, f, limit, depth, edges)
    ensures forall e :: e in edges ==>
              && e.source in store && e.source in depth && depth[e.source] < limit
              && (f.rels.Some? ==> e.rel in f.rels.value) && !f.isAgentUri(e.target)
              && HasLink(store[e.source], e.target, e.rel)
  {
    forall e | e in edges ensures HasLink(store[e.source], e.target, e.rel) {
      LinksAre(store[e.source], e.target, e.rel);
    }
  }

  /** The request's depth: three unless it says otherwise, never more than five. */
  method Traverse(store: Store, start: string, f: Filter, wanted: Option<int>)
    returns (nodes: seq<Chunk>, edges: seq<Edge>, ghost depth: map<string, nat>)
    requires Keyed(store)
    ensures forall c :: c in nodes <==> c.id in store && store[c.id] == c && c.id in depth
    ensures start in depth && depth[start] == 0 && forall x :: x in depth ==> depth[x] <= 5
    ensures
      var limit := if wanted.None? then 3 else if wanted.value > 5 then 5 else wanted.value;
      FollowsLinks(store, f, limit, depth, edges) && forall x :: x in depth && x != start ==> depth[x] <= limit
  {
    hide FollowsLinks, EdgesAre, Hops;
    var asked := if wanted.Some? then wanted.value else 3;
    nodes, edges, depth := Search(store, start, f, if asked < 5 then asked else 5);
  }

  /** The links that a visited id is left by: none if it is not stored or sits at the limit. */
  ghost function Onward(store: Store, f: Filter, id: string, d: nat, limit: nat, visited: set<string>): seq<Link> {
    if id in store && d < limit then Followed(Backlinks.GetLinks(store[id]), f, visited) else []
  }

  method Expand(store: Store, f: Filter, id: string, d: nat, maxDepth: int, visited: set<string>)
    returns (edges: seq<Edge>, queue: Queue)
    ensures edges == EdgesOf(id, Onward(store, f, id, d, Limit(maxDepth), visited))
    ensures queue == QueueOf(Onward(store, f, id, d, Limit(maxDepth), visited), d + 1)
  {
    if id !in store || d >= maxDepth {
      return [], [];
    }
    edges, queue := FollowLinks(id, d, Backlinks.GetLinks(store[id]), f, visited);
  }

  lemma SearchStart(store: Store, f: Filter, start: string, limit: nat)
    ensures Searching(store, f, start, limit, [(start, 0)], map[], [], [])
  {
    assert [(start, 0)][0] == (start, 0);
  }

  lemma HeadInUniverse(store: Store, f: Filter, start: string, limit: nat, queue: Queue, depth: map<string, nat>, nodes: seq<Chunk>, edges: seq<Edge>)
    requires queue != [] && Searching(store, f, start, limit, queue, depth, nodes, edges)
    ensures queue[0].0 in Universe(store, f, start) && queue[0].1 <= limit
  {
    assert Reached(store, f, start, limit, depth, edges, queue[0].0, queue[0].1);
    HopsInUniverse(store, f, start, queue[0].1);
  }

  lemma VisitKeeps(store: Store, f: Filter, start: string, limit: nat, queue: Queue, depth: map<string, nat>,
                   nodes: seq<Chunk>, edges: seq<Edge>, visited: set<string>)
    requires Keyed(store) && queue != [] && queue[0].0 !in depth && Searching(store, f, start, limit, queue, depth, nodes, edges)
    requires visited == depth.Keys + {queue[0].0}
    ensures
      var (id, d) := queue[0];
      var followed := Onward(store, f, id, d, limit, visited);
      Searching(store, f, start, limit, queue[1..] + QueueOf(followed, d + 1), depth[id := d],
                if id in store then nodes + [store[id]] else nodes, edges + EdgesOf(id, followed))
  {
    hide Hops, Layered, Sound, Expanded, EdgesAre, Followed, NodesAre, EdgesOf, QueueOf;
    var (id, d) := queue[0];
    var followed := Onward(store, f, id, d, limit, visited);
    if id in store && d < limit {
      FollowedMembers(Backlinks.GetLinks(store[id]), f, visited);
    }
    assert forall l :: l in followed ==> l.target in Next(store, f, id);
    VisitLayered(queue, depth, followed);
    VisitNodes(store, depth, nodes, id, d);
    VisitSound(store, f, start, limit, queue, depth, edges, followed);
    VisitExpanded(store, f, limit, queue, depth, followed, visited);
    VisitEdges(store, f, limit, depth, edges, id, d, followed);
    DueSkipped(queue, depth, depth[id := d], start, 0);
    DueMore(queue[1..], QueueOf(followed, d + 1), depth[id := d], start, 0);
  }

  lemma SearchDone(store: Store, f: Filter, start: string, limit: nat, depth: map<string, nat>, nodes: seq<Chunk>, edges: seq<Edge>)
    requires Keyed(store) && Searching(store, f, start, limit, [], depth, nodes, edges)
    ensures EdgesAre(store, f, limit, depth, edges)
    ensures forall i, j :: 0 <= i < j < |nodes| ==> nodes[i].id != nodes[j].id
    ensures forall x :: x in depth ==> x in Hops(store, f, start, depth[x])
    ensures depth.Keys == Hops(store, f, start, limit)
    ensures forall x, k :: x in depth && 0 <= k < depth[x] ==> x !in Hops(store, f, start, k)
    ensures forall c :: c in nodes <==> c.id in store && store[c.id] == c && c.id in Hops(store, f, start, limit)
    ensures forall c :: c in nodes && c.id != start ==>
              exists e :: e in edges && e.target == c.id && e.source in store && store[e.source] in nodes
                          && e.source in depth && depth[e.source] < depth[c.id]
  {
    forall x ensures x in depth <==> x in Hops(store, f, start, limit) {
      if x in Hops(store, f, start, limit) {
        Complete(store, f, start, limit, depth, limit, x);
      }
      if x in depth {
        HopsGrow(store, f, start, depth[x], limit);
      }
    }
    forall x, k | x in depth && 0 <= k < depth[x] ensures x !in Hops(store, f, start, k) {
      if x in Hops(store, f, start, k) {
        Complete(store, f, start, limit, depth, k, x);
      }
    }
    forall x | x in depth ensures Reached(store, f, start, limit, depth, edges, x, depth[x]) {
    }
    forall c | c in nodes && c.id != start
      ensures exists e :: e in edges && e.target == c.id && e.source in store && store[e.source] in nodes
                          && e.source in depth && depth[e.source] < depth[c.id]
    {
      assert Justified(edges, store, depth, c.id, depth[c.id]);
      var e :| e in edges && e.target == c.id && e.source in depth && e.source in store && depth[e.source] + 1 == depth[c.id];
      assert store[e.source] in nodes;
    }
  }

  lemma {:induction false} HopsGrow(store: Store, f: Filter, start: string, j: nat, k: nat)
    requires j <= k
    ensures Hops(store, f, start, j) <= Hops(store, f, start, k)
    decreases k - j
  {
    if j < k {
      HopsGrow(store, f, start, j, k - 1);
    }
  }

  /** The search and the reverse index agree: a link is followed backwards by exactly the chunks it leads from. */
  lemma LinksMatchBacklinks(store: Store, source: string, target: string)
    requires source in store && Keyed(store)
    ensures target in Next(store, Filter(None, _ => false), source) <==>
      target in Backlinks.Reverse(store) && source in Backlinks.Reverse(store)[target]
  {
    Backlinks.NamedIff(store, target);
    assert Next(store, Filter(None, _ => false), source) == Backlinks.Targets(store[source]);
  }
}
