/**
 Transitive inheritors (core/cppgc.rs): the types that derive, directly or not, from a root type.
 */
module Inheritance {
  import opened Sequences

  type TypeId = nat

  datatype Edge = Edge(base: TypeId, derived: TypeId)

  /** `derived` follows from `base` along a chain of edges, given by the types it passes through. */
  ghost predicate IsPath(edges: seq<Edge>, path: seq<TypeId>) {
    forall i :: 0 < i < |path| ==> Edge(path[i - 1], path[i]) in edges
  }

  ghost predicate Reaches(edges: seq<Edge>, base: TypeId, derived: TypeId) {
    exists path: seq<TypeId> :: path != [] && path[0] == base && path[|path| - 1] == derived && IsPath(edges, path)
  }

  function Targets(edges: seq<Edge>): set<TypeId> {
    set e <- edges :: e.derived
  }

  function Children(adjacency: map<TypeId, seq<TypeId>>, t: TypeId): seq<TypeId> {
    if t in adjacency then adjacency[t] else []
  }

  /** Going one edge further. */
  lemma ReachesOn(edges: seq<Edge>, a: TypeId, b: TypeId, c: TypeId)
    requires Reaches(edges, a, b) && Edge(b, c) in edges
    ensures Reaches(edges, a, c)
  {
    var path: seq<TypeId> :| path != [] && path[0] == a && path[|path| - 1] == b && IsPath(edges, path);
    var longer := path + [c];
    forall i | 0 < i < |longer| ensures Edge(longer[i - 1], longer[i]) in edges {
      if i < |path| {
        assert Edge(path[i - 1], path[i]) in edges;
      }
    }
    assert IsPath(edges, longer);
  }

  lemma ReachesSelf(edges: seq<Edge>, a: TypeId)
    ensures Reaches(edges, a, a)
  {
    assert IsPath(edges, [a]);
  }

  /** A set that holds the root and is closed under the edges holds everything the root reaches. */
  lemma {:induction false} ClosedHoldsPath(edges: seq<Edge>, visited: set<TypeId>, path: seq<TypeId>, n: nat)
    requires n < |path| && path[0] in visited && IsPath(edges, path)
    requires forall e :: e in edges && e.base in visited ==> e.derived in visited
    ensures path[n] in visited
  {
    if n > 0 {
      ClosedHoldsPath(edges, visited, path, n - 1);
      assert Edge(path[n - 1], path[n]) in edges;
    }
  }

  lemma ClosedHoldsReached(edges: seq<Edge>, visited: set<TypeId>, root: TypeId)
    requires root in visited
    requires forall e :: e in edges && e.base in visited ==> e.derived in visited
    ensures forall t :: Reaches(edges, root, t) ==> t in visited
  {
    forall t | Reaches(edges, root, t) ensures t in visited {
      var path: seq<TypeId> :| path != [] && path[0] == root && path[|path| - 1] == t && IsPath(edges, path);
      ClosedHoldsPath(edges, visited, path, |path| - 1);
    }
  }

  /** The adjacency map of the edges: the derived types of a base, in edge order. */
  ghost function DerivedOf(edges: seq<Edge>, base: TypeId): seq<TypeId> {
    if edges == [] then []
    else
      var last := edges[|edges| - 1];
      DerivedOf(edges[..|edges| - 1], base) + if last.base == base then [last.derived] else []
  }

  lemma {:induction false} DerivedOfEdges(edges: seq<Edge>, base: TypeId)
    ensures forall t :: t in DerivedOf(edges, base) <==> Edge(base, t) in edges
  {
    if edges != [] {
      DerivedOfEdges(edges[..|edges| - 1], base);
      assert edges == edges[..|edges| - 1] + [edges[|edges| - 1]];
    }
  }

  method BuildAdjacency(edges: seq<Edge>) returns (adjacency: map<TypeId, seq<TypeId>>)
    ensures forall t :: Children(adjacency, t) == DerivedOf(edges, t)
  {
    adjacency := map[];
    for i := 0 to |edges|
      invariant forall t :: Children(adjacency, t) == DerivedOf(edges[..i], t)
    {
      var e := edges[i];
      assert edges[..i + 1][..i] == edges[..i];
      adjacency := adjacency[e.base := Children(adjacency, e.base) + [e.derived]];
    }
    assert edges[..|edges|] == edges;
  }

  /** What is visited and still queued: everything visited is reachable, and only queued types may have
      unvisited children. */
  ghost predicate Inv(edges: seq<Edge>, root: TypeId, queue: seq<TypeId>, visited: set<TypeId>,
                      descendants: seq<TypeId>) {
    && root in visited && visited <= {root} + Targets(edges)
    && (forall t :: t in visited ==> Reaches(edges, root, t))
    && Distinct(descendants)
    && (forall t :: t in descendants <==> t in visited && t != root)
    && (forall t :: t in queue ==> t in visited)
  }

  ghost predicate Closed(edges: seq<Edge>, queue: seq<TypeId>, visited: set<TypeId>) {
    forall e :: e in edges && e.base in visited ==> e.base in queue || e.derived in visited
  }

  lemma VisitChild(edges: seq<Edge>, root: TypeId, queue: seq<TypeId>, visited: set<TypeId>,
                   descendants: seq<TypeId>, current: TypeId, child: TypeId)
    requires Inv(edges, root, queue, visited, descendants)
    requires Closed(edges, queue + [current], visited)
    requires current in visited && Edge(current, child) in edges && child !in visited
    ensures Inv(edges, root, queue + [child], visited + {child}, descendants + [child])
    ensures Closed(edges, queue + [child] + [current], visited + {child})
    ensures |Unseen(edges, visited + {child})| < |Unseen(edges, visited)|
  {
    ReachesOn(edges, root, current, child);
    assert Edge(current, child).derived in Targets(edges);
    assert Unseen(edges, visited + {child}) == Unseen(edges, visited) - {child};
  }

  /** With all its children visited, a type needs no place in the queue. */
  lemma Finished(edges: seq<Edge>, queue: seq<TypeId>, visited: set<TypeId>, current: TypeId, children: seq<TypeId>)
    requires Closed(edges, queue + [current], visited)
    requires forall t :: t in children <==> Edge(current, t) in edges
    requires forall k :: 0 <= k < |children| ==> children[k] in visited
    ensures Closed(edges, queue, visited)
  {
    forall e | e in edges && e.base in visited ensures e.base in queue || e.derived in visited {
      assert e == Edge(e.base, e.derived);
    }
  }

  lemma Popped(edges: seq<Edge>, root: TypeId, queue: seq<TypeId>, visited: set<TypeId>, descendants: seq<TypeId>)
    requires queue != [] && Inv(edges, root, queue, visited, descendants)
    ensures Inv(edges, root, queue[..|queue| - 1], visited, descendants) && queue[|queue| - 1] in visited
  {
  }

  lemma Started(edges: seq<Edge>, root: TypeId)
    ensures Inv(edges, root, [root], {root}, []) && Closed(edges, [root], {root})
  {
    ReachesSelf(edges, root);
  }

  /** With the queue empty, the descendants are exactly what the root reaches. */
  lemma Exhausted(edges: seq<Edge>, root: TypeId, visited: set<TypeId>, descendants: seq<TypeId>)
    requires Inv(edges, root, [], visited, descendants) && Closed(edges, [], visited)
    ensures Distinct(descendants)
    ensures forall t :: t in descendants <==> t != root && Reaches(edges, root, t)
  {
    ClosedHoldsReached(edges, visited, root);
  }

  ghost function Unseen(edges: seq<Edge>, visited: set<TypeId>): set<TypeId> {
    Targets(edges) - visited
  }

  /** The inner loop of `find_transitive_inheritors`. */
  method VisitChildren(ghost edges: seq<Edge>, ghost root: TypeId, ghost current: TypeId, children: seq<TypeId>,
                       queue0: seq<TypeId>, visited0: set<TypeId>, descendants0: seq<TypeId>)
    returns (queue: seq<TypeId>, visited: set<TypeId>, descendants: seq<TypeId>)
    requires Inv(edges, root, queue0, visited0, descendants0) && current in visited0
    requires forall t :: t in children <==> Edge(current, t) in edges
    requires Closed(edges, queue0 + [current], visited0)
    ensures Inv(edges, root, queue, visited, descendants) && Closed(edges, queue, visited)
    ensures (queue == queue0 && visited == visited0) || |Unseen(edges, visited)| < |Unseen(edges, visited0)|
  {
    hide Inv, Closed, Unseen;
    queue, visited, descendants := queue0, visited0, descendants0;
    for i := 0 to |children|
      invariant Inv(edges, root, queue, visited, descendants) && visited0 <= visited
      invariant forall k :: 0 <= k < i ==> children[k] in visited
      invariant Closed(edges, queue + [current], visited)
      invariant (queue == queue0 && visited == visited0) || |Unseen(edges, visited)| < |Unseen(edges, visited0)|
    {
      var child := children[i];
      if child !in visited {
        VisitChild(edges, root, queue, visited, descendants, current, child);
        queue, visited, descendants := queue + [child], visited + {child}, descendants + [child];
      }
    }
    Finished(edges, queue, visited, current, children);
  }

  /** `find_transitive_inheritors`: every type reachable from the root, other than the root itself, each
      once; cycles and repeated edges included. */
  method FindTransitiveInheritors(edges: seq<Edge>, root: TypeId) returns (descendants: seq<TypeId>)
    ensures Distinct(descendants)
    ensures forall t :: t in descendants <==> t != root && Reaches(edges, root, t)
  {
    hide Inv, Closed, Unseen, Children, DerivedOf, Distinct, Reaches;
    var adjacency := BuildAdjacency(edges);
    var queue, visited := [root], {root};
    descendants := [];
    Started(edges, root);
    while queue != []
      invariant Inv(edges, root, queue, visited, descendants) && Closed(edges, queue, visited)
      decreases |Unseen(edges, visited)|, |queue|
    {
      var current := queue[|queue| - 1];
      Popped(edges, root, queue, visited, descendants);
      DerivedOfEdges(edges, current);
      assert queue == queue[..|queue| - 1] + [current];
      queue, visited, descendants :=
        VisitChildren(edges, root, current, Children(adjacency, current), queue[..|queue| - 1], visited, descendants);
    }
    Exhausted(edges, root, visited, descendants);
  }
}
