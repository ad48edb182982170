// The graph of algorithm.py: Edge, Vertex and the vertices they link.
//
// Every Vertex object of the source is an index into an arena: the
// class Graph keeps one entry per vertex in each of its sequences, so
// `g.minDistance[v]` is the `min_distance` field of vertex `v`, and an
// Edge names its endpoints by index instead of by reference.
module GraphModel {
  import opened Wrappers

  /** A latitude/longitude pair; the model only ever copies these. */
  datatype Coord = Coord(lat: real, lon: real)

  /** An edge `startVertex -> endVertex` carrying its weight in meters. */
  datatype Edge = Edge(weight: real, startVertex: nat, endVertex: nat)

  /** A `min_distance` label: `float("inf")` or a finite distance. */
  datatype Dist = Inf | Fin(value: real)

  /** Python's `<` on two labels, `inf` being above every finite value. */
  predicate Less(a: Dist, b: Dist) {
    match a
    case Inf => false
    case Fin(x) => b.Inf? || x < b.value
  }

  /** `a <= b` on labels. */
  predicate AtMost(a: Dist, b: Dist) {
    !Less(b, a)
  }

  /** `label + weight`; `inf + w` stays `inf`. */
  function Add(d: Dist, w: real): Dist {
    match d
    case Inf => Inf
    case Fin(x) => Fin(x + w)
  }

  /** Python's `int()` on a finite float: truncation toward zero. */
  function Truncate(x: real): (r: int)
    ensures x >= 0.0 ==> r as real <= x < r as real + 1.0
    ensures x < 0.0 ==> r as real - 1.0 < x <= r as real
    ensures (x >= 0.0 ==> r >= 0) && (x <= 0.0 ==> r <= 0)
  {
    if x >= 0.0 then x.Floor else -((-x).Floor)
  }

  /** The comparison is a strict total order whose `inf` is the top element. */
  lemma LessIsStrictTotalOrder(a: Dist, b: Dist, c: Dist)
    ensures !Less(a, a)
    ensures Less(a, b) ==> !Less(b, a)
    ensures Less(a, b) && Less(b, c) ==> Less(a, c)
    ensures a == b || Less(a, b) || Less(b, a)
    ensures a.Fin? ==> Less(a, Inf)
    ensures a.Fin? && b.Fin? ==> (Less(a, b) <==> a.value < b.value)
  {
  }

  /** Each edge sits in the adjacency list of its own start vertex and ends inside the arena. */
  ghost predicate EdgesWellFormed(adj: seq<seq<Edge>>) {
    forall u, k :: 0 <= u < |adj| && 0 <= k < |adj[u]| ==>
      adj[u][k].startVertex == u && adj[u][k].endVertex < |adj|
  }

  ghost predicate NonNegativeWeights(adj: seq<seq<Edge>>) {
    forall u, k :: 0 <= u < |adj| && 0 <= k < |adj[u]| ==> adj[u][k].weight >= 0.0
  }

  /** `p` is a walk along edges of the graph from `a` to `b`. */
  ghost predicate IsPath(adj: seq<seq<Edge>>, p: seq<Edge>, a: nat, b: nat) {
    && (|p| == 0 ==> a == b)
    && (|p| > 0 ==> p[0].startVertex == a && p[|p| - 1].endVertex == b)
    && (forall i :: 0 <= i < |p| ==> p[i].startVertex < |adj| && p[i] in adj[p[i].startVertex])
    && (forall i :: 0 <= i < |p| - 1 ==> p[i].endVertex == p[i + 1].startVertex)
  }

  /** Some walk leads from `a` to `b`. */
  ghost predicate Reaches(adj: seq<seq<Edge>>, a: nat, b: nat) {
    exists p :: IsPath(adj, p, a, b)
  }

  /** Total weight of a walk. */
  ghost function Weight(p: seq<Edge>): real {
    if p == [] then 0.0 else Weight(p[..|p| - 1]) + p[|p| - 1].weight
  }

  /** The labels a freshly constructed Vertex carries (algorithm.py, Vertex.__init__). */
  ghost predicate FreshRunState(dist: seq<Dist>, visited: seq<bool>, pred: seq<Option<nat>>) {
    |visited| == |dist| && |pred| == |dist| &&
    forall v :: 0 <= v < |dist| ==> dist[v] == Inf && !visited[v] && pred[v] == None
  }

  /** All Vertex objects of one graph, field by field. */
  class Graph {
    var names: seq<string>
    var coordinates: seq<Coord>
    var adjacency: seq<seq<Edge>>
    var minDistance: seq<Dist>
    var visited: seq<bool>
    var predecessor: seq<Option<nat>>
    // The order in which a run of the algorithm finalised each visited vertex.
    ghost var rank: seq<nat>

    ghost predicate Valid()
      reads this
    {
      && |coordinates| == |names|
      && |adjacency| == |names|
      && |minDistance| == |names|
      && |visited| == |names|
      && |predecessor| == |names|
      && |rank| == |names|
      && EdgesWellFormed(adjacency)
    }

    ghost predicate Fresh()
      reads this
    {
      FreshRunState(minDistance, visited, predecessor)
    }

    constructor ()
      ensures Valid() && Fresh()
      ensures names == [] && adjacency == []
    {
      names, coordinates, adjacency := [], [], [];
      minDistance, visited, predecessor, rank := [], [], [], [];
    }

    /** `Vertex(name)` followed by setting its coordinates: a new unvisited vertex labelled `inf`. */
    method AddVertex(name: string, coords: Coord) returns (v: nat)
      requires Valid()
      modifies this
      ensures Valid()
      ensures v == |old(names)|
      ensures names == old(names) + [name] && coordinates == old(coordinates) + [coords]
      ensures adjacency == old(adjacency) + [[]]
      ensures minDistance == old(minDistance) + [Inf]
      ensures visited == old(visited) + [false]
      ensures predecessor == old(predecessor) + [None]
    {
      v := |names|;
      names := names + [name];
      coordinates := coordinates + [coords];
      adjacency := adjacency + [[]];
      minDistance := minDistance + [Inf];
      visited := visited + [false];
      predecessor := predecessor + [None];
      rank := rank + [0];
    }

    /** `start.adjacency_list.append(edge)`. */
    method AppendEdge(e: Edge)
      requires Valid() && e.startVertex < |names| && e.endVertex < |names|
      modifies this
      ensures Valid()
      ensures adjacency == old(adjacency)[e.startVertex := old(adjacency)[e.startVertex] + [e]]
      ensures names == old(names) && coordinates == old(coordinates)
      ensures minDistance == old(minDistance) && visited == old(visited)
      ensures predecessor == old(predecessor)
    {
      adjacency := adjacency[e.startVertex := adjacency[e.startVertex] + [e]];
    }

    /**
     * `Vertex.__lt__`: vertices compare by their current `min_distance` and
     * nothing else; a vertex at `inf` is less than none, a finite one less
     * than every vertex at `inf`.
     */
    function VertexLess(u: nat, v: nat): (r: bool)
      reads this
      requires Valid() && u < |names| && v < |names|
      ensures minDistance[u] == Inf ==> !r
      ensures minDistance[u].Fin? && minDistance[v] == Inf ==> r
      ensures minDistance[u].Fin? && minDistance[v].Fin? ==> (r <==> minDistance[u].value < minDistance[v].value)
    {
      Less(minDistance[u], minDistance[v])
    }
  }
}
