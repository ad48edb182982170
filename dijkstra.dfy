// DijkstraAlgorithm of algorithm.py:78-164: the label-setting run over a
// GraphModel.Graph and the walk back along the predecessor links.
module Dijkstra {
  import opened Wrappers
  import opened GraphModel
  import opened DijkstraSpec

  /**
   * Idealised `heappop` choice: the position of an entry that no other queued
   * vertex is less than under `Vertex.__lt__`.
   */
  function ArgMin(g: Graph, heap: seq<nat>): (i: nat)
    reads g
    requires g.Valid() && |heap| > 0 && forall j :: 0 <= j < |heap| ==> heap[j] < |g.names|
    ensures i < |heap|
    ensures forall j :: 0 <= j < |heap| ==> !g.VertexLess(heap[j], heap[i])
  {
    if |heap| == 1 then 0
    else
      var i := ArgMin(g, heap[1..]) + 1;
      if !g.VertexLess(heap[i], heap[0]) then 0 else i
  }

  /** The coordinates of a list of vertices, in the same order. */
  function CoordinatesOf(coords: seq<Coord>, c: seq<nat>): (r: seq<Coord>)
    requires forall i :: 0 <= i < |c| ==> c[i] < |coords|
    ensures |r| == |c| && forall i :: 0 <= i < |c| ==> r[i] == coords[c[i]]
  {
    if c == [] then [] else [coords[c[0]]] + CoordinatesOf(coords, c[1..])
  }

  class DijkstraAlgorithm {
    // The frontier list; entries are vertex indices ordered by their current label.
    var heap: seq<nat>

    constructor ()
      ensures heap == []
    {
      heap := [];
    }

    /** One pass of the loop body over `edge` (algorithm.py:124-131). */
    method Relax(g: Graph, edge: Edge)
      requires g.Valid() && edge.startVertex < |g.names| && edge.endVertex < |g.names|
      modifies this, g
      ensures g.Valid()
      ensures g.names == old(g.names) && g.coordinates == old(g.coordinates) && g.adjacency == old(g.adjacency)
      ensures g.visited == old(g.visited) && g.rank == old(g.rank)
      ensures RelaxedStep(old(g.adjacency), old(g.minDistance), old(g.predecessor), old(heap),
                          edge, g.minDistance, g.predecessor, heap)
      ensures AtMost(g.minDistance[edge.endVertex], old(g.minDistance[edge.endVertex]))
      ensures g.minDistance != old(g.minDistance) ==>
                g.predecessor[edge.endVertex] == Some(edge.startVertex) &&
                g.minDistance[edge.endVertex] == Add(old(g.minDistance[edge.startVertex]), edge.weight)
    {
      var start := edge.startVertex;
      var target := edge.endVertex;
      var newDistance := Add(g.minDistance[start], edge.weight);
      if Less(newDistance, g.minDistance[target]) {
        g.predecessor := g.predecessor[target := Some(start)];
        g.minDistance := g.minDistance[target := newDistance];
        heap := heap + [target];
      }
    }

    /** `for edge in actual_vertex.adjacency_list`: relaxes every edge out of `u` in list order. */
    method ScanEdges(g: Graph, s: nat, u: nat, ghost order: seq<nat>)
      requires g.Valid()
      requires ScanInv(g.adjacency, g.minDistance, g.visited, g.predecessor, g.rank, order, heap, s, u, 0)
      modifies this, g
      ensures g.Valid()
      ensures g.names == old(g.names) && g.coordinates == old(g.coordinates) && g.adjacency == old(g.adjacency)
      ensures g.visited == old(g.visited) && g.rank == old(g.rank)
      ensures ScanInv(g.adjacency, g.minDistance, g.visited, g.predecessor, g.rank, order, heap, s, u, |g.adjacency[u]|)
    {
      var k := 0;
      while k < |g.adjacency[u]|
        invariant g.Valid()
        invariant g.names == old(g.names) && g.coordinates == old(g.coordinates) && g.adjacency == old(g.adjacency)
        invariant g.visited == old(g.visited) && g.rank == old(g.rank)
        invariant ScanInv(g.adjacency, g.minDistance, g.visited, g.predecessor, g.rank, order, heap, s, u, k)
      {
        ghost var dist, pred, queue := g.minDistance, g.predecessor, heap;
        Relax(g, g.adjacency[u][k]);
        RelaxStep(g.adjacency, dist, g.visited, pred, g.rank, order, queue, s, u, k,
                  g.minDistance, g.predecessor, heap);
        k := k + 1;
      }
    }

    /**
     * `heapq.heappop(self.heap)`, idealised: removes one entry of a vertex
     * that no other queued vertex is less than (`Vertex.__lt__`).
     */
    method PopMin(g: Graph) returns (u: nat, i: nat)
      requires g.Valid() && heap != [] && forall x :: x in heap ==> x < |g.names|
      modifies this`heap
      ensures i < |old(heap)| && u == old(heap)[i] && heap == RemoveAt(old(heap), i)
      ensures forall j :: 0 <= j < |old(heap)| ==> old(heap)[j] < |g.names|
      ensures forall j :: 0 <= j < |old(heap)| ==> AtMost(g.minDistance[u], g.minDistance[old(heap)[j]])
    {
      forall j | 0 <= j < |heap|
        ensures heap[j] < |g.names|
      {
        assert heap[j] in heap;
      }
      i := ArgMin(g, heap);
      u := heap[i];
      heap := RemoveAt(heap, i);
    }

    /**
     * The rest of one pass of the `while` body for an unvisited vertex `u`
     * (algorithm.py:123-133): scans its edges, then marks it visited. The
     * ghost result appends `u` to the scan order.
     */
    method Settle(g: Graph, s: nat, u: nat, ghost order: seq<nat>) returns (ghost order': seq<nat>)
      requires g.Valid() && u < |g.names| && !g.visited[u]
      requires ScanInv(g.adjacency, g.minDistance, g.visited, g.predecessor, g.rank, order, heap, s, u, 0)
      modifies this, g
      ensures g.Valid()
      ensures g.names == old(g.names) && g.coordinates == old(g.coordinates) && g.adjacency == old(g.adjacency)
      ensures g.visited == old(g.visited)[u := true] && order' == order + [u]
      ensures Inv(g.adjacency, g.minDistance, g.visited, g.predecessor, g.rank, order', heap, s)
      ensures CountUnvisited(g.visited) < CountUnvisited(old(g.visited))
    {
      ScanEdges(g, s, u, order);
      FinishScan(g.adjacency, g.minDistance, g.visited, g.predecessor, g.rank, order, heap, s, u);
      FinalisingDecreasesCount(g.visited, u);
      g.visited := g.visited[u := true];
      g.rank := g.rank[u := |order|];
      order' := order + [u];
    }

    /**
     * `calculate(start_vertex)`: labels every vertex with its distance from `s`.
     * The ghost result lists the vertices whose adjacency lists were scanned, in order.
     */
    method Calculate(g: Graph, s: nat) returns (ghost order: seq<nat>)
      requires g.Valid() && g.Fresh() && NonNegativeWeights(g.adjacency) && s < |g.names|
      requires heap == []
      modifies this, g
      ensures g.Valid() && heap == []
      ensures g.names == old(g.names) && g.coordinates == old(g.coordinates) && g.adjacency == old(g.adjacency)
      ensures Solved(g.adjacency, g.minDistance, g.visited, g.predecessor, g.rank, s)
      ensures forall i, j :: 0 <= i < j < |order| ==> order[i] != order[j]
      ensures forall v :: 0 <= v < |g.names| ==> (v in order <==> g.visited[v])
    {
      InitialState(g.adjacency, g.minDistance, g.visited, g.predecessor, g.rank, s);
      g.minDistance := g.minDistance[s := Fin(0.0)];
      heap := heap + [s];
      order := [];
      while heap != []
        invariant g.Valid()
        invariant g.names == old(g.names) && g.coordinates == old(g.coordinates) && g.adjacency == old(g.adjacency)
        invariant Inv(g.adjacency, g.minDistance, g.visited, g.predecessor, g.rank, order, heap, s)
        decreases CountUnvisited(g.visited), |heap|
      {
        ghost var before := heap;
        var actualVertex, i := PopMin(g);
        if g.visited[actualVertex] {
          SkipFinalised(g.adjacency, g.minDistance, g.visited, g.predecessor, g.rank, order, before, s, i);
          continue;
        }
        StartScan(g.adjacency, g.minDistance, g.visited, g.predecessor, g.rank, order, before, s, i);
        order := Settle(g, s, actualVertex, order);
      }
      Finished(g.adjacency, g.minDistance, g.visited, g.predecessor, g.rank, order, s);
    }

    /**
     * `get_shortest_path(vertex)`: the coordinates along the predecessor chain,
     * target first, and the label truncated to whole meters. `int(inf)` raises
     * before any coordinate is collected.
     */
    static method GetShortestPath(g: Graph, v: nat) returns (r: Result<(seq<Coord>, int)>)
      requires g.Valid() && v < |g.names| && PredOrdered(g.visited, g.predecessor, g.rank, -1)
      ensures g.minDistance[v] == Inf <==> r == Failure(OverflowError)
      ensures g.minDistance[v].Fin? ==>
                && r.Success?
                && r.value.1 == Truncate(g.minDistance[v].value)
                && r.value.0 == CoordinatesOf(g.coordinates, Chain(g.visited, g.predecessor, g.rank, v))
    {
      if g.minDistance[v] == Inf {
        return Failure(OverflowError);
      }
      var distanceMeters := Truncate(g.minDistance[v].value);
      var coordinatesList := [];
      var actualVertex: Option<nat> := Some(v);
      ghost var chain := Chain(g.visited, g.predecessor, g.rank, v);
      while actualVertex.Some?
        invariant |coordinatesList| <= |chain|
        invariant forall i :: 0 <= i < |coordinatesList| ==> coordinatesList[i] == g.coordinates[chain[i]]
        invariant actualVertex == if |coordinatesList| < |chain| then Some(chain[|coordinatesList|]) else None
        decreases |chain| - |coordinatesList|
      {
        coordinatesList := coordinatesList + [g.coordinates[actualVertex.value]];
        actualVertex := g.predecessor[actualVertex.value];
      }
      assert coordinatesList == CoordinatesOf(g.coordinates, chain);
      return Success((coordinatesList, distanceMeters));
    }
  }
}
