// Class Map of app.py: load_points builds the vertices from the points file
// and generate_map runs DijkstraAlgorithm over them.
module App {
  import opened Wrappers
  import opened GraphModel
  import opened DijkstraSpec
  import opened Dijkstra
  import opened MapSpec

  class Map {
    // The vertices live in `graph`; `vertices` maps each name to its index there.
    const graph: Graph
    var vertices: map<string, nat>
    var routeCoords: seq<Coord>
    var minDistance: int

    /** The dictionary and the vertices' fields, as a value. */
    ghost function Snap(): Snapshot
      reads this, graph
    {
      Snapshot(vertices, graph.names, graph.coordinates, graph.minDistance, graph.visited,
               graph.predecessor, graph.adjacency)
    }

    ghost predicate Valid()
      reads this, graph
    {
      graph.Valid() && Consistent(Snap())
    }

    constructor ()
      ensures Valid() && fresh(graph) && graph.Fresh()
      ensures vertices == map[] && graph.names == []
      ensures routeCoords == [] && minDistance == 0
    {
      graph := new Graph();
      vertices := map[];
      routeCoords := [];
      minDistance := 0;
    }

    /**
     * The body of `for adj_pt in val["adjacents"]` (app.py:74-80): one step of
     * `LinkStep` on the live objects.
     */
    method LinkAdjacent(key: string, adjPt: string, data: map<string, Point>, distance: (Coord, Coord) -> real)
      returns (r: Result<()>)
      requires graph.Valid() && Addressable(Snap()) && key in vertices
      modifies this`vertices, graph
      ensures graph.Valid()
      ensures var t := LinkStep(old(Snap()), key, adjPt, data, distance);
                && (r.Failure? <==> t.Failure?)
                && (r.Failure? ==> r.error == t.error && Snap() == old(Snap()))
                && (r.Success? ==> Snap() == t.value)
    {
      if adjPt !in vertices {
        if adjPt !in data {
          return Failure(KeyError(adjPt));
        }
        var v := graph.AddVertex(adjPt, data[adjPt].coordinates);
        vertices := vertices[adjPt := v];
      }
      var u, w := vertices[key], vertices[adjPt];
      graph.AppendEdge(Edge(distance(graph.coordinates[u], graph.coordinates[w]), u, w));
      r := Success(());
    }

    /**
     * One iteration of `for key, val in data.items()` (app.py:70-80): `LoadKey`
     * on the live objects. After a KeyError the vertices added so far stay.
     */
    method LoadPoint(key: string, data: map<string, Point>, distance: (Coord, Coord) -> real)
      returns (r: Result<()>)
      requires Valid() && key in data && NonNegative(distance)
      modifies this`vertices, graph
      ensures graph.Valid()
      ensures var t := LoadKey(old(Snap()), key, data, distance);
                && (r.Failure? <==> t.Failure?)
                && (r.Failure? ==> r.error == t.error && Consistent(Snap()))
                && (r.Success? ==> Snap() == t.value)
    {
      if key !in vertices {
        AddNameMeaning(Snap(), key, data);
        var v := graph.AddVertex(key, data[key].coordinates);
        vertices := vertices[key := v];
      }
      ghost var s1 := Snap();
      var adjs := data[key].adjacents;
      var j := 0;
      while j < |adjs|
        invariant graph.Valid() && key in vertices && j <= |adjs|
        invariant LinkAll(s1, key, adjs[..j], data, distance) == Success(Snap())
      {
        LinkAllSnoc(s1, key, adjs, j, data, distance);
        r := LinkAdjacent(key, adjs[j], data, distance);
        if r.Failure? {
          LinkAllFailurePersists(s1, key, adjs, j + 1, data, distance);
          LinkAllEffect(s1, key, adjs[..j], data, distance);
          return;
        }
        j := j + 1;
      }
      assert adjs[..j] == adjs;
      r := Success(());
    }

    /**
     * The next key of `load_points` (app.py:70-80) after the keys `order` were
     * loaded into `s0`: the load so far extended by `key`, or the KeyError that
     * ends the whole load.
     */
    method LoadNext(key: string, ghost s0: Snapshot, ghost order: seq<string>, data: map<string, Point>,
                    distance: (Coord, Coord) -> real) returns (r: Result<()>)
      requires graph.Valid() && Consistent(s0) && NonNegative(distance) && key in data
      requires forall i :: 0 <= i < |order| ==> order[i] in data && order[i] != key
      requires forall i, j :: 0 <= i < j < |order| ==> order[i] != order[j]
      requires LoadAll(s0, order, data, distance) == Success(Snap())
      modifies this`vertices, graph
      ensures graph.Valid()
      ensures r.Success? ==> LoadAll(s0, order + [key], data, distance) == Success(Snap())
      ensures r.Failure? ==>
                && Consistent(Snap()) && !Resolvable(data, s0.vertices.Keys)
                && exists k, a :: k in data && a in data[k].adjacents && a !in data && a !in s0.vertices
                                  && r.error == KeyError(a)
    {
      LoadAllConsistent(s0, order, data, distance);
      LoadAllSnoc(s0, order, key, data, distance);
      r := LoadPoint(key, data, distance);
      if r.Failure? {
        LoadAllFailure(s0, order + [key], data, distance);
      }
    }

    /**
     * `load_points` (app.py:69-80) on the parsed points file, whose keys are
     * visited in an unspecified order: it succeeds exactly when every adjacent
     * resolves, and then leaves the vertices `Loaded` with the whole file.
     */
    method LoadPoints(data: map<string, Point>, distance: (Coord, Coord) -> real) returns (r: Result<()>)
      requires Valid() && NonNegative(distance)
      modifies this`vertices, graph
      ensures Valid()
      ensures r.Success? <==> Resolvable(data, old(vertices).Keys)
      ensures r.Failure? ==> exists k, a :: k in data && a in data[k].adjacents && a !in data && a !in old(vertices)
                                            && r.error == KeyError(a)
      ensures r.Success? ==> Loaded(old(Snap()), Snap(), data.Keys, data, distance)
      ensures r.Success? && NamesOf(data, data.Keys) <= old(vertices).Keys ==>
                vertices == old(vertices) && graph.names == old(graph.names)
    {
      var remaining := data.Keys;
      ghost var order: seq<string> := [];
      while remaining != {}
        invariant graph.Valid() && remaining <= data.Keys
        invariant forall i :: 0 <= i < |order| ==> order[i] in data && order[i] !in remaining
        invariant forall i, j :: 0 <= i < j < |order| ==> order[i] != order[j]
        invariant forall k :: k in data && k !in remaining ==> k in order
        invariant LoadAll(old(Snap()), order, data, distance) == Success(Snap())
        decreases remaining
      {
        var key :| key in remaining;
        r := LoadNext(key, old(Snap()), order, data, distance);
        if r.Failure? {
          return;
        }
        remaining := remaining - {key};
        order := order + [key];
      }
      LoadAllWhole(old(Snap()), order, data, distance);
      r := Success(());
    }

    /**
     * The route query of `generate_map` (app.py:115-118): runs the algorithm
     * from `start`, then stores the route to `destination` and its length in
     * meters; an unknown name raises KeyError, an unreachable destination
     * OverflowError (from `int(inf)`).
     */
    method FindRoute(start: string, destination: string) returns (r: Result<()>)
      requires Valid() && graph.Fresh()
      modifies this`routeCoords, this`minDistance, graph
      ensures Valid()
      ensures graph.names == old(graph.names) && graph.coordinates == old(graph.coordinates)
      ensures graph.adjacency == old(graph.adjacency)
      ensures start !in vertices ==> r == Failure(KeyError(start))
      ensures start !in vertices ==>
                && graph.minDistance == old(graph.minDistance) && graph.visited == old(graph.visited)
                && graph.predecessor == old(graph.predecessor)
      ensures start in vertices ==>
                Solved(graph.adjacency, graph.minDistance, graph.visited, graph.predecessor, graph.rank, vertices[start])
      ensures start in vertices && destination !in vertices ==> r == Failure(KeyError(destination))
      ensures start in vertices && destination in vertices ==>
                (r == Failure(OverflowError) <==> graph.minDistance[vertices[destination]] == Inf)
      ensures start in vertices && destination in vertices && graph.minDistance[vertices[destination]].Fin? ==>
                r.Success?
      ensures start in vertices && destination in vertices && Reaches(graph.adjacency, vertices[start], vertices[destination]) ==> r.Success?
      ensures r.Success? ==>
                && start in vertices && destination in vertices
                && graph.minDistance[vertices[destination]].Fin?
                && minDistance == Truncate(graph.minDistance[vertices[destination]].value)
                && routeCoords == CoordinatesOf(graph.coordinates,
                                                Chain(graph.visited, graph.predecessor, graph.rank, vertices[destination]))
      ensures r.Failure? ==> routeCoords == old(routeCoords) && minDistance == old(minDistance)
    {
      if start !in vertices {
        return Failure(KeyError(start));
      }
      var algorithm := new DijkstraAlgorithm();
      ghost var before := Snap();
      ghost var order := algorithm.Calculate(graph, vertices[start]);
      RelabelKeepsConsistent(before, graph.minDistance, graph.visited, graph.predecessor);
      if destination !in vertices {
        return Failure(KeyError(destination));
      }
      if graph.minDistance[vertices[destination]] == Inf {
        Unreachable(graph.adjacency, graph.minDistance, graph.visited, graph.predecessor, graph.rank,
                    vertices[start], vertices[destination]);
      }
      var path := DijkstraAlgorithm.GetShortestPath(graph, vertices[destination]);
      if path.Failure? {
        return Failure(path.error);
      }
      routeCoords, minDistance := path.value.0, path.value.1;
      r := Success(());
    }

    /**
     * `generate_map(start, destination)` up to the rendering (app.py:113-118):
     * loads the points file, then finds the route from `start` to `destination`.
     */
    method GenerateMap(data: map<string, Point>, distance: (Coord, Coord) -> real, start: string, destination: string)
      returns (r: Result<()>)
      requires Valid() && graph.Fresh() && NonNegative(distance)
      modifies this, graph
      ensures Valid()
      ensures !Resolvable(data, old(vertices).Keys) ==> r.Failure? && r.error.KeyError?
      ensures r.Success? || r == Failure(OverflowError) ==>
                && Resolvable(data, old(vertices).Keys)
                && vertices.Keys == old(vertices).Keys + NamesOf(data, data.Keys)
                && start in vertices && destination in vertices
                && Solved(graph.adjacency, graph.minDistance, graph.visited, graph.predecessor, graph.rank, vertices[start])
      ensures r == Failure(OverflowError) ==> graph.minDistance[vertices[destination]] == Inf
      ensures Resolvable(data, old(vertices).Keys) ==>
                && (start !in vertices ==> r == Failure(KeyError(start)))
                && (start in vertices && destination !in vertices ==> r == Failure(KeyError(destination)))
                && (start in vertices && destination in vertices ==>
                      && (r.Success? <==> graph.minDistance[vertices[destination]].Fin?)
                      && (r == Failure(OverflowError) <==> graph.minDistance[vertices[destination]] == Inf))
      ensures r.Success? ==>
                && graph.minDistance[vertices[destination]].Fin?
                && minDistance == Truncate(graph.minDistance[vertices[destination]].value)
                && routeCoords == CoordinatesOf(graph.coordinates,
                                                Chain(graph.visited, graph.predecessor, graph.rank, vertices[destination]))
      ensures r.Failure? ==> routeCoords == old(routeCoords) && minDistance == old(minDistance)
      ensures Resolvable(data, old(vertices).Keys) ==> Built(old(Snap()), Snap(), data.Keys, data, distance)
      ensures Resolvable(data, old(vertices).Keys) ==>
                start in vertices && destination in vertices && Reaches(graph.adjacency, vertices[start], vertices[destination]) ==> r.Success?
    {
      r := LoadPoints(data, distance);
      if r.Failure? {
        return;
      }
      LoadKeepsFresh(old(Snap()), Snap(), data);
      LoadedBuilt(old(Snap()), Snap(), data.Keys, data, distance);
      ghost var loaded := Snap();
      r := FindRoute(start, destination);
      BuiltRelabelled(old(Snap()), loaded, Snap(), data.Keys, data, distance);
    }
  }
}
