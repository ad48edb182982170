# Campus navigator: Dijkstra core in Dafny

This project models the routing core of a small campus navigator web app.
The app loads a points file into a graph of `Vertex` objects joined by `Edge`s
(`Map.load_points`). It runs `DijkstraAlgorithm.calculate` from the start
building and reads the route back with `get_shortest_path`
(`Map.generate_map`). It also builds the list of buildings offered in its
pickers (`App.init_building_list`). The project proves properties of that
model.

Modules:

- `Wrappers` (`wrappers.dfy`): `Option`, and a `Result` whose error is one of
  the Python exceptions the code can raise (`KeyError`, `IndexError`,
  `OverflowError`).
- `GraphModel` (`graph_model.dfy`):
  - the `Edge` and `Vertex` records of `algorithm.py`;
  - the label type `Dist = Inf | Fin(real)` and Python's comparison, addition
    and `int()` on it;
  - class `Graph`, an arena holding every vertex. Vertex `v`'s `min_distance`
    is `graph.minDistance[v]`, its `adjacency_list` is `graph.adjacency[v]`,
    and so on. An edge names its endpoints by index.
- `DijkstraSpec` (`dijkstra_spec.dfy`):
  - the loop invariant of `calculate`, stated on the values of the vertex
    fields, with one lemma per step of the loop;
  - what a finished run guarantees: no walk is shorter than a final label,
    the predecessor chain is a walk as long as the label, and an `inf` label
    means unreachable.
- `Dijkstra` (`dijkstra.dfy`): class `DijkstraAlgorithm`.
  - Its `heap` field is the frontier.
  - `Calculate` is the `while self.heap` loop.
  - `GetShortestPath` walks the predecessors.
- `MapSpec` (`map_spec.dfy`): `load_points` on values.
  - A `Snapshot` is the `vertices` dictionary plus the vertex fields.
  - Each step of the two nested loops is a function (`LinkStep`, `LinkAll`,
    `LoadKey`, `LoadAll`).
  - `Loaded` says what a finished load leaves behind, for any visiting order
    of the keys.
- `App` (`app.dfy`): class `Map`, whose methods run `load_points` and
  `generate_map` on the live objects.
  - Each method is proved against the `MapSpec` functions through its
    `Snap()` of the current state.
- `Buildings` (`buildings.dfy`): `init_building_list`.
  - The list comprehension and the sort key are modelled as written.
  - `sorted` is modelled as a stable insertion sort over Python's string
    order.

Inputs the code reads from outside become parameters:
- the parsed points file is `data: map<string, Point>`;
- geopy's geodesic distance is `distance: (Coord, Coord) -> real`, assumed
  non-negative (`NonNegative`);
- the building keys are the points file's keys, in file order.

## Model

| member | source | states |
|---|---|---|
| GraphModel.Truncate | algorithm.py:158 | `int()` of a finite label truncates toward zero: for a non-negative label the result is the largest integer not above it |
| GraphModel.Less | algorithm.py:74-75 | float `<` on two labels, `inf` above every finite one; `LessIsStrictTotalOrder` proves it a strict total order |
| GraphModel.Add | algorithm.py:126 | `start.min_distance + edge.weight`: `inf` stays `inf`, a finite label adds the weight; `Relax` and `ChainIsShortestPath` use it as the walk weight |
| GraphModel.Reaches | algorithm.py:102-133 | some walk along the adjacency lists leads from one vertex to the other; `Unreachable` proves that a vertex left at `inf` is not reached from the start |
| GraphModel.LessIsStrictTotalOrder | algorithm.py:74-75 | comparing labels is a strict total order with `inf` above every finite label, and agrees with `<` on finite ones |
| GraphModel.Graph.VertexLess | algorithm.py:74-75 | `a < b` on vertices compares `min_distance` only: never true from `inf`, always true from a finite label to `inf`, `<` on two finite labels |
| GraphModel.Graph.AddVertex | algorithm.py:66-72 | a new vertex gets the next index and its name and coordinates, is unvisited with no predecessor and label `inf`, and has an empty adjacency list; no other vertex changes |
| GraphModel.Graph.AppendEdge | app.py:79-80 | the edge is appended to its start vertex's adjacency list; every other list and field is unchanged |
| Dijkstra.ArgMin | algorithm.py:118 | no queued vertex is less than the popped one under `Vertex.__lt__` (`VertexLess`) |
| Dijkstra.CoordinatesOf | algorithm.py:160-162 | one coordinate pair per vertex of the list, in the same order |
| Dijkstra.DijkstraAlgorithm.constructor | algorithm.py:99-100 | a new algorithm object starts with an empty heap |
| Dijkstra.DijkstraAlgorithm.Relax | algorithm.py:124-131 | a relaxation lowers the end vertex's label only when `start + weight` is strictly smaller, then sets its predecessor to the start and queues it; no label ever rises |
| Dijkstra.DijkstraAlgorithm.ScanEdges | algorithm.py:123-131 | scanning every edge of the popped vertex keeps the scan invariant and leaves all of its edges relaxed |
| Dijkstra.DijkstraAlgorithm.PopMin | algorithm.py:118 | the popped vertex's label is at most that of every queued entry, and exactly one entry, the one at the returned position, leaves the queue |
| Dijkstra.DijkstraAlgorithm.Settle | algorithm.py:123-133 | scanning an unvisited vertex and marking it visited restores the loop invariant, appends it to the scan order and lowers the count of unvisited vertices |
| Dijkstra.DijkstraAlgorithm.Calculate | algorithm.py:102-133 | on fresh vertices with non-negative weights the run ends `Solved`: start labelled 0, labelled exactly when visited, every edge out of a visited vertex relaxed, predecessors consistent and acyclic; each vertex's list is scanned at most once and exactly the visited ones are scanned |
| Dijkstra.DijkstraAlgorithm.GetShortestPath | algorithm.py:135-164 | `inf` raises OverflowError; otherwise the distance is the truncated label and the list holds the coordinates of the predecessor chain, target first |
| DijkstraSpec.RemoveAt | algorithm.py:118 | a pop removes exactly one occurrence of the popped vertex and keeps every other entry, duplicates included (multiset difference) |
| DijkstraSpec.FinalisingDecreasesCount | algorithm.py:133 | marking an unvisited vertex visited lowers the number of unvisited vertices by one, so the loop terminates |
| DijkstraSpec.InitialState | algorithm.py:114-115 | labelling the start 0 and queueing it establishes the loop invariant on fresh vertices |
| DijkstraSpec.SkipFinalised | algorithm.py:118-121 | popping an already visited vertex and skipping it keeps the invariant |
| DijkstraSpec.StartScan | algorithm.py:118-123 | popping an unvisited vertex of least label starts a scan in which it is no farther than any unvisited vertex |
| DijkstraSpec.RelaxStep | algorithm.py:124-131 | relaxing the next edge extends the scan invariant by one edge |
| DijkstraSpec.FinishScan | algorithm.py:133 | marking the scanned vertex visited restores the loop invariant with the vertex appended to the scan order |
| DijkstraSpec.Finished | algorithm.py:117 | an empty frontier leaves the graph `Solved`, each vertex scanned at most once |
| DijkstraSpec.Chain | algorithm.py:160-162 | the predecessor chain starts at the vertex, follows `predecessor` links and ends at a vertex without one |
| DijkstraSpec.NoShorterPath | algorithm.py:102-133 | after a run every vertex reachable from the start is visited, and no walk to it weighs less than its label |
| DijkstraSpec.ChainIsShortestPath | algorithm.py:128-130 | the predecessor chain of a labelled vertex, reversed, is a walk from the start whose weight equals the label |
| DijkstraSpec.Unreachable | algorithm.py:71 | a vertex left at `inf` is unvisited, has no predecessor and no walk from the start reaches it |
| MapSpec.AddName | app.py:71-76 | `self.vertices[name] = Vertex(name)` plus its coordinates: a new vertex at the end of the arena, bound to the name; `AddNameMeaning` states what that keeps |
| MapSpec.Append | app.py:79-80 | `adjacency_list.append(edge)` on the start vertex of the edge; `AppendMeaning` states what that keeps |
| MapSpec.AddNameMeaning | app.py:70-72 | a new name gets a new vertex at the end with the file's coordinates; the dictionary stays one to one and nothing else moves |
| MapSpec.AppendMeaning | app.py:79-80 | appending an edge between two existing vertices changes only the start vertex's list and keeps the graph consistent |
| MapSpec.LinkStep | app.py:74-80 | one adjacent step, when it succeeds, adds exactly that adjacent's name to the dictionary |
| MapSpec.LinkStepMeaning | app.py:74-80 | an adjacent step raises KeyError exactly when the name is neither a vertex nor a key of the file; otherwise the dictionary stays consistent and `key`'s list gains one edge whose weight is the distance between their coordinates |
| MapSpec.LinkAll | app.py:73-80 | a successful inner loop adds exactly the listed adjacents to the dictionary |
| MapSpec.LinkAllFailurePersists | app.py:73-80 | once an adjacent raises, the rest of the list is not processed and the error stands |
| MapSpec.LinkAllOutcome | app.py:73-80 | the inner loop succeeds exactly when every adjacent is a vertex or a key of the file, and otherwise raises KeyError on one that is neither |
| MapSpec.LinkAllEffect | app.py:73-80 | a successful inner loop adds a vertex per new adjacent and appends to `key`'s list one weighted edge per adjacent, in list order, with no reverse edge and no other list changed |
| MapSpec.LoadKey | app.py:70-80 | one iteration of the outer loop on snapshots: the key gets a vertex if it has none, then the inner loop runs; `LoadKeyOutcome` and `LoadKeyEffect` state its meaning |
| MapSpec.LoadKeyOutcome | app.py:69-80 | loading one key fails exactly on an adjacent that is neither a vertex nor a key of the file |
| MapSpec.LoadKeyEffect | app.py:70-80 | loading one key gives it a vertex if it had none, then appends one edge per adjacent to its list |
| MapSpec.LoadAll | app.py:69-80 | the outer loop over keys in a given order, stopping at the first KeyError; a successful load leaves the per-vertex sequences aligned and every name addressing a vertex |
| MapSpec.LoadStep | app.py:69-80 | loading one more key keeps `Loaded`; it fails only with KeyError on an adjacent the file and the earlier vertices both lack |
| MapSpec.LoadAllSuccess | app.py:69-80 | in any visiting order, a load that gets through its keys ends `Loaded`: names are the old ones plus every key and adjacent, each created once with its file coordinates and never replaced, and each key's list is its old list plus one edge per adjacent |
| MapSpec.LoadAllWhole | app.py:69-80 | a load that visits every key of the file once ends `Loaded` with the whole file, and a reload of known names adds no vertex and rebinds no name |
| MapSpec.LoadAllConsistent | app.py:69-80 | every successful prefix of a load leaves the dictionary and the vertices consistent |
| MapSpec.LoadAllFailure | app.py:74-76 | a load that stops raises KeyError on an adjacent that is neither a key of the file nor a name known before |
| MapSpec.Built | app.py:69-80 | what the points file built, ignoring labels: old names keep their vertex and coordinates, new names are file names with the file's coordinates, exactly the file's names were added, each key's list gained one weighted edge per adjacent and no other list changed |
| MapSpec.LoadedBuilt | app.py:69-80 | a state `Loaded` from the file is `Built` from it |
| MapSpec.BuiltRelabelled | algorithm.py:102-133 | a run of the algorithm, which rewrites only distances, visited flags and predecessors, keeps what the file built |
| MapSpec.ReloadAddsNothing | app.py:70-74 | loading a file whose names all have vertices already adds no vertex and rebinds no name, so only edges are appended |
| App.Map.constructor | app.py:45-58 | a new Map has no vertices, an empty route and distance 0 |
| App.Map.LinkAdjacent | app.py:74-80 | the live adjacent step is `LinkStep` on the state before it |
| App.Map.LoadPoint | app.py:70-80 | the live load of one key is `LoadKey` on the state before it |
| App.Map.LoadNext | app.py:70-80 | one more key of `load_points` extends the load so far by `LoadKey`, or raises the KeyError of an adjacent that is neither a file key nor a name known before, showing the file does not resolve |
| App.Map.LoadPoints | app.py:69-80 | `load_points` succeeds exactly when every adjacent resolves, raises KeyError on one that does not, leaves the state `Loaded` with the whole file, and on a repeated load adds no vertex |
| App.Map.FindRoute | app.py:115-118 | KeyError for an unknown start, raised before any vertex is touched; otherwise a full run from the start, then KeyError for an unknown destination; with both names known it fails with OverflowError exactly when the destination keeps `inf` and succeeds exactly when its label is finite, storing the destination's predecessor chain coordinates and truncated label; a destination some walk from the start reaches always succeeds |
| App.Map.GenerateMap | app.py:113-118 | `generate_map` fails with KeyError when the file does not resolve; when it does, the error is KeyError of an unknown start, else of an unknown destination, else OverflowError exactly when the destination keeps `inf`, and it succeeds exactly when the destination's label is finite; once it gets to the route the vertices hold every name of the file and the graph is solved from the start; whenever the file resolves the graph is `Built` from it (coordinates and adjacency lists as the file gives them), and a destination the built graph reaches from the start gives success, route and distance as `FindRoute` states |
| Buildings.Listed | app.py:170 | the comprehension's filter `key[0] != "p"` on a non-empty key |
| Buildings.StrLess | app.py:170 | Python's `<` on str, code point by code point with a proper prefix first; `StrLessIrreflexive` and `StrLessTransitive` make it a strict order |
| Buildings.KeyOf | app.py:170 | the key lambda's tuple `(x[1], x[0], "{0:0>4}".format(x))` |
| Buildings.KeyLess | app.py:170 | Python's `<` on two key tuples, first differing component deciding; `KeyLessStrictOrder` makes it a strict order |
| Buildings.BuildingLess | app.py:170 | `sorted` comparing two names through the key lambda; `BuildingLessStrictOrder` makes it a strict order |
| Buildings.BuildingList | app.py:169-170 | `init_building_list` on the file's keys in order: the comprehension, IndexError from an empty or one-character kept key, else the stable sort by key; `BuildingListMeaning` states its meaning |
| Buildings.Pad | app.py:170 | `"{0:0>4}".format(x)` has length `max(4, |x|)`, ends with `x` and is `'0'` before it |
| Buildings.StrLessIrreflexive | app.py:170 | no string is less than itself under Python's string order |
| Buildings.StrLessTransitive | app.py:170 | Python's string order is transitive |
| Buildings.KeyLessStrictOrder | app.py:170 | the order on `(x[1], x[0], padded x)` tuples is irreflexive and transitive |
| Buildings.BuildingLessStrictOrder | app.py:170 | comparing names through the sort key is a strict order |
| Buildings.Kept | app.py:170 | the comprehension raises IndexError exactly when some key is empty, and otherwise keeps each key not starting with 'p' exactly as often as it occurs, and no other |
| Buildings.Insert | app.py:170 | inserting adds exactly one occurrence of the element |
| Buildings.InsertSorted | app.py:170 | inserting into a sorted list keeps it sorted |
| Buildings.Sort | app.py:169-170 | the sort returns a permutation of its input |
| Buildings.SortSorted | app.py:169-170 | the sort's result is sorted by the key |
| Buildings.BuildingListMeaning | app.py:169-170 | `init_building_list` raises IndexError exactly when some key is empty or a kept key has one character; otherwise the list holds each key not starting with 'p' exactly as often as the file does and nothing else, as a permutation of the comprehension's list, sorted by `(x[1], x[0], padded x)` |

## Left out

- `heapq`'s binary-heap layout. The frontier is a list and a pop takes an
  entry of least current label (`ArgMin`). Python lowers the `min_distance`
  of vertices already in the heap, so a real binary heap may not pop the
  least entry; the model does not capture that.
- Dijkstra.DijkstraAlgorithm.Calculate: requires non-negative weights, which
  geodesic distances always are. It also requires vertices no earlier run
  has labelled, as on the new Map that the app builds for each query.
  App.Map.FindRoute and App.Map.GenerateMap inherit both requirements. A
  second `generate_map` on the same Map, over labels left by the first run,
  is not modelled.
- Geodesic distance (geopy) is a parameter. Its only assumed property is
  that it is not negative.
- Reading `points.json` is not modelled. The parsed file is a parameter, and
  a malformed entry (a missing `coordinates` or `adjacents` field) is
  outside the model.
- Iteration order of the points file's keys. `LoadPoints` picks keys in an
  unspecified order, and every result is proved for any order.
- App.Map.LinkAdjacent: on a KeyError the state is left as it was before
  the step. Python has already stored a fresh `Vertex` for the missing
  adjacent (app.py:75-76) when the coordinate lookup raises.
- App.Map.LoadPoint: inherits that from LinkAdjacent. After a failure, only
  consistency of the state is stated.
- App.Map.LoadNext: inherits that from LoadPoint.
- App.Map.LoadPoints: inherits that from LoadNext. After a failure, only
  consistency of the remaining state and the KeyError's name are stated.
- The `None` stage of `Vertex.coordinates`, between `Vertex(key)` and the
  next line, is collapsed. `AddVertex` takes the coordinates.
- Floats are mathematical reals: labels, weights and coordinates are exact.
  Coordinates are only copied.
- Buildings.BuildingListMeaning: states sortedness and permutation. It does
  not state the stability of Python's `sorted` (names with equal keys keep
  file order), although `Sort` is a stable insertion sort.
- Map rendering, markers and page setup (folium, streamlit), and the
  walking-time figure computed from the distance.
