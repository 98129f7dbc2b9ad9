# Datalog lineage storage, modelled in Dafny

SPADE's `Datalog` storage records a provenance graph as Datalog facts and
answers lineage queries with a two-rule program. This project models its two
parts.

- **Fact store** (`datalog.dfy`, class `Storage.Datalog`). It holds a forward
  map from internal id to vertex (`vertexMap`) and a reverse map from vertex to
  id (`vertexMapReversed`). It also holds the append-only list of
  `parent(child, parent)` facts, as a `seq<Fact>` rather than program text.
  `PutVertex` records a vertex under the current vertex count. `PutEdge`
  appends one fact built from the endpoints' ids.
- **Lineage resolver** (`lineage.dfy`, module `Lineage`). The program
  `ancestor(x,y) :- parent(x,y)` and `ancestor(x,y) :- parent(x,z), ancestor(z,y)`
  is modelled by its least fixpoint. `Derivable(facts, x, y, k)` is the k-th
  stage of bottom-up evaluation, and `Ancestor` holds when some stage derives
  the pair. Lemmas prove that `Ancestor` satisfies both rules and is the least
  relation that does. `Closure` is a worklist traversal that expands each id at
  most once, so it terminates on cyclic facts. It returns exactly
  `{ y | Ancestor(facts, q, y) }`. `Storage.Datalog.GetLineage` runs it and maps
  the ids through the forward map into a set of vertices.

Vertices are a type parameter compared by equality, as the Java hash maps
compare them with `equals`. Ids are unbounded naturals end to end.

The vertex count belongs to the storage superclass, which is not part of this
model. `putVertex` only reads it, at lines 69-70. The model keeps it as a field
`vertexCount` that `PutVertex` leaves alone. A separate `CountVertex` method
advances it by one, standing for the owner's bookkeeping after a successful
`putVertex`. `Valid()` holds whether or not the count is advanced. `Fresh()`
(the count is above every id in use) and `Coherent()` (every vertex maps back
to itself) hold only when the count is advanced between insertions.

Behaviours of `Datalog.java` that the model keeps:
- With facts `parent(1,2)` and `parent(2,1)`, the lineage of 1 is `{1, 2}`:
  1 is its own ancestor through 2 (`Lineage.TwoCycleLineage`).
- Putting a vertex does not advance the id counter.
- A missing endpoint in `putEdge` makes the unboxing of the missing `Long`
  throw a `NullPointerException`, and no fact is appended. The model returns
  `Failure(UnknownVertex)`.
- Result ids are read back with `Integer.parseInt`. An ancestor id above
  `Integer.MAX_VALUE` (2147483647) makes the parse throw, and `getLineage`
  returns null instead of a partial graph. `GetLineage` returns `None` exactly
  in that case.

The file defines `putEdge` and `putVertex` a second time at lines 177-193,
where both return false. Those duplicate the signatures at lines 68 and 75, so
the class as written would not compile. The model takes the first
definitions, which have real bodies.

## Model

| member | source | states |
|---|---|---|
| `Lineage.AncestorIsFixpoint` | src/spade/storage/Datalog.java:86-87 | ancestor(x,y) holds iff parent(x,y) is a fact or parent(x,z) is a fact with ancestor(z,y): the relation satisfies both rules and nothing else is needed to unfold it |
| `Lineage.AncestorIsLeast` | src/spade/storage/Datalog.java:86-87 | every relation that contains the parent facts and is closed under the recursive rule contains ancestor: it is the least fixpoint the Datalog engine computes |
| `Lineage.AncestorTransitive` | src/spade/storage/Datalog.java:87 | ancestor(x,z) and ancestor(z,y) give ancestor(x,y) |
| `Lineage.AncestorMonotone` | src/spade/storage/Datalog.java:86-87 | any fact list that contains every fact of another keeps all of its ancestor pairs |
| `Lineage.AncestorGrowsByAppend` | src/spade/storage/Datalog.java:78 | appending facts, as putEdge does, never removes an ancestor pair |
| `Lineage.AncestorDependsOnFactSet` | src/spade/storage/Datalog.java:78 | two fact lists with the same facts, in any order and with any duplicates, have the same ancestor relation, so unfiltered duplicate edges change no lineage |
| `Lineage.AncestorIsParentId` | src/spade/storage/Datalog.java:86-87 | every ancestor id occurs as the parent of some fact |
| `Lineage.NoParentsNoAncestors` | src/spade/storage/Datalog.java:86-88 | an id that is the child of no fact has no ancestors, so its query yields the empty set |
| `Lineage.Closure` | src/spade/storage/Datalog.java:85-101 | the worklist traversal terminates on any facts, cyclic ones included, and returns exactly the ids y with ancestor(q, y) |
| `Lineage.TwoCycleLineage` | src/spade/storage/Datalog.java:86-88 | with parent(a,b) and parent(b,a), the ancestors of a are exactly a and b |
| `Lineage.ChainLineage` | src/spade/storage/Datalog.java:86-88 | with parent(b,a) and parent(c,b), the ancestors of c are exactly a and b and a has none |
| `Storage.Datalog.constructor` | src/spade/storage/Datalog.java:52-54 | a new store has empty maps, no facts and count 0, and satisfies its invariants |
| `Storage.Datalog.PutVertex` | src/spade/storage/Datalog.java:68-72 | returns true; the forward map gains count -> v, the reverse map gets v -> count, overwriting an earlier id of v; nothing else changes; coherence is kept and the map grows by one when the count was fresh |
| `Storage.Datalog.CountVertex` | src/spade/storage/Datalog.java:69-70 | the count read as the next id advances by one and is then above every id in use |
| `Storage.Datalog.PutEdge` | src/spade/storage/Datalog.java:75-80 | succeeds with true iff both endpoints have ids, and then appends exactly parent(id(source), id(destination)); otherwise fails with no fact appended; no ancestor pair is lost |
| `Storage.Datalog.Materialize` | src/spade/storage/Datalog.java:103-113 | yields a result iff every id fits an int, and the result is then exactly the vertices the forward map gives those ids |
| `Storage.Datalog.GetLineage` | src/spade/storage/Datalog.java:83-116 | yields a result iff every ancestor id of q fits an int, and the result is then exactly the vertices of the ids y with ancestor(q, y); the store is not modified |
| `Storage.Datalog.GetEdge` | src/spade/storage/Datalog.java:126-129 | never finds an edge |
| `Storage.Datalog.GetVertex` | src/spade/storage/Datalog.java:138-141 | never finds a vertex |
| `Storage.Datalog.GetChildren` | src/spade/storage/Datalog.java:151-154 | never returns a graph |
| `Storage.Datalog.GetParents` | src/spade/storage/Datalog.java:164-167 | never returns a graph |
| `Storage.QueryTwice` | src/spade/storage/Datalog.java:83-116 | two lineage queries in a row on the same store give the same result |
| `Storage.ReinsertedVertex` | src/spade/storage/Datalog.java:68-72 | putting a vertex twice, with the count advanced in between, gives it two different ids; the first id still maps forward to it and it maps back to the second |
| `Storage.CyclicLineage` | src/spade/storage/Datalog.java:75-116 | for vertices a and b that are each other's parent, the lineage of a is the vertex set {a, b} |

## Left out

- The IRIS engine (parser, knowledge base, relations, lines 91-101) is replaced by the least fixpoint of the two rules. Its `ParserException` and `EvaluationException` paths (lines 110-112) are not modelled.
- `Storage.Datalog.GetLineage`: the model assumes every fact written at line 78 is a complete Datalog clause. As written, line 78 ends each fact with a line break but no terminating `.`, while the rules and the query at lines 86-88 end with `.`. The IRIS grammar is not part of this model, so whether `parser.parse` at line 93 rejects every program with at least one fact, making `getLineage` return null, is not captured.
- The text encoding of facts (line 78) and the parsing of result tuples (line 105) are left out, and ids are integers end to end. Only the `Integer.parseInt` range limit is kept.
- The query is an id. The `vertexExpression` string, and the fact that it is spliced into the program text unchecked, are not modelled.
- The `depth`, `direction` and `terminatingExpression` parameters of `getLineage` are not modelled. The source ignores them.
- Logging (line 111) is not modelled.
- The `Graph` class is not part of this model. A result graph is the set of its vertices. It has no edges, as in the source.
- `initialize` and `shutdown` (lines 58-65) are not modelled. They only return true.
- The storage superclass and its `getVertexCount` are not part of this model. The count is a field, and the owner advances it with `CountVertex`.
- `Storage.Datalog.PutVertex`: ids are unbounded naturals. The 64-bit `long` range of the count is not modelled.
- A closure id with no forward entry would put a null vertex into the Java result. This cannot happen in the model, because `Valid()` keeps every fact id in the forward map.
- The order in which result tuples are visited is not modelled. The result is a set.
- Concurrent access is not modelled. The source does no locking.
