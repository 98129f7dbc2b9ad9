/** The Datalog storage: a fact store (vertex id maps and the parent facts)
    and the lineage query over it.  Vertices are opaque values compared by
    equality, as the store's hash maps compare them. */
module Storage {

  import opened Lineage

  datatype Option<T> = None | Some(value: T)

  /** putEdge unboxes the id of each endpoint; an endpoint that was never put
      has no id and the unboxing throws. */
  datatype StoreError = UnknownVertex

  datatype Result<T> = Success(value: T) | Failure(error: StoreError)

  /** A provenance edge: the source vertex is the child, the destination its parent. */
  datatype Edge<V> = Edge(source: V, destination: V)

  /** Integer.MAX_VALUE: result ids are read back with Integer.parseInt. */
  const MaxInt: nat := 0x7fff_ffff

  class Datalog<V(==)> {
    /** Internal id -> vertex. */
    var vertexMap: map<Id, V>
    /** Vertex -> internal id (the most recent id the vertex was put under). */
    var vertexMapReversed: map<V, Id>
    /** The parent facts, in the order putEdge appended them. */
    var facts: seq<Fact>
    /** The storage's vertex count, read by putVertex as the next id.  It is
        advanced by the storage's owner, not by putVertex (see CountVertex). */
    var vertexCount: nat

    /** Every id handed out lies in the forward map, and the forward map
        holds no id above the counter. */
    ghost predicate Valid()
      reads this
    {
      && (forall v :: v in vertexMapReversed ==> vertexMapReversed[v] in vertexMap)
      && (forall i :: 0 <= i < |facts| ==> facts[i].child in vertexMap && facts[i].parent in vertexMap)
      && (forall id :: id in vertexMap ==> id <= vertexCount)
    }

    /** The counter is ahead of every id in use: the next putVertex gets a fresh id. */
    ghost predicate Fresh()
      reads this
    {
      forall id :: id in vertexMap ==> id < vertexCount
    }

    /** Every vertex maps back to itself through its current id. */
    ghost predicate Coherent()
      reads this
    {
      forall v :: v in vertexMapReversed ==> vertexMapReversed[v] in vertexMap && vertexMap[vertexMapReversed[v]] == v
    }

    constructor ()
      ensures Valid() && Fresh() && Coherent()
      ensures vertexMap == map[] && vertexMapReversed == map[] && facts == [] && vertexCount == 0
    {
      vertexMap := map[];
      vertexMapReversed := map[];
      facts := [];
      vertexCount := 0;
    }

    /** putVertex: record the vertex under the current count in both
        directions.  No deduplication: a vertex put twice keeps its old
        forward entry and maps back only to the newer id. */
    method PutVertex(v: V) returns (ok: bool)
      requires Valid()
      modifies this
      ensures Valid() && ok
      ensures vertexMap == old(vertexMap)[old(vertexCount) := v]
      ensures vertexMapReversed == old(vertexMapReversed)[v := old(vertexCount)]
      ensures facts == old(facts) && vertexCount == old(vertexCount)
      ensures old(Fresh() && Coherent()) ==> Coherent()
      ensures old(Fresh()) ==> |vertexMap| == |old(vertexMap)| + 1
    {
      vertexMap := vertexMap[vertexCount := v];
      vertexMapReversed := vertexMapReversed[v := vertexCount];
      ok := true;
    }

    /** The owner's bookkeeping after a successful putVertex: the count grows by one. */
    method CountVertex()
      requires Valid()
      modifies this`vertexCount
      ensures Valid() && Fresh()
      ensures vertexCount == old(vertexCount) + 1
    {
      vertexCount := vertexCount + 1;
    }

    /** putEdge: append parent(id(source), id(destination)).  A missing
        endpoint fails before anything is appended. */
    method PutEdge(e: Edge<V>) returns (r: Result<bool>)
      requires Valid()
      modifies this`facts
      ensures Valid()
      ensures r.Success? <==> e.source in vertexMapReversed && e.destination in vertexMapReversed
      ensures r.Success? ==> r.value && facts == old(facts) + [Parent(vertexMapReversed[e.source], vertexMapReversed[e.destination])]
      ensures r.Failure? ==> r.error == UnknownVertex && facts == old(facts)
      ensures forall x, y :: Ancestor(old(facts), x, y) ==> Ancestor(facts, x, y)
    {
      if e.source !in vertexMapReversed || e.destination !in vertexMapReversed {
        return Failure(UnknownVertex);
      }
      var src := vertexMapReversed[e.source];
      var dst := vertexMapReversed[e.destination];
      ghost var before := facts;
      facts := facts + [Parent(src, dst)];
      forall x, y | Ancestor(before, x, y) ensures Ancestor(facts, x, y) {
        AncestorGrowsByAppend(before, [Parent(src, dst)], x, y);
      }
      r := Success(true);
    }

    /** The result loop of getLineage: look up each id and collect its
        vertex; an id beyond Integer.MAX_VALUE fails to parse and the whole
        query yields no result. */
    method Materialize(ids: set<Id>) returns (r: Option<set<V>>)
      requires ids <= vertexMap.Keys
      ensures r.Some? <==> forall id :: id in ids ==> id <= MaxInt
      ensures r.Some? ==> forall v :: v in r.value <==> exists id :: id in ids && vertexMap[id] == v
    {
      var rest := ids;
      ghost var seen: set<Id> := {};
      var result: set<V> := {};
      while rest != {}
        invariant rest <= ids && seen == ids - rest
        invariant forall id :: id in seen ==> id <= MaxInt
        invariant forall v :: v in result <==> exists id :: id in seen && vertexMap[id] == v
        decreases rest
      {
        var id :| id in rest;
        if id > MaxInt {
          assert id in ids;
          return None;
        }
        result := result + {vertexMap[id]};
        rest := rest - {id};
        seen := seen + {id};
      }
      assert seen == ids;
      r := Some(result);
    }

    /** getLineage: the ancestors of the query id, as vertices.  The result
        is exactly the image under the forward map of the ids y with
        ancestor(q, y); no result when such an id does not fit an int. */
    method GetLineage(q: Id) returns (r: Option<set<V>>)
      requires Valid()
      ensures r.Some? <==> forall y: Id :: Ancestor(facts, q, y) ==> y <= MaxInt
      ensures r.Some? ==> forall v :: v in r.value <==>
                exists y: Id :: Ancestor(facts, q, y) && y in vertexMap && vertexMap[y] == v
    {
      var ids := Closure(facts, q);
      forall y | y in ids ensures y in vertexMap {
        AncestorIsParentId(facts, q, y);
      }
      r := Materialize(ids);
    }

    /** getEdge is not supported by this storage: never found. */
    method GetEdge(sourceHash: string, destinationHash: string) returns (r: Option<Edge<V>>)
      ensures r == None
    {
      r := None;
    }

    /** getVertex is not supported by this storage: never found. */
    method GetVertex(hash: string) returns (r: Option<V>)
      ensures r == None
    {
      r := None;
    }

    /** getChildren is not supported by this storage: no graph. */
    method GetChildren(parentHash: string) returns (r: Option<set<V>>)
      ensures r == None
    {
      r := None;
    }

    /** getParents is not supported by this storage: no graph. */
    method GetParents(childHash: string) returns (r: Option<set<V>>)
      ensures r == None
    {
      r := None;
    }
  }

  /** getLineage only reads the store: asking twice in a row gives the same answer. */
  method QueryTwice<V(==)>(s: Datalog<V>, q: Id) returns (first: Option<set<V>>, second: Option<set<V>>)
    requires s.Valid()
    ensures first == second
  {
    first := s.GetLineage(q);
    second := s.GetLineage(q);
    if first.Some? {
      assert first.value == second.value;
    }
  }

  /** Putting the same vertex twice (with the count advanced in between)
      gives it two ids; the first still maps forward to it, but it maps back
      only to the second. */
  method ReinsertedVertex<V(==)>(v: V) returns (first: Id, second: Id, forward: V, back: Id)
    ensures first != second
    ensures forward == v && back == second
  {
    var s := new Datalog<V>();
    first := s.vertexCount;
    var _ := s.PutVertex(v);
    s.CountVertex();
    second := s.vertexCount;
    var _ := s.PutVertex(v);
    s.CountVertex();
    forward := s.vertexMap[first];
    back := s.vertexMapReversed[v];
  }

  /** Two vertices that are each other's parent: the lineage of the first
      is both of them, and the query terminates. */
  method CyclicLineage<V(==)>(a: V, b: V) returns (r: Option<set<V>>)
    requires a != b
    ensures r == Some({a, b})
  {
    var s := new Datalog<V>();
    var _ := s.PutVertex(a);
    s.CountVertex();
    var _ := s.PutVertex(b);
    s.CountVertex();
    var e1 := s.PutEdge(Edge(a, b));
    var e2 := s.PutEdge(Edge(b, a));
    assert s.facts == [Parent(0, 1), Parent(1, 0)];
    TwoCycleLineage(0, 1);
    r := s.GetLineage(0);
    assert Ancestor(s.facts, 0, 0) && Ancestor(s.facts, 0, 1);
    assert r.value == {a, b};
  }
}
