/** The lineage relation of the Datalog storage: the two-rule program

      ancestor(x, y) :- parent(x, y).
      ancestor(x, y) :- parent(x, z), ancestor(z, y).

    evaluated over the stored parent facts, and a worklist closure that
    computes the ancestors of one query id.  Ids are the internal vertex ids
    of the store; a fact Parent(c, p) says that p is a direct parent of c. */
module Lineage {

  type Id = nat

  /** parent(child, parent), as appended by putEdge. */
  datatype Fact = Parent(child: Id, parent: Id)

  /** ancestor(x, y) has a derivation of height at most k from the two rules:
      the k-th stage of the bottom-up (Kleene) evaluation of the program. */
  ghost predicate Derivable(facts: seq<Fact>, x: Id, y: Id, k: nat)
    decreases k
  {
    && k > 0
    && (|| Parent(x, y) in facts
        || exists z :: Parent(x, z) in facts && Derivable(facts, z, y, k - 1))
  }

  /** The least fixpoint of the program: ancestor(x, y) is derivable at some stage. */
  ghost predicate Ancestor(facts: seq<Fact>, x: Id, y: Id)
  {
    exists k: nat :: Derivable(facts, x, y, k)
  }

  /** The ids that occur as the parent of some fact. */
  function ParentIds(facts: seq<Fact>): (ids: set<Id>)
  {
    set i | 0 <= i < |facts| :: facts[i].parent
  }

  /** Every fact whose child lies in `from` has its parent in `reached`. */
  ghost predicate ClosedUnder(facts: seq<Fact>, from: set<Id>, reached: set<Id>)
  {
    forall i :: 0 <= i < |facts| && facts[i].child in from ==> facts[i].parent in reached
  }

  lemma {:induction false} DerivableLonger(facts: seq<Fact>, x: Id, y: Id, k: nat, k': nat)
    requires Derivable(facts, x, y, k) && k <= k'
    ensures Derivable(facts, x, y, k')
    decreases k
  {
    if Parent(x, y) !in facts {
      var z :| Parent(x, z) in facts && Derivable(facts, z, y, k - 1);
      DerivableLonger(facts, z, y, k - 1, k' - 1);
    }
  }

  /** Ancestor satisfies both rules and nothing more: it is a fixpoint of
      the program. */
  lemma AncestorIsFixpoint(facts: seq<Fact>, x: Id, y: Id)
    ensures Ancestor(facts, x, y) <==>
            (|| Parent(x, y) in facts
             || exists z :: Parent(x, z) in facts && Ancestor(facts, z, y))
  {
    if Parent(x, y) in facts {
      assert Derivable(facts, x, y, 1);
    }
    if z :| Parent(x, z) in facts && Ancestor(facts, z, y) {
      var k: nat :| Derivable(facts, z, y, k);
      assert Derivable(facts, x, y, k + 1);
    }
    if Ancestor(facts, x, y) && Parent(x, y) !in facts {
      var k: nat :| Derivable(facts, x, y, k);
      var z :| Parent(x, z) in facts && Derivable(facts, z, y, k - 1);
      assert Ancestor(facts, z, y);
    }
  }

  lemma {:induction false} DerivableIn(facts: seq<Fact>, r: (Id, Id) -> bool, x: Id, y: Id, k: nat)
    requires forall a, b :: Parent(a, b) in facts ==> r(a, b)
    requires forall a, c, b :: Parent(a, c) in facts && r(c, b) ==> r(a, b)
    requires Derivable(facts, x, y, k)
    ensures r(x, y)
    decreases k
  {
    if Parent(x, y) !in facts {
      var z :| Parent(x, z) in facts && Derivable(facts, z, y, k - 1);
      DerivableIn(facts, r, z, y, k - 1);
    }
  }

  /** Ancestor is the LEAST relation closed under the two rules: any relation
      that contains the parent facts and is closed under the recursive rule
      contains it. */
  lemma AncestorIsLeast(facts: seq<Fact>, r: (Id, Id) -> bool)
    requires forall a, b :: Parent(a, b) in facts ==> r(a, b)
    requires forall a, c, b :: Parent(a, c) in facts && r(c, b) ==> r(a, b)
    ensures forall x, y :: Ancestor(facts, x, y) ==> r(x, y)
  {
    forall x, y | Ancestor(facts, x, y) ensures r(x, y) {
      var k: nat :| Derivable(facts, x, y, k);
      DerivableIn(facts, r, x, y, k);
    }
  }

  lemma {:induction false} DerivableTransitive(facts: seq<Fact>, x: Id, z: Id, y: Id, k1: nat, k2: nat)
    requires Derivable(facts, x, z, k1) && Derivable(facts, z, y, k2)
    ensures Derivable(facts, x, y, k1 + k2)
    decreases k1
  {
    if Parent(x, z) in facts {
      DerivableLonger(facts, z, y, k2, k1 + k2 - 1);
    } else {
      var w :| Parent(x, w) in facts && Derivable(facts, w, z, k1 - 1);
      DerivableTransitive(facts, w, z, y, k1 - 1, k2);
    }
  }

  /** The ancestor relation is transitive. */
  lemma AncestorTransitive(facts: seq<Fact>, x: Id, z: Id, y: Id)
    requires Ancestor(facts, x, z) && Ancestor(facts, z, y)
    ensures Ancestor(facts, x, y)
  {
    var k1: nat :| Derivable(facts, x, z, k1);
    var k2: nat :| Derivable(facts, z, y, k2);
    DerivableTransitive(facts, x, z, y, k1, k2);
  }

  lemma {:induction false} DerivableInLarger(facts: seq<Fact>, larger: seq<Fact>, x: Id, y: Id, k: nat)
    requires forall i :: 0 <= i < |facts| ==> facts[i] in larger
    requires Derivable(facts, x, y, k)
    ensures Derivable(larger, x, y, k)
    decreases k
  {
    if Parent(x, y) !in facts {
      var z :| Parent(x, z) in facts && Derivable(facts, z, y, k - 1);
      DerivableInLarger(facts, larger, z, y, k - 1);
    }
  }

  /** Monotonicity: a store whose facts include all of `facts` (in any order,
      with any duplicates and any additions) keeps every ancestor pair. */
  lemma AncestorMonotone(facts: seq<Fact>, larger: seq<Fact>, x: Id, y: Id)
    requires forall i :: 0 <= i < |facts| ==> facts[i] in larger
    requires Ancestor(facts, x, y)
    ensures Ancestor(larger, x, y)
  {
    var k: nat :| Derivable(facts, x, y, k);
    DerivableInLarger(facts, larger, x, y, k);
  }

  /** Appending facts (as putEdge does) never removes an ancestor. */
  lemma AncestorGrowsByAppend(facts: seq<Fact>, more: seq<Fact>, x: Id, y: Id)
    requires Ancestor(facts, x, y)
    ensures Ancestor(facts + more, x, y)
  {
    forall i | 0 <= i < |facts| ensures facts[i] in facts + more {
      assert (facts + more)[i] == facts[i];
    }
    AncestorMonotone(facts, facts + more, x, y);
  }

  /** Only the set of facts matters: order and duplicate facts (which putEdge
      does not filter) do not change the lineage. */
  lemma AncestorDependsOnFactSet(facts: seq<Fact>, other: seq<Fact>, x: Id, y: Id)
    requires forall f :: f in facts <==> f in other
    ensures Ancestor(facts, x, y) <==> Ancestor(other, x, y)
  {
    if Ancestor(facts, x, y) {
      AncestorMonotone(facts, other, x, y);
    }
    if Ancestor(other, x, y) {
      AncestorMonotone(other, facts, x, y);
    }
  }

  /** Every ancestor occurs as the parent of some fact. */
  lemma AncestorIsParentId(facts: seq<Fact>, x: Id, y: Id)
    requires Ancestor(facts, x, y)
    ensures y in ParentIds(facts)
  {
    var k: nat :| Derivable(facts, x, y, k);
    DerivableIn(facts, (a, b) => b in ParentIds(facts), x, y, k);
  }

  /** An id that is the child of no fact has no ancestors. */
  lemma NoParentsNoAncestors(facts: seq<Fact>, x: Id, y: Id)
    requires forall i :: 0 <= i < |facts| ==> facts[i].child != x
    ensures !Ancestor(facts, x, y)
  {
  }

  /** Completeness of a closed set: if `from` holds x, `reached` lies inside
      `from`, and every fact leaving `from` lands in `reached`, then every
      ancestor of x is in `reached`. */
  lemma ClosedSetHoldsAncestors(facts: seq<Fact>, from: set<Id>, reached: set<Id>, x: Id, y: Id)
    requires x in from && reached <= from && ClosedUnder(facts, from, reached)
    requires Ancestor(facts, x, y)
    ensures y in reached
  {
    var r := (a: Id, b: Id) => a in from ==> b in reached;
    forall a, b | Parent(a, b) in facts ensures r(a, b) {
      var i :| 0 <= i < |facts| && facts[i] == Parent(a, b);
    }
    forall a, c, b | Parent(a, c) in facts && r(c, b) ensures r(a, b) {
      var i :| 0 <= i < |facts| && facts[i] == Parent(a, c);
    }
    AncestorIsLeast(facts, r);
  }

  /** The query of getLineage: the set of ancestors of q, computed by a
      worklist traversal that expands each id at most once, so it terminates
      on cyclic facts. */
  method Closure(facts: seq<Fact>, q: Id) returns (ids: set<Id>)
    ensures forall y :: y in ids <==> Ancestor(facts, q, y)
  {
    ids := {};
    var todo: set<Id> := {q};
    var done: set<Id> := {};
    ghost var universe := ParentIds(facts) + {q};
    while todo != {}
      invariant todo <= universe && done <= universe && ids <= ParentIds(facts)
      invariant todo !! done
      invariant q in todo + done
      invariant todo + done <= ids + {q}
      invariant ids <= todo + done
      invariant forall y :: y in ids ==> Ancestor(facts, q, y)
      invariant ClosedUnder(facts, done, ids)
      decreases universe - done
    {
      var z :| z in todo;
      todo := todo - {z};
      var i := 0;
      while i < |facts|
        invariant 0 <= i <= |facts|
        invariant todo <= universe && ids <= ParentIds(facts)
        invariant z !in todo && z !in done && todo !! done
        invariant q in todo + done + {z}
        invariant todo + done + {z} <= ids + {q}
        invariant ids <= todo + done + {z}
        invariant forall y :: y in ids ==> Ancestor(facts, q, y)
        invariant ClosedUnder(facts, done, ids)
        invariant forall j :: 0 <= j < i && facts[j].child == z ==> facts[j].parent in ids
      {
        var f := facts[i];
        if f.child == z && f.parent !in ids {
          assert f.parent in ParentIds(facts);
          assert Derivable(facts, z, f.parent, 1);
          if z != q {
            AncestorTransitive(facts, q, z, f.parent);
          }
          ids := ids + {f.parent};
          if f.parent != z && f.parent !in done {
            todo := todo + {f.parent};
          }
        }
        i := i + 1;
      }
      done := done + {z};
    }
    forall y | Ancestor(facts, q, y) ensures y in ids {
      ClosedSetHoldsAncestors(facts, done, ids, q, y);
    }
  }

  /** A two-cycle: with parent(a, b) and parent(b, a), the lineage of a is
      {a, b}; a is its own ancestor through b. */
  lemma TwoCycleLineage(a: Id, b: Id)
    ensures forall y :: Ancestor([Parent(a, b), Parent(b, a)], a, y) <==> y == a || y == b
  {
    var facts := [Parent(a, b), Parent(b, a)];
    assert Derivable(facts, a, b, 1);
    assert Derivable(facts, b, a, 1);
    assert Derivable(facts, a, a, 2);
    forall y | Ancestor(facts, a, y) ensures y == a || y == b {
      AncestorIsParentId(facts, a, y);
    }
  }

  /** A chain c -> b -> a (b is the parent of c, a the parent of b): the
      lineage of c is {a, b} and the lineage of a is empty. */
  lemma ChainLineage(a: Id, b: Id, c: Id)
    requires a != b && a != c
    ensures forall y :: Ancestor([Parent(b, a), Parent(c, b)], c, y) <==> y == a || y == b
    ensures forall y :: !Ancestor([Parent(b, a), Parent(c, b)], a, y)
  {
    var facts := [Parent(b, a), Parent(c, b)];
    assert Derivable(facts, c, b, 1);
    assert Derivable(facts, b, a, 1);
    assert Derivable(facts, c, a, 2);
    forall y | Ancestor(facts, c, y) ensures y == a || y == b {
      AncestorIsParentId(facts, c, y);
    }
    forall y ensures !Ancestor(facts, a, y) {
      NoParentsNoAncestors(facts, a, y);
    }
  }
}
