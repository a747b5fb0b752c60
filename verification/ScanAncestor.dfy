/** The scan a SpatialFilter is measured against: what the compiler finds, and when that is the unique scan below. */
module ScanAncestor {
  import opened Wrappers
  import opened Sql
  import opened Plan
  import opened Compiler
  import Cardinality

  /** Scans met twice under one id scan one dataset, as they do when the tree comes from a plan. */
  predicate Consistent(t: Tree) {
    match t
    case Scan(_, _) => true
    case Unary(_, _, input) => Consistent(input)
    case Binary(_, _, left, right) =>
      && Consistent(left) && Consistent(right)
      && (forall id | id in Scans(left) && id in Scans(right) :: Scans(left)[id] == Scans(right)[id])
  }

  lemma {:induction false} UnfoldConsistent(plan: Graph, rank: map<string, nat>, id: string)
    requires Acyclic(plan, rank) && id in plan
    ensures Consistent(Unfold(plan, rank, id))
    ensures forall s | s in Scans(Unfold(plan, rank, id)) ::
              s in plan && plan[s].kind.ScanSource? && plan[s].kind.dataset == Scans(Unfold(plan, rank, id))[s]
    decreases rank[id]
  {
    var Operator(kind, inputs) := plan[id];
    if !kind.ScanSource? {
      UnfoldConsistent(plan, rank, inputs[0]);
      if IsBinary(kind) { UnfoldConsistent(plan, rank, inputs[1]); }
    }
  }

  /** A scan is found either because it is the only one, or because an ambiguous input was dropped on the way. */
  lemma {:induction false} AncestorCases(t: Tree)
    requires Consistent(t)
    ensures Scans(t) != map[]
    ensures Ancestor(t).None? ==> |Scans(t)| >= 2 && !Drops(t)
    ensures Ancestor(t).Some? && Drops(t) ==> |Scans(t)| >= 2
    ensures Ancestor(t).Some? && !Drops(t) ==> Scans(t) == map[Ancestor(t).value.id := Ancestor(t).value.dataset]
    ensures Ancestor(t).Some? ==> Ancestor(t).value.id in Scans(t)
  {
    match t
    case Scan(_, _) =>
    case Unary(_, _, input) =>
      AncestorCases(input);
    case Binary(_, _, left, right) =>
      AncestorCases(left);
      AncestorCases(right);
      Grows(Scans(left), Scans(right));
      var l, r := Ancestor(left), Ancestor(right);
      if l.Some? && r.Some? && l.value.id != r.value.id {
        Two(Scans(t), l.value.id, r.value.id);
      }
  }

  lemma Grows(a: map<string, string>, b: map<string, string>)
    ensures |a + b| >= |a| && |a + b| >= |b|
  {
    Cardinality.Subset(a.Keys, (a + b).Keys);
    Cardinality.Subset(b.Keys, (a + b).Keys);
  }

  lemma Two(m: map<string, string>, a: string, b: string)
    requires a in m && b in m && a != b
    ensures |m| >= 2
  {
    Cardinality.Subset({a, b}, m.Keys);
  }

  /** The compiler's answer is the unique scan, or none because there are several, exactly when no ambiguous
      input was dropped on the way to it. */
  lemma AncestorExact(t: Tree)
    requires Consistent(t)
    ensures (if Ancestor(t).Some? then Some(Ancestor(t).value.dataset) else None) == UniqueScan(t) && (Ancestor(t).None? || |Scans(t)| == 1)
            <==> !Drops(t)
  {
    AncestorCases(t);
    if Ancestor(t).Some? && !Drops(t) {
      assert Scans(t).Keys == {Ancestor(t).value.id};
      assert |Scans(t).Keys| == 1;
    }
  }

  /** A join of a join with a third table: the compiler answers the third table, though three are scanned. */
  lemma DroppedBranchExample()
    ensures var join := Join("k", "k", false);
            var t := Binary("j2", join, Binary("j1", join, Scan("a", "A"), Scan("b", "B")), Scan("c", "C"));
            Ancestor(t) == Some(ScanRef("c", "C")) && UniqueScan(t) == None && Drops(t)
  {
    var join := Join("k", "k", false);
    var inner := Binary("j1", join, Scan("a", "A"), Scan("b", "B"));
    var t := Binary("j2", join, inner, Scan("c", "C"));
    assert Ancestor(inner) == None;
    assert Scans(inner) == map["a" := "A", "b" := "B"];
    Two(Scans(t), "a", "c");
  }
}
