/** The first encoding: one object per edge, sorted by the hashed output record. */
module RecordLineageV1 {
  import opened Wrappers
  import opened Sql
  import opened Ordering
  import opened Shuffling
  import opened RecordEvidence
  import RecordFragment

  datatype Artifact = Artifact(
    executionId: string, resultId: string, planDigest: string, target: string, rowCount: nat, edges: seq<RecordEdge>)

  function OutputDocument(e: Encoding, b: Binding, resultId: string, key: Key): Document {
    OutputKey(resultId, b.keys, Texts(e, key))
  }

  function SourceDocument(e: Encoding, b: Binding, key: Key): Document {
    SourceKey(b.dataset, b.snapshot, b.keys, Texts(e, key))
  }

  function EdgeOf(e: Encoding, b: Binding, resultId: string, key: Key): RecordEdge {
    RecordEdge(HexDigest(e, Json(e, OutputDocument(e, b, resultId, key))), b.dataset, b.snapshot,
               HexDigest(e, Json(e, SourceDocument(e, b, key))))
  }

  function EdgesOf(e: Encoding, b: Binding, resultId: string, keys: seq<Key>): seq<RecordEdge> {
    seq(|keys|, i requires 0 <= i < |keys| => EdgeOf(e, b, resultId, keys[i]))
  }

  // ----- sorting edges by output record -----

  function Insert(edge: RecordEdge, sorted: seq<RecordEdge>): seq<RecordEdge> {
    if sorted == [] || Less(edge.output, sorted[0].output) then [edge] + sorted
    else [sorted[0]] + Insert(edge, sorted[1..])
  }

  /** `sorted(edges, key=output_record_id)`: ties keep their order. */
  function Sorted(edges: seq<RecordEdge>): seq<RecordEdge> {
    if edges == [] then [] else Insert(edges[|edges| - 1], Sorted(edges[..|edges| - 1]))
  }

  predicate InOrder(edges: seq<RecordEdge>) {
    forall i, j | 0 <= i < j < |edges| :: !Less(edges[j].output, edges[i].output)
  }

  lemma {:induction false} InsertElements(edge: RecordEdge, sorted: seq<RecordEdge>)
    ensures multiset(Insert(edge, sorted)) == multiset(sorted) + multiset{edge}
    ensures forall y :: y in Insert(edge, sorted) <==> y == edge || y in sorted
  {
    if sorted != [] {
      assert sorted == [sorted[0]] + sorted[1..];
      hide Less;
      InsertElements(edge, sorted[1..]);
    }
  }

  lemma OrderedOnto(x: RecordEdge, rest: seq<RecordEdge>)
    requires InOrder(rest) && forall y | y in rest :: !Less(y.output, x.output)
    ensures InOrder([x] + rest)
  {
    hide Less;
    assert forall j | 0 <= j < |rest| :: rest[j] in rest;
  }

  lemma {:induction false} InsertInOrder(edge: RecordEdge, sorted: seq<RecordEdge>)
    requires InOrder(sorted)
    ensures InOrder(Insert(edge, sorted))
  {
    if sorted == [] {
    } else if Less(edge.output, sorted[0].output) {
      FirstInOrder(edge, sorted);
    } else {
      WithoutFirst(sorted);
      InsertInOrder(edge, sorted[1..]);
      InsertElements(edge, sorted[1..]);
      var rest := Insert(edge, sorted[1..]);
      forall y | y in rest ensures !Less(y.output, sorted[0].output) {
        if y != edge {
          var k :| 1 <= k < |sorted| && sorted[k] == y;
        }
      }
      hide Less, InOrder;
      OrderedOnto(sorted[0], rest);
    }
  }

  lemma FirstInOrder(edge: RecordEdge, sorted: seq<RecordEdge>)
    requires InOrder(sorted) && sorted != [] && Less(edge.output, sorted[0].output)
    ensures InOrder([edge] + sorted)
  {
    hide Less;
    forall j | 0 <= j < |sorted| ensures !Less(sorted[j].output, edge.output) {
      if Less(sorted[j].output, edge.output) {
        LessTransitive(sorted[j].output, edge.output, sorted[0].output);
        LessIrreflexive(sorted[0].output);
      }
    }
  }

  lemma {:induction false} SortedInOrder(edges: seq<RecordEdge>)
    ensures InOrder(Sorted(edges)) && multiset(Sorted(edges)) == multiset(edges)
  {
    if edges != [] {
      SortedInOrder(edges[..|edges| - 1]);
      InsertInOrder(edges[|edges| - 1], Sorted(edges[..|edges| - 1]));
      InsertElements(edges[|edges| - 1], Sorted(edges[..|edges| - 1]));
      hide InOrder, Insert, Less;
      assert edges == edges[..|edges| - 1] + [edges[|edges| - 1]];
    }
  }

  /** An output record has one edge. */
  predicate Determined(edges: seq<RecordEdge>) {
    forall x, y | x in edges && y in edges && x.output == y.output :: x == y
  }

  lemma WithoutFirst(s: seq<RecordEdge>)
    requires s != [] && InOrder(s)
    ensures InOrder(s[1..]) && multiset(s[1..]) == multiset(s) - multiset{s[0]}
    ensures Determined(s) ==> Determined(s[1..])
  {
    hide Less;
    assert s == [s[0]] + s[1..];
    assert forall i | 0 <= i < |s[1..]| :: s[1..][i] == s[i + 1];
    forall x | x in s[1..] ensures x in s {}
  }

  /** Edges that their output record determines can be put in order in one way only. */
  lemma {:induction false} OrderUnique(s: seq<RecordEdge>, t: seq<RecordEdge>)
    requires InOrder(s) && InOrder(t) && multiset(s) == multiset(t) && Determined(s)
    ensures s == t
  {
    assert |multiset(s)| == |s| && |multiset(t)| == |t|;
    if s != [] {
      SameFirst(s, t);
      WithoutFirst(s);
      WithoutFirst(t);
      hide InOrder, Determined;
      OrderUnique(s[1..], t[1..]);
      FirstAndRest(s, t);
    }
  }

  lemma SameFirst(s: seq<RecordEdge>, t: seq<RecordEdge>)
    requires InOrder(s) && InOrder(t) && multiset(s) == multiset(t) && s != [] && t != [] && Determined(s)
    ensures s[0] == t[0]
  {
    assert s[0] in multiset(t) && t[0] in multiset(s);
    LessIrreflexive(s[0].output);
    LessTotal(s[0].output, t[0].output);
    assert t[0] in s && s[0] in t;
  }

  // ----- the artifact -----

  /** Serialised edges with their digest, or why there are none. */
  datatype Derived = Derived(artifact: Artifact, edgeDigest: string)

  ghost predicate ContextBound(context: Result<Binding, RecordFragment.FragmentError>) {
    context.Ok? ==> Bound(context.value)
  }

  function ArtifactOf(e: Encoding, b: Binding, executionId: string, resultId: string, keys: seq<Key>): Derived {
    var edges := Sorted(EdgesOf(e, b, resultId, keys));
    Derived(Artifact(executionId, resultId, b.planDigest, b.target, |keys|, edges), HexDigest(e, Json(e, Edges(edges))))
  }

  function Derive(e: Encoding, context: Result<Binding, RecordFragment.FragmentError>, executionId: string, resultId: string,
                  rows: seq<seq<Value>>): Result<Derived, LineageError>
    requires ContextBound(context)
  {
    if executionId == "" || resultId == "" then Error(EmptyIdentifier)
    else if context.Error? then Error(Refused(context.error))
    else
      var keys := KeysOf(context.value, rows);
      if keys.Error? then Error(keys.error) else Ok(ArtifactOf(e, context.value, executionId, resultId, keys.value))
  }

  /** The artifact names the run, the plan with its target, and on each of as many edges as there are rows the source. */
  ghost predicate Names(a: Artifact, b: Binding, executionId: string, resultId: string, rowCount: nat) {
    && a.executionId == executionId && a.resultId == resultId && a.planDigest == b.planDigest && a.target == b.target
    && a.rowCount == rowCount && |a.edges| == rowCount
    && forall edge | edge in a.edges :: edge.dataset == b.dataset && edge.snapshot == b.snapshot
  }

  lemma SortedNames(e: Encoding, b: Binding, resultId: string, keys: seq<Key>)
    ensures var edges := Sorted(EdgesOf(e, b, resultId, keys));
            |edges| == |keys| && forall edge | edge in edges :: edge.dataset == b.dataset && edge.snapshot == b.snapshot
  {
    var edges := EdgesOf(e, b, resultId, keys);
    SortedInOrder(edges);
    hide InOrder, Sorted, HexDigest;
    assert |multiset(Sorted(edges))| == |Sorted(edges)| && |multiset(edges)| == |edges|;
    forall edge | edge in Sorted(edges) ensures edge.dataset == b.dataset && edge.snapshot == b.snapshot {
      assert edge in multiset(edges);
      assert edge in edges;
    }
  }

  /** `_derive_artifact`. */
  method DeriveArtifact(e: Encoding, context: Result<Binding, RecordFragment.FragmentError>, executionId: string, resultId: string,
                        rows: seq<seq<Value>>) returns (r: Result<Derived, LineageError>)
    requires ContextBound(context)
    ensures r == Derive(e, context, executionId, resultId, rows)
    ensures r.Ok? ==> context.Ok? && Names(r.value.artifact, context.value, executionId, resultId, |rows|)
  {
    if executionId == "" || resultId == "" { return Error(EmptyIdentifier); }
    if context.Error? { return Error(Refused(context.error)); }
    var b := context.value;
    var seen: set<Key>, edges: seq<RecordEdge> := {}, [];
    ghost var keys: seq<Key> := [];
    hide Sorted, EdgeOf, NextKey;
    for n := 0 to |rows|
      invariant KeysOf(b, rows[..n]) == Ok(keys)
      invariant forall key :: key in seen <==> key in keys
      invariant edges == EdgesOf(e, b, resultId, keys)
      invariant |keys| == n
    {
      var key := CheckRow(b, rows[n], seen, keys);
      KeysAppend(b, rows, n, keys);
      if key.Error? { return Error(key.error); }
      seen, keys := seen + {key.value}, keys + [key.value];
      edges := edges + [EdgeOf(e, b, resultId, key.value)];
    }
    assert rows[..|rows|] == rows;
    SortedNames(e, b, resultId, keys);
    var ordered := Sorted(edges);
    r := Ok(Derived(Artifact(executionId, resultId, b.planDigest, b.target, |rows|, ordered), HexDigest(e, Json(e, Edges(ordered)))));
  }

  // ----- capture and verification -----

  function EvidenceFor(d: Derived): Evidence {
    Evidence(d.artifact.executionId, d.artifact.resultId, true, [d.artifact.target], d.edgeDigest)
  }

  /** `capture_record_lineage`: the artifact with its evidence. */
  function Capture(e: Encoding, context: Result<Binding, RecordFragment.FragmentError>, executionId: string, resultId: string,
                   rows: seq<seq<Value>>): Result<(Artifact, Evidence), LineageError>
    requires ContextBound(context)
  {
    var derived := Derive(e, context, executionId, resultId, rows);
    if derived.Error? then Error(derived.error) else Ok((derived.value.artifact, EvidenceFor(derived.value)))
  }

  predicate SummaryMatches(evidence: Evidence, artifact: Artifact, edgeDigest: string) {
    && evidence.executionId == artifact.executionId && evidence.resultId == artifact.resultId
    && evidence.recordLevel && evidence.covered == [artifact.target] && evidence.edgeDigest == edgeDigest
  }

  /** The rows reproduce the artifact, and the evidence summary is its own. */
  ghost predicate Satisfied(e: Encoding, context: Result<Binding, RecordFragment.FragmentError>, rows: seq<seq<Value>>,
                            evidence: Evidence, artifact: Artifact)
    requires ContextBound(context)
  {
    var derived := Derive(e, context, artifact.executionId, artifact.resultId, rows);
    derived.Ok? && artifact == derived.value.artifact && SummaryMatches(evidence, artifact, derived.value.edgeDigest)
  }

  /** `verify_record_lineage_artifact`. */
  method Verify(e: Encoding, context: Result<Binding, RecordFragment.FragmentError>, rows: seq<seq<Value>>,
                evidence: Evidence, artifact: Artifact) returns (diagnostics: seq<Diagnostic>)
    requires ContextBound(context)
    ensures diagnostics == [] <==> Satisfied(e, context, rows, evidence, artifact)
  {
    var expected := DeriveArtifact(e, context, artifact.executionId, artifact.resultId, rows);
    hide Derive;
    if expected.Error? { return [NotDerivable(expected.error)]; }
    diagnostics := [];
    if artifact != expected.value.artifact { diagnostics := diagnostics + [ArtifactMismatch]; }
    if !SummaryMatches(evidence, artifact, expected.value.edgeDigest) { diagnostics := diagnostics + [SummaryMismatch]; }
  }

  /** What a capture produces verifies against the rows it was captured from. */
  lemma CaptureVerifies(e: Encoding, context: Result<Binding, RecordFragment.FragmentError>, executionId: string, resultId: string,
                        rows: seq<seq<Value>>)
    requires ContextBound(context)
    ensures var captured := Capture(e, context, executionId, resultId, rows);
            captured.Ok? ==> Satisfied(e, context, rows, captured.value.1, captured.value.0)
  {
    hide Sorted, EdgesOf, KeysOf;
  }

  // ----- what an edge binds -----

  /** One source identity means one source and one printed key, and one output identity one result and one printed key;
      the exception is an exhibited collision. */
  lemma EdgeBinds(e: Encoding, b: Binding, c: Binding, r: string, q: string, x: Key, y: Key)
    requires Faithful(e)
    ensures EdgeOf(e, b, r, x).source == EdgeOf(e, c, q, y).source
            ==> (SharesSource(b, c) && Texts(e, x) == Texts(e, y)) || Collides(e, Json(e, SourceDocument(e, b, x)), Json(e, SourceDocument(e, c, y)))
    ensures EdgeOf(e, b, r, x).output == EdgeOf(e, c, q, y).output
            ==> (r == q && b.keys == c.keys && Texts(e, x) == Texts(e, y))
                || Collides(e, Json(e, OutputDocument(e, b, r, x)), Json(e, OutputDocument(e, c, q, y)))
  {
    if EdgeOf(e, b, r, x).source == EdgeOf(e, c, q, y).source {
      SameDocument(e, SourceDocument(e, b, x), SourceDocument(e, c, y));
    }
    if EdgeOf(e, b, r, x).output == EdgeOf(e, c, q, y).output {
      SameDocument(e, OutputDocument(e, b, r, x), OutputDocument(e, c, q, y));
    }
    hide Texts, HexDigest, Json, Faithful;
  }

  lemma SameDocument(e: Encoding, a: Document, b: Document)
    requires Faithful(e) && HexDigest(e, Json(e, a)) == HexDigest(e, Json(e, b))
    ensures a == b || Collides(e, Json(e, a), Json(e, b))
  {
    HexDigestSame(e, Json(e, a), Json(e, b));
    hide HexDigest;
  }

  /** The digest in the evidence stands for the edges: two artifacts with one digest have the same edges in the same
      order, or exhibit a collision. */
  lemma EvidenceBindsEdges(e: Encoding, context: Result<Binding, RecordFragment.FragmentError>, rows: seq<seq<Value>>,
                           other: Result<Binding, RecordFragment.FragmentError>, others: seq<seq<Value>>,
                           x: string, r: string, y: string, q: string)
    requires Faithful(e) && ContextBound(context) && ContextBound(other)
    requires var one, two := Capture(e, context, x, r, rows), Capture(e, other, y, q, others);
             one.Ok? && two.Ok? && one.value.1.edgeDigest == two.value.1.edgeDigest
    ensures var a, b := Capture(e, context, x, r, rows).value.0, Capture(e, other, y, q, others).value.0;
            a.edges == b.edges || Collides(e, Json(e, Edges(a.edges)), Json(e, Edges(b.edges)))
  {
    var a, b := Capture(e, context, x, r, rows).value.0, Capture(e, other, y, q, others).value.0;
    hide Sorted, EdgesOf, KeysOf, Faithful, HexDigest, Json;
    SameDocument(e, Edges(a.edges), Edges(b.edges));
  }

  // ----- what the artifact depends on -----

  /** Two keys of one result whose different output documents have one digest. */
  ghost predicate OutputCollision(e: Encoding, b: Binding, resultId: string, keys: seq<Key>) {
    exists i, j | 0 <= i < |keys| && 0 <= j < |keys| ::
      Collides(e, Json(e, OutputDocument(e, b, resultId, keys[i])), Json(e, OutputDocument(e, b, resultId, keys[j])))
  }

  lemma SameOutput(e: Encoding, b: Binding, resultId: string, x: Key, y: Key)
    requires Faithful(e) && EdgeOf(e, b, resultId, x).output == EdgeOf(e, b, resultId, y).output
    requires !Collides(e, Json(e, OutputDocument(e, b, resultId, x)), Json(e, OutputDocument(e, b, resultId, y)))
    ensures EdgeOf(e, b, resultId, x) == EdgeOf(e, b, resultId, y)
  {
    var p, q := OutputDocument(e, b, resultId, x), OutputDocument(e, b, resultId, y);
    HexDigestSame(e, Json(e, p), Json(e, q));
    hide HexDigest;
    assert p == q;
  }

  /** Without a collision an output record has one edge. */
  lemma EdgesDetermined(e: Encoding, b: Binding, resultId: string, keys: seq<Key>)
    requires Faithful(e) && !OutputCollision(e, b, resultId, keys)
    ensures Determined(EdgesOf(e, b, resultId, keys))
  {
    var edges := EdgesOf(e, b, resultId, keys);
    hide EdgeOf, Faithful, OutputDocument, Collides;
    forall x, y | x in edges && y in edges && x.output == y.output ensures x == y {
      var i :| 0 <= i < |keys| && edges[i] == x;
      var j :| 0 <= j < |keys| && edges[j] == y;
      SameOutput(e, b, resultId, keys[i], keys[j]);
    }
  }

  lemma {:induction false} EdgesPermute(e: Encoding, b: Binding, resultId: string, s: seq<Key>, t: seq<Key>)
    requires multiset(s) == multiset(t)
    ensures multiset(EdgesOf(e, b, resultId, s)) == multiset(EdgesOf(e, b, resultId, t))
    decreases |s|
  {
    assert |multiset(s)| == |s| && |multiset(t)| == |t|;
    if s == [] {
      assert t == [];
    } else {
      assert s[0] in multiset(t);
      var k :| 0 <= k < |t| && t[k] == s[0];
      RemoveAt(s, 0);
      RemoveAt(t, k);
      hide EdgesOf, EdgeOf;
      EdgesPermute(e, b, resultId, Without(s, 0), Without(t, k));
      EdgesWithout(e, b, resultId, s, 0);
      EdgesWithout(e, b, resultId, t, k);
    }
  }

  lemma EdgesWithout(e: Encoding, b: Binding, resultId: string, keys: seq<Key>, k: nat)
    requires k < |keys|
    ensures multiset(EdgesOf(e, b, resultId, keys))
            == multiset(EdgesOf(e, b, resultId, Without(keys, k))) + multiset{EdgeOf(e, b, resultId, keys[k])}
  {
    assert keys == keys[..k] + [keys[k]] + keys[k + 1..];
    EdgesSplit(e, b, resultId, keys[..k], keys[k], keys[k + 1..]);
  }

  lemma EdgesSplit(e: Encoding, b: Binding, resultId: string, before: seq<Key>, key: Key, after: seq<Key>)
    ensures multiset(EdgesOf(e, b, resultId, before + [key] + after))
            == multiset(EdgesOf(e, b, resultId, before + after)) + multiset{EdgeOf(e, b, resultId, key)}
  {
    hide EdgeOf;
    var x, y := EdgesOf(e, b, resultId, before), EdgesOf(e, b, resultId, after);
    assert EdgesOf(e, b, resultId, before + [key] + after) == x + [EdgeOf(e, b, resultId, key)] + y;
    assert EdgesOf(e, b, resultId, before + after) == x + y;
  }

  function KeySet(keys: seq<Key>): set<Key> {
    set key | key in keys
  }

  lemma {:induction false} DistinctMultiset(keys: seq<Key>)
    requires DistinctKeys(keys)
    ensures multiset(keys) == multiset(KeySet(keys))
  {
    if keys != [] {
      var front, last := keys[..|keys| - 1], keys[|keys| - 1];
      DistinctMultiset(front);
      assert keys == front + [last];
      assert KeySet(keys) == KeySet(front) + {last} && last !in KeySet(front);
    }
  }

  /** The artifact depends on nothing but the set of keys: any order of the rows, and any other columns, give the
      identical artifact; two keys of the result collide otherwise. */
  lemma DependsOnKeySet(e: Encoding, b: Binding, executionId: string, resultId: string, s: seq<Key>, t: seq<Key>)
    requires Faithful(e) && DistinctKeys(s) && DistinctKeys(t) && KeySet(s) == KeySet(t)
    ensures ArtifactOf(e, b, executionId, resultId, s) == ArtifactOf(e, b, executionId, resultId, t)
            || OutputCollision(e, b, resultId, s)
  {
    DistinctMultiset(s);
    DistinctMultiset(t);
    assert |multiset(s)| == |s| && |multiset(t)| == |t|;
    if !OutputCollision(e, b, resultId, s) {
      EdgesPermute(e, b, resultId, s, t);
      EdgesDetermined(e, b, resultId, s);
      hide EdgesOf, OutputCollision, KeySet, Faithful, DistinctKeys, Determined;
      SortedSame(EdgesOf(e, b, resultId, s), EdgesOf(e, b, resultId, t));
    }
  }

  lemma SortedSame(x: seq<RecordEdge>, y: seq<RecordEdge>)
    requires multiset(x) == multiset(y) && Determined(x)
    ensures Sorted(x) == Sorted(y)
  {
    SortedInOrder(x);
    SortedInOrder(y);
    SameElements(Sorted(x), x);
    hide InOrder, Sorted;
    OrderUnique(Sorted(x), Sorted(y));
  }

  lemma PermutedRowsDiffer(b: Binding, rows: seq<seq<Value>>, other: seq<seq<Value>>, keys: seq<Key>, i: nat, j: nat)
    requires Bound(b) && AreKeys(b, rows, keys) && multiset(rows) == multiset(other) && i < j < |other|
    ensures other[i] in rows && other[j] in rows
    ensures |other[i]| == |b.columns| && |other[j]| == |b.columns|
    ensures KeyAt(b.indexes, other[i]) != KeyAt(b.indexes, other[j])
  {
    var p := Counterpart(other, rows, i);
    var q := Counterpart(other, rows, j);
    if p == q {
      CountedTwice(other, i, j);
      CountedOnce(rows, other[i]);
    }
  }

  /** Rows in another order have the same set of keys. */
  lemma PermutedKeys(b: Binding, rows: seq<seq<Value>>, other: seq<seq<Value>>, keys: seq<Key>) returns (moved: seq<Key>)
    requires Bound(b) && AreKeys(b, rows, keys) && multiset(rows) == multiset(other)
    ensures AreKeys(b, other, moved) && KeySet(moved) == KeySet(keys)
  {
    forall i | 0 <= i < |other| ensures |other[i]| == |b.columns| && KeyAt(b.indexes, other[i]) in keys && Null !in KeyAt(b.indexes, other[i]) {
      var p := Counterpart(other, rows, i);
      assert keys[p] == KeyAt(b.indexes, other[i]);
    }
    forall key | key in keys ensures exists i | 0 <= i < |other| :: key == KeyAt(b.indexes, other[i]) {
      var p :| 0 <= p < |rows| && keys[p] == key;
      var i := Counterpart(rows, other, p);
    }
    forall i, j | 0 <= i < j < |other| ensures KeyAt(b.indexes, other[i]) != KeyAt(b.indexes, other[j]) {
      PermutedRowsDiffer(b, rows, other, keys, i, j);
    }
    hide KeyAt;
    moved := seq(|other|, i requires 0 <= i < |other| => KeyAt(b.indexes, other[i]));
    forall key | key in keys ensures key in moved {
      var i :| 0 <= i < |other| && key == KeyAt(b.indexes, other[i]);
      assert moved[i] == key;
    }
  }

  /** Rows in any other order verify against the artifact too, unless two of their keys collide. */
  lemma AnyOrderVerifies(e: Encoding, b: Binding, rows: seq<seq<Value>>, other: seq<seq<Value>>, evidence: Evidence, artifact: Artifact)
    requires Faithful(e) && Bound(b) && multiset(rows) == multiset(other)
    requires Satisfied(e, Ok(b), rows, evidence, artifact)
    ensures Satisfied(e, Ok(b), other, evidence, artifact) || OutputCollision(e, b, artifact.resultId, KeysOf(b, rows).value)
  {
    KeysExact(b, rows);
    var moved := PermutedKeys(b, rows, other, KeysOf(b, rows).value);
    KeysExact(b, other);
    SameKeys(b, other, KeysOf(b, other).value, moved);
    hide KeysOf, ArtifactOf, Faithful, OutputCollision, AreKeys;
    DependsOnKeySet(e, b, artifact.executionId, artifact.resultId, KeysOf(b, rows).value, KeysOf(b, other).value);
  }

  // ----- what the artifact pins down -----

  /** A key of each result, with different source documents and one digest. */
  ghost predicate SourceCollision(e: Encoding, b: Binding, s: seq<Key>, t: seq<Key>) {
    exists i, j | 0 <= i < |s| && 0 <= j < |t| ::
      Collides(e, Json(e, SourceDocument(e, b, s[i])), Json(e, SourceDocument(e, b, t[j])))
  }

  lemma SameSource(e: Encoding, b: Binding, resultId: string, x: Key, y: Key)
    requires Faithful(e) && EdgeOf(e, b, resultId, x) == EdgeOf(e, b, resultId, y)
    requires !Collides(e, Json(e, SourceDocument(e, b, x)), Json(e, SourceDocument(e, b, y)))
    ensures Texts(e, x) == Texts(e, y)
  {
    HexDigestSame(e, Json(e, SourceDocument(e, b, x)), Json(e, SourceDocument(e, b, y)));
    hide HexDigest;
    assert SourceDocument(e, b, x) == SourceDocument(e, b, y);
  }

  predicate TextIn(e: Encoding, key: Key, keys: seq<Key>) {
    exists j | 0 <= j < |keys| :: Texts(e, key) == Texts(e, keys[j])
  }

  /** The other result prints this key too, or a source collision is at hand. */
  lemma EdgeFixesText(e: Encoding, b: Binding, resultId: string, s: seq<Key>, t: seq<Key>, i: nat)
    requires Faithful(e) && i < |s|
    requires multiset(EdgesOf(e, b, resultId, s)) == multiset(EdgesOf(e, b, resultId, t))
    ensures TextIn(e, s[i], t) || SourceCollision(e, b, s, t)
  {
    var x, y := EdgesOf(e, b, resultId, s), EdgesOf(e, b, resultId, t);
    hide EdgeOf, Texts, SourceDocument, Faithful, Collides;
    var j := Counterpart(x, y, i);
    if !SourceCollision(e, b, s, t) { SameSource(e, b, resultId, s[i], t[j]); }
  }

  /** Two results with one artifact print the same keys, or a source collision between them is at hand. */
  lemma ArtifactFixesTexts(e: Encoding, b: Binding, executionId: string, resultId: string, s: seq<Key>, t: seq<Key>)
    requires Faithful(e)
    requires ArtifactOf(e, b, executionId, resultId, s) == ArtifactOf(e, b, executionId, resultId, t)
    ensures || ((forall i | 0 <= i < |s| :: TextIn(e, s[i], t)) && (forall j | 0 <= j < |t| :: TextIn(e, t[j], s)))
            || SourceCollision(e, b, s, t) || SourceCollision(e, b, t, s)
  {
    SortedInOrder(EdgesOf(e, b, resultId, s));
    SortedInOrder(EdgesOf(e, b, resultId, t));
    hide Sorted, InOrder, EdgesOf, Faithful, SourceCollision, TextIn;
    forall i | 0 <= i < |s| ensures TextIn(e, s[i], t) || SourceCollision(e, b, s, t) {
      EdgeFixesText(e, b, resultId, s, t, i);
    }
    forall j | 0 <= j < |t| ensures TextIn(e, t[j], s) || SourceCollision(e, b, t, s) {
      EdgeFixesText(e, b, resultId, t, s, j);
    }
  }

  /** Nothing finer than the printed keys is pinned down: keys of different types that print alike share an artifact. */
  lemma TextsAreAll(e: Encoding, b: Binding, executionId: string, resultId: string, s: seq<Key>, t: seq<Key>)
    requires |s| == |t| && forall i | 0 <= i < |s| :: Texts(e, s[i]) == Texts(e, t[i])
    ensures ArtifactOf(e, b, executionId, resultId, s) == ArtifactOf(e, b, executionId, resultId, t)
  {
    assert EdgesOf(e, b, resultId, s) == EdgesOf(e, b, resultId, t);
  }

  /** `default=str`: a datetime prints like the text of its stamp. */
  ghost predicate PrintsStamps(e: Encoding, stamp: int -> string) {
    forall t :: e.plain(Instant(t)) == e.plain(Text(stamp(t)))
  }

  lemma OneKey(b: Binding, row: seq<Value>)
    requires Bound(b) && |row| == |b.columns| && Null !in KeyAt(b.indexes, row)
    ensures KeysOf(b, [row]) == Ok([KeyAt(b.indexes, row)])
  {
    hide KeyAt;
    KeysAccepted(b, [row], [KeyAt(b.indexes, row)]);
  }

  /** A key cell that holds a datetime, and the same row with the stamp's text in its place: different keys, one printed
      key. */
  lemma StampedKey(e: Encoding, stamp: int -> string, b: Binding, row: seq<Value>, k: nat)
    requires PrintsStamps(e, stamp) && Bound(b) && |row| == |b.columns| && Null !in KeyAt(b.indexes, row)
    requires k in b.indexes && k < |row| && row[k].Instant?
    ensures var x, y := KeyAt(b.indexes, row), KeyAt(b.indexes, row[k := Text(stamp(row[k].t))]);
            x != y && Null !in y && Texts(e, x) == Texts(e, y) && Tagged(e, x) != Tagged(e, y)
  {
    var other := row[k := Text(stamp(row[k].t))];
    var x, y := KeyAt(b.indexes, row), KeyAt(b.indexes, other);
    var i :| 0 <= i < |b.indexes| && b.indexes[i] == k;
    assert x[i] == row[k] && y[i] == other[k];
    assert Tagged(e, x)[i].typeName == "datetime" && Tagged(e, y)[i].typeName == "str";
    forall j | 0 <= j < |y| ensures e.plain(x[j]) == e.plain(y[j]) && y[j] != Null {
      assert x[j] in x;
    }
    assert Texts(e, x) == Texts(e, y);
  }

  /** Two results with different keys that share artifact and evidence, so each verifies against the other's: any
      accepted row whose key holds a datetime, and that row with the stamp's text instead. */
  lemma TypesShareArtifact(e: Encoding, stamp: int -> string, b: Binding, executionId: string, resultId: string,
                           row: seq<Value>, k: nat)
    requires PrintsStamps(e, stamp) && Bound(b) && executionId != "" && resultId != ""
    requires |row| == |b.columns| && Null !in KeyAt(b.indexes, row) && k in b.indexes && k < |row| && row[k].Instant?
    ensures var other := row[k := Text(stamp(row[k].t))];
            var captured := Capture(e, Ok(b), executionId, resultId, [row]);
            && KeyAt(b.indexes, row) != KeyAt(b.indexes, other)
            && captured.Ok? && Capture(e, Ok(b), executionId, resultId, [other]) == captured
            && Satisfied(e, Ok(b), [row], captured.value.1, captured.value.0)
            && Satisfied(e, Ok(b), [other], captured.value.1, captured.value.0)
  {
    var other := row[k := Text(stamp(row[k].t))];
    StampedKey(e, stamp, b, row, k);
    OneKey(b, row);
    OneKey(b, other);
    TextsAreAll(e, b, executionId, resultId, [KeyAt(b.indexes, row)], [KeyAt(b.indexes, other)]);
    hide KeysOf, KeyAt, ArtifactOf, Satisfied, PrintsStamps;
    CaptureVerifies(e, Ok(b), executionId, resultId, [row]);
    CaptureVerifies(e, Ok(b), executionId, resultId, [other]);
  }
}
