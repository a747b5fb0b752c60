/** The compact encoding: 64 bytes per edge, in the order of the rows, behind a length-prefixed header. */
module RecordLineageV2 {
  import opened Wrappers
  import opened Sql
  import opened RecordEvidence
  import RecordFragment

  datatype Artifact = Artifact(context: ArtifactContext, edges: Bytes, encoding: string)

  function V2Name(): string { "trustaero-record-edges-v2" }

  function KeyBytes(e: Encoding, key: Key): Bytes {
    Json(e, TypedKey(Tagged(e, key)))
  }

  /** What is hashed for the output side of an edge, and for its source side. */
  function OutputPreimage(e: Encoding, resultId: string, key: Key): Bytes {
    [79] + e.sha(e.utf8(resultId)) + KeyBytes(e, key)
  }

  function SourcePreimage(e: Encoding, b: Binding, key: Key): Bytes {
    [83] + e.sha(Json(e, SourceContext(b.dataset, b.snapshot, b.keys))) + KeyBytes(e, key)
  }

  function EdgeBytes(e: Encoding, b: Binding, resultId: string, key: Key): (edge: Bytes)
    ensures |edge| == 64
  {
    e.sha(OutputPreimage(e, resultId, key)) + e.sha(SourcePreimage(e, b, key))
  }

  function EdgeBlocks(e: Encoding, b: Binding, resultId: string, keys: seq<Key>): seq<Bytes> {
    seq(|keys|, i requires 0 <= i < |keys| => EdgeBytes(e, b, resultId, keys[i]))
  }

  ghost predicate ContextBound(context: Result<Binding, RecordFragment.FragmentError>) {
    context.Ok? ==> Bound(context.value)
  }

  datatype Derived = Derived(artifact: Artifact, edgeDigest: string)

  function ContextOf(b: Binding, executionId: string, resultId: string, rowCount: nat): ArtifactContext {
    ArtifactContext(executionId, resultId, b.planDigest, b.target, b.dataset, b.snapshot, rowCount)
  }

  function ArtifactOf(e: Encoding, b: Binding, executionId: string, resultId: string, keys: seq<Key>): Derived {
    var edges := Concat(EdgeBlocks(e, b, resultId, keys));
    Derived(Artifact(ContextOf(b, executionId, resultId, |keys|), edges, V2Name()), HexDigest(e, edges))
  }

  function Derive(e: Encoding, context: Result<Binding, RecordFragment.FragmentError>, executionId: string, resultId: string,
                  rows: seq<seq<Value>>): Result<Derived, LineageError>
    requires ContextBound(context)
  {
    if executionId == "" || resultId == "" then Error(EmptyIdentifier)
    else if context.Error? then Error(Refused(context.error))
    else
      var keys := KeysOf(context.value, rows);
      if keys.Error? then Error(keys.error) else Ok(ArtifactOf(e, context.value, executionId, resultId, keys.value))
  }

  /** The artifact names the run, the plan with its target, and the source, and holds 64 bytes for each row. */
  predicate Names(a: Artifact, b: Binding, executionId: string, resultId: string, rowCount: nat) {
    && a.context.executionId == executionId && a.context.resultId == resultId
    && a.context.planDigest == b.planDigest && a.context.target == b.target
    && a.context.dataset == b.dataset && a.context.snapshot == b.snapshot
    && a.context.rowCount == rowCount && |a.edges| == 64 * rowCount
  }

  /** `_derive_compact_artifact`: the edge bytes grow with every row. */
  method DeriveArtifact(e: Encoding, context: Result<Binding, RecordFragment.FragmentError>, executionId: string, resultId: string,
                        rows: seq<seq<Value>>) returns (r: Result<Derived, LineageError>)
    requires ContextBound(context)
    ensures r == Derive(e, context, executionId, resultId, rows)
    ensures r.Ok? ==> context.Ok? && Names(r.value.artifact, context.value, executionId, resultId, |rows|)
  {
    if executionId == "" || resultId == "" { return Error(EmptyIdentifier); }
    if context.Error? { return Error(Refused(context.error)); }
    var b := context.value;
    var seen: set<Key>, edges: Bytes := {}, [];
    ghost var keys: seq<Key> := [];
    hide EdgeBytes, NextKey, V2Name;
    for n := 0 to |rows|
      invariant KeysOf(b, rows[..n]) == Ok(keys)
      invariant forall key :: key in seen <==> key in keys
      invariant edges == Concat(EdgeBlocks(e, b, resultId, keys))
      invariant |keys| == n
    {
      var key := CheckRow(b, rows[n], seen, keys);
      KeysAppend(b, rows, n, keys);
      if key.Error? { return Error(key.error); }
      assert EdgeBlocks(e, b, resultId, keys + [key.value])[..n] == EdgeBlocks(e, b, resultId, keys);
      seen, keys := seen + {key.value}, keys + [key.value];
      edges := edges + EdgeBytes(e, b, resultId, key.value);
    }
    assert rows[..|rows|] == rows;
    ConcatLength(EdgeBlocks(e, b, resultId, keys), 64);
    r := Ok(Derived(Artifact(ContextOf(b, executionId, resultId, |rows|), edges, V2Name()), HexDigest(e, edges)));
  }

  // ----- capture and verification -----

  function Capture(e: Encoding, context: Result<Binding, RecordFragment.FragmentError>, executionId: string, resultId: string,
                   rows: seq<seq<Value>>): Result<(Artifact, Evidence), LineageError>
    requires ContextBound(context)
  {
    var derived := Derive(e, context, executionId, resultId, rows);
    if derived.Error? then Error(derived.error)
    else
      var Derived(artifact, edgeDigest) := derived.value;
      Ok((artifact, Evidence(executionId, resultId, true, [artifact.context.target], edgeDigest)))
  }

  predicate SummaryMatches(evidence: Evidence, artifact: Artifact, edgeDigest: string) {
    && evidence.executionId == artifact.context.executionId && evidence.resultId == artifact.context.resultId
    && evidence.recordLevel && evidence.covered == [artifact.context.target] && evidence.edgeDigest == edgeDigest
  }

  ghost predicate Satisfied(e: Encoding, context: Result<Binding, RecordFragment.FragmentError>, rows: seq<seq<Value>>,
                            evidence: Evidence, artifact: Artifact)
    requires ContextBound(context)
  {
    var derived := Derive(e, context, artifact.context.executionId, artifact.context.resultId, rows);
    derived.Ok? && artifact == derived.value.artifact && SummaryMatches(evidence, artifact, derived.value.edgeDigest)
  }

  /** `verify_compact_record_lineage_artifact`. */
  method Verify(e: Encoding, context: Result<Binding, RecordFragment.FragmentError>, rows: seq<seq<Value>>,
                evidence: Evidence, artifact: Artifact) returns (diagnostics: seq<Diagnostic>)
    requires ContextBound(context)
    ensures diagnostics == [] <==> Satisfied(e, context, rows, evidence, artifact)
  {
    var expected := DeriveArtifact(e, context, artifact.context.executionId, artifact.context.resultId, rows);
    hide Derive;
    if expected.Error? { return [NotDerivable(expected.error)]; }
    diagnostics := [];
    if artifact != expected.value.artifact { diagnostics := diagnostics + [ArtifactMismatch]; }
    if !SummaryMatches(evidence, artifact, expected.value.edgeDigest) { diagnostics := diagnostics + [SummaryMismatch]; }
  }

  lemma CaptureVerifies(e: Encoding, context: Result<Binding, RecordFragment.FragmentError>, executionId: string, resultId: string,
                        rows: seq<seq<Value>>)
    requires ContextBound(context)
    ensures var captured := Capture(e, context, executionId, resultId, rows);
            captured.Ok? ==> Satisfied(e, context, rows, captured.value.1, captured.value.0)
  {
    hide Concat, EdgeBlocks, KeysOf, V2Name;
  }

  // ----- what an edge binds -----

  function SourceJson(e: Encoding, b: Binding): Bytes {
    Json(e, SourceContext(b.dataset, b.snapshot, b.keys))
  }

  /** One source identity means one source and one typed key; the exception is an exhibited collision, of what is hashed
      or of the source contexts hashed into it. */
  lemma SourceBinds(e: Encoding, b: Binding, c: Binding, x: Key, y: Key)
    requires Faithful(e) && e.sha(SourcePreimage(e, b, x)) == e.sha(SourcePreimage(e, c, y))
    ensures || (SharesSource(b, c) && Tagged(e, x) == Tagged(e, y))
            || Collides(e, SourcePreimage(e, b, x), SourcePreimage(e, c, y))
            || Collides(e, SourceJson(e, b), SourceJson(e, c))
  {
    var p, q := SourcePreimage(e, b, x), SourcePreimage(e, c, y);
    assert p[1..33] == e.sha(SourceJson(e, b)) && p[33..] == KeyBytes(e, x);
    assert q[1..33] == e.sha(SourceJson(e, c)) && q[33..] == KeyBytes(e, y);
    hide SourcePreimage, Tagged;
  }

  /** One output identity means one result and one typed key. */
  lemma OutputBinds(e: Encoding, r: string, q: string, x: Key, y: Key)
    requires Faithful(e) && e.sha(OutputPreimage(e, r, x)) == e.sha(OutputPreimage(e, q, y))
    ensures || (r == q && Tagged(e, x) == Tagged(e, y))
            || Collides(e, OutputPreimage(e, r, x), OutputPreimage(e, q, y))
            || Collides(e, e.utf8(r), e.utf8(q))
  {
    var a, b := OutputPreimage(e, r, x), OutputPreimage(e, q, y);
    assert a[1..33] == e.sha(e.utf8(r)) && a[33..] == KeyBytes(e, x);
    assert b[1..33] == e.sha(e.utf8(q)) && b[33..] == KeyBytes(e, y);
    hide OutputPreimage, Tagged;
  }

  /** The digest in the evidence stands for the edges. */
  lemma EvidenceBindsEdges(e: Encoding, context: Result<Binding, RecordFragment.FragmentError>, rows: seq<seq<Value>>,
                           other: Result<Binding, RecordFragment.FragmentError>, others: seq<seq<Value>>,
                           x: string, r: string, y: string, q: string)
    requires Faithful(e) && ContextBound(context) && ContextBound(other)
    requires var one, two := Capture(e, context, x, r, rows), Capture(e, other, y, q, others);
             one.Ok? && two.Ok? && one.value.1.edgeDigest == two.value.1.edgeDigest
    ensures var a, b := Capture(e, context, x, r, rows).value.0, Capture(e, other, y, q, others).value.0;
            a.edges == b.edges || Collides(e, a.edges, b.edges)
  {
    var a, b := Capture(e, context, x, r, rows).value.0, Capture(e, other, y, q, others).value.0;
    hide Concat, EdgeBlocks, KeysOf, V2Name, HexDigest;
    HexDigestSame(e, a.edges, b.edges);
  }

  // ----- what an artifact pins down -----

  /** Keys at one position of two results whose different source preimages have one digest. */
  ghost predicate CollisionAt(e: Encoding, b: Binding, s: seq<Key>, t: seq<Key>, i: nat)
    requires i < |s| && i < |t|
  {
    Collides(e, SourcePreimage(e, b, s[i]), SourcePreimage(e, b, t[i]))
  }

  lemma SameKeyBytes(e: Encoding, b: Binding, resultId: string, x: Key, y: Key)
    requires Faithful(e) && EdgeBytes(e, b, resultId, x) == EdgeBytes(e, b, resultId, y)
    requires !Collides(e, SourcePreimage(e, b, x), SourcePreimage(e, b, y))
    ensures Tagged(e, x) == Tagged(e, y)
  {
    assert EdgeBytes(e, b, resultId, x)[32..] == e.sha(SourcePreimage(e, b, x));
    assert EdgeBytes(e, b, resultId, y)[32..] == e.sha(SourcePreimage(e, b, y));
    assert SourcePreimage(e, b, x)[33..] == KeyBytes(e, x) && SourcePreimage(e, b, y)[33..] == KeyBytes(e, y);
  }

  /** Keys of the same types and texts, position by position. */
  predicate SameTyped(e: Encoding, s: seq<Key>, t: seq<Key>) {
    |s| == |t| && forall i | 0 <= i < |s| :: Tagged(e, s[i]) == Tagged(e, t[i])
  }

  ghost predicate Collision(e: Encoding, b: Binding, s: seq<Key>, t: seq<Key>) {
    |s| == |t| && exists i | 0 <= i < |s| :: CollisionAt(e, b, s, t, i)
  }

  lemma BlocksFixKeys(e: Encoding, b: Binding, resultId: string, s: seq<Key>, t: seq<Key>)
    requires Faithful(e) && |s| == |t|
    requires Concat(EdgeBlocks(e, b, resultId, s)) == Concat(EdgeBlocks(e, b, resultId, t))
    ensures SameTyped(e, s, t) || Collision(e, b, s, t)
  {
    SameBlocks(EdgeBlocks(e, b, resultId, s), EdgeBlocks(e, b, resultId, t), 64);
    if !Collision(e, b, s, t) {
      forall i | 0 <= i < |s| ensures Tagged(e, s[i]) == Tagged(e, t[i]) {
        assert EdgeBlocks(e, b, resultId, s)[i] == EdgeBlocks(e, b, resultId, t)[i];
        assert !CollisionAt(e, b, s, t, i);
        hide EdgeBytes, SourcePreimage, Tagged, Faithful;
        SameKeyBytes(e, b, resultId, s[i], t[i]);
      }
    }
  }

  /** The texts of two values of one type tell them apart. */
  ghost predicate Telling(e: Encoding, x: Key, y: Key) {
    forall v, w | v in x && w in y && TypeName(v) == TypeName(w) && e.plain(v) == e.plain(w) :: v == w
  }

  lemma TaggedIsKey(e: Encoding, x: Key, y: Key)
    requires Tagged(e, x) == Tagged(e, y) && Telling(e, x, y)
    ensures x == y
  {
    assert |x| == |Tagged(e, x)| == |Tagged(e, y)| == |y|;
    forall i | 0 <= i < |x| ensures x[i] == y[i] {
      assert Tagged(e, x)[i] == Tagged(e, y)[i];
      assert x[i] in x && y[i] in y;
    }
  }

  /** So for keys at the same position. */
  ghost predicate AllTelling(e: Encoding, s: seq<Key>, t: seq<Key>) {
    |s| == |t| && forall i | 0 <= i < |s| :: Telling(e, s[i], t[i])
  }

  lemma TypedAreKeys(e: Encoding, s: seq<Key>, t: seq<Key>)
    requires SameTyped(e, s, t) && AllTelling(e, s, t)
    ensures s == t
  {
    hide Tagged, Telling;
    forall i | 0 <= i < |s| ensures s[i] == t[i] { TaggedIsKey(e, s[i], t[i]); }
  }

  /** Two results that verify against one artifact have, row by row and in order, keys of the same types and texts, and
      so the same keys where texts tell values of one type apart; the exception is an exhibited collision. */
  lemma VerifierSound(e: Encoding, b: Binding, rows: seq<seq<Value>>, other: seq<seq<Value>>,
                      evidence: Evidence, evidence': Evidence, artifact: Artifact)
    requires Faithful(e) && Bound(b)
    requires Satisfied(e, Ok(b), rows, evidence, artifact) && Satisfied(e, Ok(b), other, evidence', artifact)
    ensures KeysOf(b, rows).Ok? && KeysOf(b, other).Ok? && |rows| == |other|
    ensures var s, t := KeysOf(b, rows).value, KeysOf(b, other).value;
            && |s| == |t| == |rows|
            && (SameTyped(e, s, t) || Collision(e, b, s, t))
            && (AllTelling(e, s, t) ==> s == t || Collision(e, b, s, t))
  {
    KeysExact(b, rows);
    KeysExact(b, other);
    hide KeysOf, AreKeys, Collision, SameTyped, AllTelling, EdgeBlocks, Concat, Faithful;
    assert ContextOf(b, artifact.context.executionId, artifact.context.resultId, |KeysOf(b, rows).value|).rowCount
           == ContextOf(b, artifact.context.executionId, artifact.context.resultId, |KeysOf(b, other).value|).rowCount;
    var s, t := KeysOf(b, rows).value, KeysOf(b, other).value;
    BlocksFixKeys(e, b, artifact.context.resultId, s, t);
    if SameTyped(e, s, t) && AllTelling(e, s, t) { TypedAreKeys(e, s, t); }
  }

  // ----- the payload -----

  function HeaderBytes(e: Encoding, a: Artifact): Bytes {
    Json(e, Header(a.encoding, a.context, |a.edges| / 64))
  }

  function BinaryPayload(e: Encoding, a: Artifact): Option<Bytes> {
    Payload(HeaderBytes(e, a), a.edges)
  }

  /** The payload determines the whole artifact, so a digest of it binds header and edges alike. */
  lemma PayloadBindsArtifact(e: Encoding, a: Artifact, a': Artifact)
    requires Faithful(e) && BinaryPayload(e, a).Some? && BinaryPayload(e, a) == BinaryPayload(e, a')
    ensures a == a'
  {
    PayloadParses(HeaderBytes(e, a), a.edges);
    PayloadParses(HeaderBytes(e, a'), a'.edges);
    hide Payload, Parse;
    assert HeaderBytes(e, a) == HeaderBytes(e, a') && a.edges == a'.edges;
  }
}
