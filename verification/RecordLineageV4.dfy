/** The ordinal encoding: one 32-byte source identity per row, tied to the digest of the visible result. */
module RecordLineageV4 {
  import opened Wrappers
  import opened Sql
  import opened Numerals
  import opened Shuffling
  import opened RecordEvidence
  import RecordFragment

  datatype Artifact = Artifact(context: ArtifactContext, sourceIds: Bytes, encoding: string)

  function V4Name(): string { "trustaero-record-ordinal-edges-v4" }

  function Prefix(e: Encoding, b: Binding): string {
    e.dumps(SourcePrefix(b.dataset, b.snapshot, b.keys))
  }

  function Colon(): string { ":" }

  /** What the checker hashes: prefix, length of the encoded key, colon, encoded key. */
  function KeyPayload(e: Encoding, prefix: string, key: string): Bytes {
    e.utf8(prefix) + e.utf8(Decimal(|e.utf8(key)|)) + e.utf8(Colon()) + e.utf8(key)
  }

  function KeyDigest(e: Encoding, prefix: string, key: string): Digest {
    e.sha(KeyPayload(e, prefix, key))
  }

  /** What the database hashes inside the query: the same, concatenated as text first; NULL for a NULL key. */
  function DatabaseId(e: Encoding, prefix: string, cell: Value): Option<Bytes> {
    if cell.Text? then Some(e.sha(e.utf8(prefix + Decimal(|e.utf8(cell.s)|) + Colon() + cell.s))) else None
  }

  lemma DatabaseAgrees(e: Encoding, prefix: string, key: string)
    requires Faithful(e)
    ensures DatabaseId(e, prefix, Text(key)) == Some(KeyDigest(e, prefix, key))
  {
    hide Decimal, Colon;
    var n := Decimal(|e.utf8(key)|);
    assert e.utf8(prefix + n + Colon() + key) == e.utf8(prefix + n + Colon()) + e.utf8(key);
    assert e.utf8(prefix + n + Colon()) == e.utf8(prefix + n) + e.utf8(Colon());
    assert e.utf8(prefix + n) == e.utf8(prefix) + e.utf8(n);
  }

  lemma EncodedTogether(e: Encoding, a: string, b: string, c: string)
    requires Faithful(e)
    ensures e.utf8(a + b + c) == e.utf8(a) + e.utf8(b) + e.utf8(c)
  {
    assert e.utf8(a + b + c) == e.utf8(a + b) + e.utf8(c);
  }

  lemma DecodedSame(e: Encoding, a: string, b: string)
    requires Faithful(e) && e.utf8(a) == e.utf8(b)
    ensures a == b
  {}

  function Framed(e: Encoding, key: string): string {
    Decimal(|e.utf8(key)|) + Colon() + key
  }

  lemma PayloadFramed(e: Encoding, prefix: string, key: string)
    requires Faithful(e)
    ensures KeyPayload(e, prefix, key) == e.utf8(prefix) + e.utf8(Framed(e, key))
  {
    hide Faithful, Decimal, Colon;
    EncodedTogether(e, Decimal(|e.utf8(key)|), Colon(), key);
  }

  lemma FramedSame(e: Encoding, x: string, y: string)
    requires Framed(e, x) == Framed(e, y)
    ensures x == y
  {
    var m, n := Decimal(|e.utf8(x)|), Decimal(|e.utf8(y)|);
    OnlyDigits(|e.utf8(x)|);
    OnlyDigits(|e.utf8(y)|);
    hide Decimal;
    assert Colon() == [':'];
    FirstSeparator(m, x, n, y, ':');
  }

  /** The length prefix keeps keys apart: different keys are hashed from different payloads. */
  lemma PayloadsDiffer(e: Encoding, prefix: string, x: string, y: string)
    requires Faithful(e) && KeyPayload(e, prefix, x) == KeyPayload(e, prefix, y)
    ensures x == y
  {
    hide Faithful, KeyPayload, Framed;
    PayloadFramed(e, prefix, x);
    PayloadFramed(e, prefix, y);
    SameTail(e.utf8(prefix), e.utf8(Framed(e, x)), e.utf8(Framed(e, y)));
    DecodedSame(e, Framed(e, x), Framed(e, y));
    FramedSame(e, x, y);
  }

  /** One identity means one source and one key, and the exception is an exhibited collision: prefixes are told apart
      although the key follows them without a separator. */
  lemma IdentityBinds(e: Encoding, b: Binding, c: Binding, x: string, y: string)
    requires Faithful(e) && SelfDelimiting(e) && KeyDigest(e, Prefix(e, b), x) == KeyDigest(e, Prefix(e, c), y)
    ensures (SharesSource(b, c) && x == y) || Collides(e, KeyPayload(e, Prefix(e, b), x), KeyPayload(e, Prefix(e, c), y))
  {
    if KeyPayload(e, Prefix(e, b), x) == KeyPayload(e, Prefix(e, c), y) {
      SamePrefix(e, SourcePrefix(b.dataset, b.snapshot, b.keys), x, SourcePrefix(c.dataset, c.snapshot, c.keys), y);
      hide Faithful, SelfDelimiting, KeyPayload;
      PayloadsDiffer(e, Prefix(e, b), x, y);
    }
  }

  lemma SamePrefix(e: Encoding, p: Document, x: string, q: Document, y: string)
    requires Faithful(e) && SelfDelimiting(e) && KeyPayload(e, e.dumps(p), x) == KeyPayload(e, e.dumps(q), y)
    ensures p == q
  {
    PayloadFramed(e, e.dumps(p), x);
    PayloadFramed(e, e.dumps(q), y);
    hide KeyPayload, Framed;
    assert e.utf8(e.dumps(p) + Framed(e, x)) == e.utf8(e.dumps(p)) + e.utf8(Framed(e, x));
    assert e.utf8(e.dumps(q) + Framed(e, y)) == e.utf8(e.dumps(q)) + e.utf8(Framed(e, y));
  }

  lemma SameTail(head: Bytes, a: Bytes, b: Bytes)
    requires head + a == head + b
    ensures a == b
  {
    assert (head + a)[|head|..] == a && (head + b)[|head|..] == b;
  }

  // ----- the bound result -----

  function ShownRow(e: Encoding, row: seq<Value>): seq<string> {
    seq(|row|, i requires 0 <= i < |row| => e.shown(row[i]))
  }

  function ShownRows(e: Encoding, rows: seq<seq<Value>>): seq<seq<string>> {
    seq(|rows|, i requires 0 <= i < |rows| => ShownRow(e, rows[i]))
  }

  function ResultBytes(e: Encoding, columns: seq<string>, rows: seq<seq<Value>>): Bytes {
    Json(e, ResultRows(columns, ShownRows(e, rows)))
  }

  /** `materialize_query_result`: the digest of the visible rows, if they all fit the columns. */
  function ResultId(e: Encoding, columns: seq<string>, rows: seq<seq<Value>>): Result<string, LineageError> {
    if forall row | row in rows :: |row| == |columns| then Ok(HexDigest(e, ResultBytes(e, columns, rows)))
    else Error(RowWidth)
  }

  // ----- capture -----

  /** A visible row and the identity the database computed beside it. */
  datatype Fetched = Fetched(row: seq<Value>, id: Option<Bytes>)

  function Visible(fetched: seq<Fetched>): seq<seq<Value>> {
    seq(|fetched|, i requires 0 <= i < |fetched| => fetched[i].row)
  }

  predicate DistinctIds(ids: seq<Bytes>) {
    forall i, j | 0 <= i < j < |ids| :: ids[i] != ids[j]
  }

  /** The identities of the fetched rows, all binary, 32 bytes wide and different. */
  ghost predicate AreIds(fetched: seq<Fetched>, ids: seq<Bytes>) {
    && |ids| == |fetched| && DistinctIds(ids)
    && forall i | 0 <= i < |ids| :: fetched[i].id == Some(ids[i]) && |ids[i]| == 32
  }

  function ArtifactOf(b: Binding, executionId: string, resultId: string, ids: seq<Bytes>): Artifact {
    Artifact(ArtifactContext(executionId, resultId, b.planDigest, b.target, b.dataset, b.snapshot, |ids|), Concat(ids), V4Name())
  }

  function EvidenceFor(e: Encoding, a: Artifact): Evidence {
    Evidence(a.context.executionId, a.context.resultId, true, [a.context.target], HexDigest(e, a.sourceIds))
  }

  /** The digest in the evidence stands for the identities. */
  lemma EvidenceBindsIds(e: Encoding, a: Artifact, b: Artifact)
    requires Faithful(e) && EvidenceFor(e, a).edgeDigest == EvidenceFor(e, b).edgeDigest
    ensures a.sourceIds == b.sourceIds || Collides(e, a.sourceIds, b.sourceIds)
  {
    HexDigestSame(e, a.sourceIds, b.sourceIds);
  }

  method CollectIds(fetched: seq<Fetched>) returns (r: Result<Bytes, LineageError>)
    ensures r.Ok? <==> exists ids :: AreIds(fetched, ids)
    ensures r.Ok? ==> exists ids :: AreIds(fetched, ids) && r.value == Concat(ids)
  {
    var bytes: Bytes, seen: set<Bytes> := [], {};
    ghost var ids: seq<Bytes> := [];
    for n := 0 to |fetched|
      invariant AreIds(fetched[..n], ids) && bytes == Concat(ids)
      invariant forall id :: id in seen <==> id in ids
    {
      var id := fetched[n].id;
      if id.None? || |id.value| != 32 { return Error(BadIdentity); }
      if id.value in seen {
        RepeatedId(fetched, n, ids);
        return Error(DuplicateKey);
      }
      assert (ids + [id.value])[..n] == ids;
      ids, seen, bytes := ids + [id.value], seen + {id.value}, bytes + id.value;
    }
    assert fetched[..|fetched|] == fetched;
    r := Ok(bytes);
  }

  lemma RepeatedId(fetched: seq<Fetched>, n: nat, ids: seq<Bytes>)
    requires n < |fetched| && AreIds(fetched[..n], ids) && fetched[n].id.Some? && fetched[n].id.value in ids
    ensures !exists all :: AreIds(fetched, all)
  {
    var k :| 0 <= k < n && ids[k] == fetched[n].id.value;
    assert fetched[..n][k] == fetched[k];
    forall all | AreIds(fetched, all) ensures false { IdsDiffer(fetched, all, k, n); }
  }

  lemma IdsDiffer(fetched: seq<Fetched>, ids: seq<Bytes>, i: nat, j: nat)
    requires AreIds(fetched, ids) && i < j < |fetched|
    ensures fetched[i].id != fetched[j].id
  {
    assert ids[i] != ids[j];
  }

  /** The artifact names the run, the result by its digest, the plan with its target, and the source, and holds 32 bytes
      for each row. */
  predicate Names(a: Artifact, b: Binding, executionId: string, resultId: string, rowCount: nat) {
    && a.context.executionId == executionId && a.context.resultId == resultId
    && a.context.planDigest == b.planDigest && a.context.target == b.target
    && a.context.dataset == b.dataset && a.context.snapshot == b.snapshot
    && a.context.rowCount == rowCount && |a.sourceIds| == 32 * rowCount
  }

  /** The capture half of `execute_ordinal_record_lineage_with_connection`, from the fetched rows on. */
  method Capture(e: Encoding, b: Binding, keyIsString: bool, executionId: string, fetched: seq<Fetched>)
    returns (r: Result<(Artifact, Evidence), LineageError>)
    ensures r.Ok? <==> |b.keys| == 1 && keyIsString && ResultId(e, b.columns, Visible(fetched)).Ok? && exists ids :: AreIds(fetched, ids)
    ensures r.Ok? ==>
              exists ids | AreIds(fetched, ids) ::
                r.value.0 == ArtifactOf(b, executionId, ResultId(e, b.columns, Visible(fetched)).value, ids)
    ensures r.Ok? ==> r.value.1 == EvidenceFor(e, r.value.0)
    ensures r.Ok? ==> Names(r.value.0, b, executionId, HexDigest(e, ResultBytes(e, b.columns, Visible(fetched))), |fetched|)
  {
    if |b.keys| != 1 { return Error(NotOneKey); }
    if !keyIsString { return Error(NotStringKey); }
    var result := ResultId(e, b.columns, Visible(fetched));
    if result.Error? { return Error(result.error); }
    var ids := CollectIds(fetched);
    if ids.Error? { return Error(ids.error); }
    hide V4Name, Concat;
    ghost var all :| AreIds(fetched, all) && ids.value == Concat(all);
    assert |all| == |fetched|;
    var context := ArtifactContext(executionId, result.value, b.planDigest, b.target, b.dataset, b.snapshot, |fetched|);
    var artifact := Artifact(context, ids.value, V4Name());
    assert artifact == ArtifactOf(b, executionId, result.value, all);
    ConcatLength(all, 32);
    r := Ok((artifact, EvidenceFor(e, artifact)));
  }

  // ----- verification -----

  function KeyCell(b: Binding, row: seq<Value>): Value
    requires Bound(b) && |b.keys| == 1 && |row| == |b.columns|
  {
    row[b.indexes[0]]
  }

  predicate DistinctStrings(keys: seq<string>) {
    forall i, j | 0 <= i < j < |keys| :: keys[i] != keys[j]
  }

  /** The rows carry these strings as keys, none repeated. */
  ghost predicate AreStrings(b: Binding, rows: seq<seq<Value>>, keys: seq<string>)
    requires Bound(b) && |b.keys| == 1
  {
    && |keys| == |rows| && DistinctStrings(keys)
    && forall i | 0 <= i < |rows| :: |rows[i]| == |b.columns| && KeyCell(b, rows[i]) == Text(keys[i])
  }

  function SourceIds(e: Encoding, b: Binding, keys: seq<string>): seq<Bytes> {
    seq(|keys|, i requires 0 <= i < |keys| => KeyDigest(e, Prefix(e, b), keys[i]))
  }

  method CollectSources(e: Encoding, b: Binding, rows: seq<seq<Value>>) returns (r: Result<Bytes, LineageError>)
    requires Bound(b) && |b.keys| == 1 && forall row | row in rows :: |row| == |b.columns|
    ensures r.Ok? <==> exists keys :: AreStrings(b, rows, keys)
    ensures forall keys | AreStrings(b, rows, keys) :: r == Ok(Concat(SourceIds(e, b, keys)))
  {
    var bytes: Bytes, seen: set<string> := [], {};
    ghost var keys: seq<string> := [];
    hide KeyDigest, Prefix;
    for n := 0 to |rows|
      invariant AreStrings(b, rows[..n], keys)
      invariant bytes == Concat(SourceIds(e, b, keys))
      invariant forall key :: key in seen <==> key in keys
    {
      assert rows[n] in rows;
      var cell := rows[n][b.indexes[0]];
      if !cell.Text? { return Error(NotStringKey); }
      if cell.s in seen {
        RepeatedString(b, rows, n, keys);
        return Error(DuplicateKey);
      }
      OneString(e, b, rows, n, keys, cell.s);
      keys, seen, bytes := keys + [cell.s], seen + {cell.s}, bytes + KeyDigest(e, Prefix(e, b), cell.s);
    }
    assert rows[..|rows|] == rows;
    forall other | AreStrings(b, rows, other) ensures other == keys { SameStrings(b, rows, other, keys); }
    r := Ok(bytes);
  }

  lemma SameStrings(b: Binding, rows: seq<seq<Value>>, s: seq<string>, t: seq<string>)
    requires Bound(b) && |b.keys| == 1 && AreStrings(b, rows, s) && AreStrings(b, rows, t)
    ensures s == t
  {}

  lemma OneString(e: Encoding, b: Binding, rows: seq<seq<Value>>, n: nat, keys: seq<string>, key: string)
    requires Bound(b) && |b.keys| == 1 && n < |rows| && |rows[n]| == |b.columns| && AreStrings(b, rows[..n], keys)
    requires KeyCell(b, rows[n]) == Text(key) && key !in keys
    ensures AreStrings(b, rows[..n + 1], keys + [key])
    ensures Concat(SourceIds(e, b, keys + [key])) == Concat(SourceIds(e, b, keys)) + KeyDigest(e, Prefix(e, b), key)
  {
    hide KeyDigest, Prefix;
    assert SourceIds(e, b, keys + [key])[..n] == SourceIds(e, b, keys);
    assert rows[..n + 1] == rows[..n] + [rows[n]];
  }

  lemma RepeatedString(b: Binding, rows: seq<seq<Value>>, n: nat, keys: seq<string>)
    requires Bound(b) && |b.keys| == 1 && n < |rows| && |rows[n]| == |b.columns| && AreStrings(b, rows[..n], keys)
    requires KeyCell(b, rows[n]).Text? && KeyCell(b, rows[n]).s in keys
    ensures !exists all :: AreStrings(b, rows, all)
  {
    var k :| 0 <= k < n && keys[k] == KeyCell(b, rows[n]).s;
    assert rows[..n][k] == rows[k];
    forall all | AreStrings(b, rows, all) ensures false { StringsDiffer(b, rows, all, k, n); }
  }

  lemma StringsDiffer(b: Binding, rows: seq<seq<Value>>, keys: seq<string>, i: nat, j: nat)
    requires Bound(b) && |b.keys| == 1 && AreStrings(b, rows, keys) && i < j < |rows|
    ensures KeyCell(b, rows[i]) != KeyCell(b, rows[j])
  {
    assert keys[i] != keys[j];
  }

  /** Accepting these rows: they are the bound result, and their keys in order give the stored identities. */
  ghost predicate Satisfied(e: Encoding, context: Result<Binding, RecordFragment.FragmentError>, rows: seq<seq<Value>>,
                            evidence: Evidence, artifact: Artifact)
    requires context.Ok? ==> Bound(context.value)
  {
    && context.Ok? && |context.value.keys| == 1
    && ResultId(e, context.value.columns, rows).Ok?
    && evidence == EvidenceFor(e, artifact)
    && exists keys :: AreStrings(context.value, rows, keys)
         && artifact == ArtifactOf(context.value, artifact.context.executionId,
                                   ResultId(e, context.value.columns, rows).value, SourceIds(e, context.value, keys))
  }

  /** `verify_ordinal_record_lineage_artifact`. */
  method Verify(e: Encoding, context: Result<Binding, RecordFragment.FragmentError>, rows: seq<seq<Value>>,
                evidence: Evidence, artifact: Artifact) returns (diagnostics: seq<Diagnostic>)
    requires context.Ok? ==> Bound(context.value)
    ensures diagnostics == [] <==> Satisfied(e, context, rows, evidence, artifact)
  {
    hide V4Name, Concat, HexDigest, ResultBytes, KeyDigest, Prefix;
    if context.Error? { return [NotDerivable(Refused(context.error))]; }
    var b := context.value;
    if |b.keys| != 1 { return [NotDerivable(NotOneKey)]; }
    var result := ResultId(e, b.columns, rows);
    if result.Error? { return [NotDerivable(result.error)]; }
    var sources := CollectSources(e, b, rows);
    if sources.Error? { return [NotDerivable(sources.error)]; }
    ghost var keys :| AreStrings(b, rows, keys);
    var expected := Artifact(
      ArtifactContext(artifact.context.executionId, result.value, b.planDigest, b.target, b.dataset, b.snapshot, |rows|),
      sources.value, V4Name());
    assert expected == ArtifactOf(b, artifact.context.executionId, result.value, SourceIds(e, b, keys));
    hide ResultId, AreStrings, ArtifactOf, SourceIds;
    diagnostics := [];
    if artifact != expected { diagnostics := diagnostics + [ArtifactMismatch]; }
    if || evidence.executionId != artifact.context.executionId || evidence.resultId != expected.context.resultId
       || !evidence.recordLevel || evidence.covered != [b.target] || evidence.edgeDigest != HexDigest(e, expected.sourceIds)
    { diagnostics := diagnostics + [SummaryMismatch]; }
    assert artifact == expected && evidence == EvidenceFor(e, artifact) ==> Satisfied(e, context, rows, evidence, artifact);
    if Satisfied(e, context, rows, evidence, artifact) { SameExpected(e, b, rows, artifact, keys); }
  }

  lemma SameExpected(e: Encoding, b: Binding, rows: seq<seq<Value>>, artifact: Artifact, keys: seq<string>)
    requires Bound(b) && |b.keys| == 1 && AreStrings(b, rows, keys) && ResultId(e, b.columns, rows).Ok?
    requires exists ks :: AreStrings(b, rows, ks)
               && artifact == ArtifactOf(b, artifact.context.executionId, ResultId(e, b.columns, rows).value, SourceIds(e, b, ks))
    ensures artifact == ArtifactOf(b, artifact.context.executionId, ResultId(e, b.columns, rows).value, SourceIds(e, b, keys))
  {
    hide ArtifactOf, SourceIds, ResultId;
    forall ks | AreStrings(b, rows, ks) ensures ks == keys {}
  }

  // ----- completeness, soundness, order -----

  /** The identity beside every row is the one the wrapped query computes from its key column. */
  ghost predicate HashedByDatabase(e: Encoding, b: Binding, fetched: seq<Fetched>)
    requires Bound(b) && |b.keys| == 1
  {
    forall i | 0 <= i < |fetched| && |fetched[i].row| == |b.columns| ::
      fetched[i].id == DatabaseId(e, Prefix(e, b), KeyCell(b, fetched[i].row))
  }

  /** The identities the database computed are the digests of the visible keys. */
  lemma KeysBeside(e: Encoding, b: Binding, fetched: seq<Fetched>, ids: seq<Bytes>) returns (keys: seq<string>)
    requires Faithful(e) && Bound(b) && |b.keys| == 1 && HashedByDatabase(e, b, fetched)
    requires AreIds(fetched, ids) && forall i | 0 <= i < |fetched| :: |fetched[i].row| == |b.columns|
    ensures AreStrings(b, Visible(fetched), keys) && SourceIds(e, b, keys) == ids
  {
    forall i | 0 <= i < |fetched| ensures KeyCell(b, fetched[i].row).Text? && ids[i] == KeyDigest(e, Prefix(e, b), KeyCell(b, fetched[i].row).s) {
      DatabaseText(e, b, fetched[i].row, fetched[i].id);
    }
    hide KeyDigest, DatabaseId, Faithful, Prefix;
    keys := seq(|fetched|, i requires 0 <= i < |fetched| => KeyCell(b, fetched[i].row).s);
    forall i, j | 0 <= i < j < |keys| ensures keys[i] != keys[j] { assert ids[i] != ids[j]; }
  }

  /** Whatever the capture accepts verifies against its own visible rows. */
  lemma CaptureVerifies(e: Encoding, b: Binding, executionId: string, fetched: seq<Fetched>, ids: seq<Bytes>)
    requires Faithful(e) && Bound(b) && |b.keys| == 1 && HashedByDatabase(e, b, fetched)
    requires ResultId(e, b.columns, Visible(fetched)).Ok? && AreIds(fetched, ids)
    ensures var artifact := ArtifactOf(b, executionId, ResultId(e, b.columns, Visible(fetched)).value, ids);
            Satisfied(e, Ok(b), Visible(fetched), EvidenceFor(e, artifact), artifact)
  {
    hide Faithful, HashedByDatabase, AreIds, AreStrings, SourceIds, Concat, V4Name, HexDigest, ResultBytes, KeyCell;
    forall i | 0 <= i < |fetched| ensures |fetched[i].row| == |b.columns| { assert Visible(fetched)[i] in Visible(fetched); }
    var keys := KeysBeside(e, b, fetched, ids);
    hide Visible, ResultId;
    assert ArtifactOf(b, executionId, ResultId(e, b.columns, Visible(fetched)).value, ids).context.executionId == executionId;
  }

  lemma DatabaseText(e: Encoding, b: Binding, row: seq<Value>, id: Option<Bytes>)
    requires Faithful(e) && Bound(b) && |b.keys| == 1 && |row| == |b.columns|
    requires id.Some? && id == DatabaseId(e, Prefix(e, b), KeyCell(b, row))
    ensures KeyCell(b, row).Text? && id.value == KeyDigest(e, Prefix(e, b), KeyCell(b, row).s)
  {
    hide Faithful, KeyDigest;
    assert KeyCell(b, row) == Text(KeyCell(b, row).s);
    DatabaseAgrees(e, Prefix(e, b), KeyCell(b, row).s);
  }

  ghost predicate SourceCollisionAt(e: Encoding, b: Binding, s: seq<string>, t: seq<string>, i: nat)
    requires i < |s| && i < |t|
  {
    Collides(e, KeyPayload(e, Prefix(e, b), s[i]), KeyPayload(e, Prefix(e, b), t[i]))
  }

  /** Stored identities in order fix the keys in order. */
  lemma IdsFixKeys(e: Encoding, b: Binding, s: seq<string>, t: seq<string>)
    requires Faithful(e) && |s| == |t| && Concat(SourceIds(e, b, s)) == Concat(SourceIds(e, b, t))
    ensures s == t || exists i | 0 <= i < |s| :: SourceCollisionAt(e, b, s, t, i)
  {
    SameBlocks(SourceIds(e, b, s), SourceIds(e, b, t), 32);
    if !exists i | 0 <= i < |s| :: SourceCollisionAt(e, b, s, t, i) {
      forall i | 0 <= i < |s| ensures s[i] == t[i] {
        assert SourceIds(e, b, s)[i] == SourceIds(e, b, t)[i];
        assert !SourceCollisionAt(e, b, s, t, i);
        hide KeyPayload, Faithful;
        PayloadsDiffer(e, Prefix(e, b), s[i], t[i]);
      }
    }
  }

  /** Two results that verify against one artifact show the same text in every cell and have the same keys, row by row
      and in order; each exception is an exhibited collision. */
  lemma VerifierSound(e: Encoding, b: Binding, rows: seq<seq<Value>>, other: seq<seq<Value>>,
                      evidence: Evidence, evidence': Evidence, artifact: Artifact)
    returns (s: seq<string>, t: seq<string>)
    requires Faithful(e) && Bound(b)
    requires Satisfied(e, Ok(b), rows, evidence, artifact) && Satisfied(e, Ok(b), other, evidence', artifact)
    ensures |b.keys| == 1 && AreStrings(b, rows, s) && AreStrings(b, other, t) && |s| == |t|
    ensures s == t || exists i | 0 <= i < |s| :: SourceCollisionAt(e, b, s, t, i)
    ensures ShownRows(e, rows) == ShownRows(e, other) || Collides(e, ResultBytes(e, b.columns, rows), ResultBytes(e, b.columns, other))
  {
    s :| AreStrings(b, rows, s)
         && artifact == ArtifactOf(b, artifact.context.executionId, ResultId(e, b.columns, rows).value, SourceIds(e, b, s));
    t :| AreStrings(b, other, t)
         && artifact == ArtifactOf(b, artifact.context.executionId, ResultId(e, b.columns, other).value, SourceIds(e, b, t));
    hide Faithful, AreStrings, V4Name, Concat;
    assert SourceIds(e, b, s) == SourceIds(e, b, s) && |SourceIds(e, b, s)| == |s| && |SourceIds(e, b, t)| == |t|;
    hide SourceIds, SourceCollisionAt;
    assert |s| == |t| && Concat(SourceIds(e, b, s)) == Concat(SourceIds(e, b, t));
    IdsFixKeys(e, b, s, t);
    ResultsShown(e, b.columns, rows, other);
  }

  lemma ResultsShown(e: Encoding, columns: seq<string>, rows: seq<seq<Value>>, other: seq<seq<Value>>)
    requires Faithful(e) && ResultId(e, columns, rows).Ok? && ResultId(e, columns, rows) == ResultId(e, columns, other)
    ensures ShownRows(e, rows) == ShownRows(e, other) || Collides(e, ResultBytes(e, columns, rows), ResultBytes(e, columns, other))
  {
    HexDigestSame(e, ResultBytes(e, columns, rows), ResultBytes(e, columns, other));
    if ResultBytes(e, columns, rows) == ResultBytes(e, columns, other) {
      assert ResultRows(columns, ShownRows(e, rows)) == ResultRows(columns, ShownRows(e, other));
    }
  }

  /** Any change of the order of the rows is rejected, unless two keys at one ordinal collide. */
  lemma ReorderingRejected(e: Encoding, b: Binding, rows: seq<seq<Value>>, other: seq<seq<Value>>,
                           evidence: Evidence, evidence': Evidence, artifact: Artifact)
    requires Faithful(e) && Bound(b) && multiset(rows) == multiset(other) && rows != other
    requires Satisfied(e, Ok(b), rows, evidence, artifact)
    ensures |b.keys| == 1
    ensures !Satisfied(e, Ok(b), other, evidence', artifact)
            || exists s, t, i: nat | AreStrings(b, rows, s) && AreStrings(b, other, t) && i < |s| && i < |t| :: SourceCollisionAt(e, b, s, t, i)
  {
    if Satisfied(e, Ok(b), other, evidence', artifact) {
      var s, t := VerifierSound(e, b, rows, other, evidence, evidence', artifact);
      if s == t { SameKeysSameOrder(b, rows, other, s); }
    }
  }

  lemma SameKeysSameOrder(b: Binding, rows: seq<seq<Value>>, other: seq<seq<Value>>, keys: seq<string>)
    requires Bound(b) && |b.keys| == 1 && AreStrings(b, rows, keys) && AreStrings(b, other, keys)
    requires multiset(rows) == multiset(other)
    ensures rows == other
  {
    forall i | 0 <= i < |rows| ensures rows[i] == other[i] {
      var p := Counterpart(other, rows, i);
      assert keys[p] == keys[i];
    }
  }
}
