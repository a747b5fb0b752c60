/** What every encoding of record lineage shares: serialised documents, digests, and the keys read off result rows. */
module RecordEvidence {
  import opened Wrappers
  import opened Sql
  import RecordFragment

  type Byte = b: int | 0 <= b < 256

  type Bytes = seq<Byte>

  type Digest = b: Bytes | |b| == 32 witness seq(32, i => 0)

  type Key = seq<Value>

  /** A key value with the name of its type, and the JSON text of the value alone. */
  datatype TypedValue = TypedValue(typeName: string, text: string)

  /** Everything the program turns into JSON before hashing it. */
  datatype Document =
    | OutputKey(resultId: string, columns: seq<string>, values: seq<string>)
    | SourceKey(dataset: string, snapshot: string, columns: seq<string>, values: seq<string>)
    | Edges(edges: seq<RecordEdge>)
    | SourceContext(dataset: string, snapshot: string, columns: seq<string>)
    | TypedKey(parts: seq<TypedValue>)
    | SourcePrefix(dataset: string, snapshot: string, columns: seq<string>)
    | ResultRows(columns: seq<string>, rows: seq<seq<string>>)
    | Header(encoding: string, context: ArtifactContext, edgeCount: nat)

  /** The fields a binary artifact shares over all its edges. */
  datatype ArtifactContext = ArtifactContext(
    executionId: string, resultId: string, planDigest: string, target: string,
    dataset: string, snapshot: string, rowCount: nat)

  datatype RecordEdge = RecordEdge(output: string, dataset: string, snapshot: string, source: string)

  /** Serialisers and SHA-256.  `plain` is the JSON text of a key value (a datetime prints like its string), `shown`
      the text of a value in a result. */
  datatype Encoding = Encoding(
    dumps: Document -> string,
    utf8: string -> Bytes,
    hex: Bytes -> string,
    sha: Bytes -> Digest,
    plain: Value -> string,
    shown: Value -> string)

  function Json(e: Encoding, d: Document): Bytes {
    e.utf8(e.dumps(d))
  }

  /** Different documents, strings and digests are written differently; nothing is said of SHA-256 or of values. */
  ghost predicate Faithful(e: Encoding) {
    && (forall a, b :: e.dumps(a) == e.dumps(b) ==> a == b)
    && (forall a, b :: e.utf8(a) == e.utf8(b) ==> a == b)
    && (forall a, b :: e.utf8(a + b) == e.utf8(a) + e.utf8(b))
    && (forall a, b :: e.hex(a) == e.hex(b) ==> a == b)
  }

  /** A JSON object or array ends where it closes: whatever follows it, the document can be read off the front. */
  ghost predicate SelfDelimiting(e: Encoding) {
    forall a, b, x, y :: e.dumps(a) + x == e.dumps(b) + y ==> a == b
  }

  /** Two different inputs with one digest. */
  predicate Collides(e: Encoding, a: Bytes, b: Bytes) {
    a != b && e.sha(a) == e.sha(b)
  }

  function HexDigest(e: Encoding, payload: Bytes): string {
    "sha256:" + e.hex(e.sha(payload))
  }

  lemma HexDigestSame(e: Encoding, a: Bytes, b: Bytes)
    requires Faithful(e) && HexDigest(e, a) == HexDigest(e, b)
    ensures e.sha(a) == e.sha(b)
  {
    assert HexDigest(e, a)[7..] == e.hex(e.sha(a)) && HexDigest(e, b)[7..] == e.hex(e.sha(b));
  }

  function TypeName(v: Value): string {
    match v
    case Null => "NoneType"
    case Bool(_) => "bool"
    case Number(_) => "float"
    case Text(_) => "str"
    case Instant(_) => "datetime"
  }

  function Texts(e: Encoding, key: Key): seq<string> {
    seq(|key|, i requires 0 <= i < |key| => e.plain(key[i]))
  }

  function Tagged(e: Encoding, key: Key): seq<TypedValue> {
    seq(|key|, i requires 0 <= i < |key| => TypedValue(TypeName(key[i]), e.plain(key[i])))
  }

  // ----- the plan side of a capture -----

  /** What the guard establishes about a plan, its declared source and the result columns. */
  datatype Binding = Binding(
    planDigest: string, target: string, dataset: string, snapshot: string,
    columns: seq<string>, keys: seq<string>, indexes: seq<nat>)

  /** The same source: dataset, snapshot and key columns. */
  predicate SharesSource(b: Binding, c: Binding) {
    b.dataset == c.dataset && b.snapshot == c.snapshot && b.keys == c.keys
  }

  predicate Bound(b: Binding) {
    && |b.indexes| == |b.keys|
    && forall i | 0 <= i < |b.keys| :: b.indexes[i] < |b.columns| && b.columns[b.indexes[i]] == b.keys[i]
  }

  datatype LineageError =
    | EmptyIdentifier
    | Refused(reason: RecordFragment.FragmentError)
    | RowWidth
    | NullKey
    | DuplicateKey
    | NotOneKey
    | NotStringKey
    | BadIdentity

  datatype Evidence = Evidence(executionId: string, resultId: string, recordLevel: bool, covered: seq<string>, edgeDigest: string)

  datatype Diagnostic = NotDerivable(error: LineageError) | ArtifactMismatch | SummaryMismatch

  // ----- keys of result rows -----

  function KeyAt(indexes: seq<nat>, row: seq<Value>): Key
    requires forall i | 0 <= i < |indexes| :: indexes[i] < |row|
  {
    seq(|indexes|, i requires 0 <= i < |indexes| => row[indexes[i]])
  }

  /** One more row: its width, then its NULLs, then whether its key was seen. */
  function NextKey(b: Binding, seen: seq<Key>, row: seq<Value>): Result<Key, LineageError>
    requires Bound(b)
  {
    if |row| != |b.columns| then Error(RowWidth)
    else
      var key := KeyAt(b.indexes, row);
      if Null in key then Error(NullKey) else if key in seen then Error(DuplicateKey) else Ok(key)
  }

  /** The keys of the rows in order, or the first thing wrong with them. */
  function KeysOf(b: Binding, rows: seq<seq<Value>>): Result<seq<Key>, LineageError>
    requires Bound(b)
  {
    if rows == [] then Ok([])
    else
      var before := KeysOf(b, rows[..|rows| - 1]);
      if before.Error? then before
      else
        var next := NextKey(b, before.value, rows[|rows| - 1]);
        if next.Error? then Error(next.error) else Ok(before.value + [next.value])
  }

  predicate DistinctKeys(keys: seq<Key>) {
    forall i, j | 0 <= i < j < |keys| :: keys[i] != keys[j]
  }

  /** `keys` are the key columns of these rows, never NULL and never repeated. */
  ghost predicate AreKeys(b: Binding, rows: seq<seq<Value>>, keys: seq<Key>)
    requires Bound(b)
  {
    && |keys| == |rows| && DistinctKeys(keys)
    && forall i | 0 <= i < |rows| :: |rows[i]| == |b.columns| && keys[i] == KeyAt(b.indexes, rows[i]) && Null !in keys[i]
  }

  lemma {:induction false} KeysFound(b: Binding, rows: seq<seq<Value>>)
    requires Bound(b) && KeysOf(b, rows).Ok?
    ensures AreKeys(b, rows, KeysOf(b, rows).value)
  {
    if rows != [] { KeysFound(b, rows[..|rows| - 1]); }
  }

  lemma {:induction false} KeysAccepted(b: Binding, rows: seq<seq<Value>>, keys: seq<Key>)
    requires Bound(b) && AreKeys(b, rows, keys)
    ensures KeysOf(b, rows) == Ok(keys)
  {
    if rows == [] {
      assert keys == [];
    } else {
      var n := |rows| - 1;
      KeysAccepted(b, rows[..n], keys[..n]);
      assert keys[n] !in keys[..n];
      assert keys == keys[..n] + [keys[n]];
    }
  }

  /** The rows have keys exactly when every row is wide enough, no key holds NULL and no key repeats. */
  lemma KeysExact(b: Binding, rows: seq<seq<Value>>)
    requires Bound(b)
    ensures KeysOf(b, rows).Ok? ==> AreKeys(b, rows, KeysOf(b, rows).value)
    ensures KeysOf(b, rows).Ok? <==> exists keys :: AreKeys(b, rows, keys)
  {
    if KeysOf(b, rows).Ok? { KeysFound(b, rows); }
    if keys :| AreKeys(b, rows, keys) { KeysAccepted(b, rows, keys); }
  }

  lemma SameKeys(b: Binding, rows: seq<seq<Value>>, s: seq<Key>, t: seq<Key>)
    requires Bound(b) && AreKeys(b, rows, s) && AreKeys(b, rows, t)
    ensures s == t
  {}

  /** The checks every capture and every verifier runs on one more row; `seen` holds the keys so far. */
  method CheckRow(b: Binding, row: seq<Value>, seen: set<Key>, ghost keys: seq<Key>) returns (r: Result<Key, LineageError>)
    requires Bound(b) && forall key :: key in seen <==> key in keys
    ensures r == NextKey(b, keys, row)
  {
    if |row| != |b.columns| { return Error(RowWidth); }
    var key := KeyAt(b.indexes, row);
    if Null in key { return Error(NullKey); }
    if key in seen { return Error(DuplicateKey); }
    r := Ok(key);
  }

  lemma KeysAppend(b: Binding, rows: seq<seq<Value>>, n: nat, keys: seq<Key>)
    requires Bound(b) && n < |rows| && KeysOf(b, rows[..n]) == Ok(keys)
    ensures var next := NextKey(b, keys, rows[n]);
            && (next.Error? ==> KeysOf(b, rows) == Error(next.error))
            && (next.Ok? ==> KeysOf(b, rows[..n + 1]) == Ok(keys + [next.value]))
  {
    assert rows[..n + 1][..n] == rows[..n];
    if NextKey(b, keys, rows[n]).Error? { FirstError(b, rows, n + 1); }
  }

  /** An error in a prefix is the error of the whole. */
  lemma {:induction false} FirstError(b: Binding, rows: seq<seq<Value>>, n: nat)
    requires Bound(b) && n <= |rows| && KeysOf(b, rows[..n]).Error?
    ensures KeysOf(b, rows) == KeysOf(b, rows[..n])
    decreases |rows| - n
  {
    if n == |rows| {
      assert rows[..n] == rows;
    } else {
      assert rows[..n + 1][..n] == rows[..n];
      FirstError(b, rows, n + 1);
    }
  }

  // ----- the length-prefixed payload -----

  /** `n.to_bytes(4, "big")`. */
  function BigEndian(n: nat): Bytes
    requires n < 0x1_0000_0000
  {
    [n / 0x100_0000, n / 0x1_0000 % 0x100, n / 0x100 % 0x100, n % 0x100]
  }

  function ReadBigEndian(b: Bytes): nat
    requires |b| == 4
  {
    b[0] as int * 0x100_0000 + b[1] as int * 0x1_0000 + b[2] as int * 0x100 + b[3] as int
  }

  /** The header's length, the header, the edges; `None` where `to_bytes` overflows. */
  function Payload(header: Bytes, edges: Bytes): Option<Bytes> {
    if |header| < 0x1_0000_0000 then Some(BigEndian(|header|) + header + edges) else None
  }

  /** Takes a payload apart again. */
  function Parse(payload: Bytes): Option<(Bytes, Bytes)> {
    if |payload| < 4 then None
    else
      var n := ReadBigEndian(payload[..4]);
      if n + 4 <= |payload| then Some((payload[4..n + 4], payload[n + 4..])) else None
  }

  lemma BigEndianReads(n: nat)
    requires n < 0x1_0000_0000
    ensures ReadBigEndian(BigEndian(n)) == n
  {
    var high, low := n / 0x1_0000, n % 0x1_0000;
    assert n / 0x100_0000 == high / 0x100;
    assert n / 0x100 % 0x100 == low / 0x100;
    assert n % 0x100 == low % 0x100;
  }

  /** Every payload parses back to the very header and edges it was made of, wherever one ends and the other begins. */
  lemma PayloadParses(header: Bytes, edges: Bytes)
    requires Payload(header, edges).Some?
    ensures Parse(Payload(header, edges).value) == Some((header, edges))
  {
    BigEndianReads(|header|);
    hide BigEndian, ReadBigEndian;
    var payload := Payload(header, edges).value;
    assert payload[..4] == BigEndian(|header|);
    assert payload[4..|header| + 4] == header && payload[|header| + 4..] == edges;
  }

  // ----- fixed-width blocks -----

  function Concat(blocks: seq<Bytes>): Bytes {
    if blocks == [] then [] else Concat(blocks[..|blocks| - 1]) + blocks[|blocks| - 1]
  }

  lemma {:induction false} Block(blocks: seq<Bytes>, width: nat, i: nat)
    requires (forall k | 0 <= k < |blocks| :: |blocks[k]| == width) && i < |blocks|
    ensures |Concat(blocks)| == |blocks| * width
    ensures i * width + width <= |Concat(blocks)| && Concat(blocks)[i * width..i * width + width] == blocks[i]
  {
    var front, last := blocks[..|blocks| - 1], blocks[|blocks| - 1];
    var n := |front| * width;
    ConcatLength(front, width);
    assert |blocks| * width == n + width;
    if i < |front| {
      Block(front, width, i);
      assert Concat(blocks)[..n] == Concat(front);
      assert Concat(blocks)[i * width..i * width + width] == Concat(blocks)[..n][i * width..i * width + width];
    } else {
      assert i == |front|;
      assert Concat(blocks)[n..n + width] == last;
    }
  }

  lemma {:induction false} ConcatLength(blocks: seq<Bytes>, width: nat)
    requires forall k | 0 <= k < |blocks| :: |blocks[k]| == width
    ensures |Concat(blocks)| == |blocks| * width
  {
    if blocks != [] {
      ConcatLength(blocks[..|blocks| - 1], width);
      assert |blocks| * width == (|blocks| - 1) * width + width;
    }
  }

  /** Equal runs of equally many blocks of one width have equal blocks. */
  lemma SameBlocks(a: seq<Bytes>, b: seq<Bytes>, width: nat)
    requires (forall k | 0 <= k < |a| :: |a[k]| == width) && (forall k | 0 <= k < |b| :: |b[k]| == width)
    requires |a| == |b| && Concat(a) == Concat(b)
    ensures a == b
  {
    forall i | 0 <= i < |a| ensures a[i] == b[i] {
      Block(a, width, i);
      Block(b, width, i);
    }
  }
}
