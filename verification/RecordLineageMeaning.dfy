/** From plan to artifact: the edge stored for a result row names the source row it was made from. */
module RecordLineageMeaning {
  import opened Wrappers
  import opened Sql
  import opened Plan
  import opened RecordIdentity
  import opened RecordEvidence
  import RecordLineageV1
  import RecordLineageV2

  function Tuple(columns: seq<string>, row: Row): seq<Value> {
    seq(|columns|, i requires 0 <= i < |columns| => Get(row, columns[i]))
  }

  /** The rows a cursor returns. */
  function Tuples(columns: seq<string>, rows: seq<Row>): seq<seq<Value>> {
    seq(|rows|, i requires 0 <= i < |rows| => Tuple(columns, rows[i]))
  }

  lemma TupleKey(b: Binding, row: Row)
    requires Bound(b)
    ensures KeyAt(b.indexes, Tuple(b.columns, row)) == KeyOf(b.keys, row)
  {
    var tuple := Tuple(b.columns, row);
    forall i | 0 <= i < |b.keys| ensures tuple[b.indexes[i]] == Get(row, b.keys[i]) {}
    assert KeyAt(b.indexes, tuple) == KeyOf(b.keys, row);
  }

  lemma TupleKeys(b: Binding, rows: seq<Row>)
    requires Bound(b) && Identifies(b.keys, rows)
    ensures KeysOf(b, Tuples(b.columns, rows)).Ok?
    ensures var ks := KeysOf(b, Tuples(b.columns, rows)).value;
            |ks| == |rows| && forall i | 0 <= i < |rows| :: ks[i] == KeyOf(b.keys, rows[i])
  {
    var ks := seq(|rows|, i requires 0 <= i < |rows| => KeyOf(b.keys, rows[i]));
    forall i | 0 <= i < |rows| ensures KeyAt(b.indexes, Tuples(b.columns, rows)[i]) == ks[i] {
      TupleKey(b, rows[i]);
    }
    hide KeyOf, KeyAt;
    assert AreKeys(b, Tuples(b.columns, rows), ks);
    KeysAccepted(b, Tuples(b.columns, rows), ks);
  }

  /** A capture over an accepted fragment whose keys no generalisation touches, on a source its key identifies, never
      fails for its rows; and the key each edge hashes is that of the one source row its result row was made from. */
  lemma EdgesNameSources(g: Engine, s: Source, t: Tree, b: Binding) returns (origins: seq<nat>, ks: seq<Key>)
    requires Accepted(t, b.dataset, b.keys) && Typed(s.catalog, t) && KeysUntouched(s.catalog, t, b.keys)
    requires forall key | key in b.keys :: HasColumn(s.catalog, t, key)
    requires Bound(b) && Identifies(b.keys, Table(s, b.dataset).rows)
    ensures Identified(g, s, t, b.dataset, origins)
    ensures KeysOf(b, Tuples(b.columns, Eval(g, s, t).rows)) == Ok(ks)
    ensures var source := Table(s, b.dataset).rows;
            && |ks| == |origins| == |Eval(g, s, t).rows|
            && forall i | 0 <= i < |ks| :: origins[i] < |source| && ks[i] == KeyOf(b.keys, source[origins[i]])
  {
    origins := KeysNameSources(g, s, t, b.dataset, b.keys);
    hide Accepted, Typed, KeysUntouched, HasColumn, Eval, Identified, KeyOf, KeysOf;
    TupleKeys(b, Eval(g, s, t).rows);
    ks := KeysOf(b, Tuples(b.columns, Eval(g, s, t).rows)).value;
  }

  /** What the compact artifact stores for row `i`: bytes 64i to 64i+31 for its output record, the 32 after them for
      the source record; the V1 edge of the same row names the same source. */
  lemma StoredEdge(e: Encoding, b: Binding, resultId: string, ks: seq<Key>, i: nat)
    requires i < |ks|
    ensures var bytes := Concat(RecordLineageV2.EdgeBlocks(e, b, resultId, ks));
            && |bytes| == 64 * |ks|
            && bytes[64 * i..64 * i + 32] == e.sha(RecordLineageV2.OutputPreimage(e, resultId, ks[i]))
            && bytes[64 * i + 32..64 * i + 64] == e.sha(RecordLineageV2.SourcePreimage(e, b, ks[i]))
    ensures exists edge | edge in RecordLineageV1.Sorted(RecordLineageV1.EdgesOf(e, b, resultId, ks)) ::
              && edge.output == HexDigest(e, Json(e, RecordLineageV1.OutputDocument(e, b, resultId, ks[i])))
              && edge.source == HexDigest(e, Json(e, RecordLineageV1.SourceDocument(e, b, ks[i])))
  {
    var blocks, edges := RecordLineageV2.EdgeBlocks(e, b, resultId, ks), RecordLineageV1.EdgesOf(e, b, resultId, ks);
    StoredBlock(e, b, resultId, ks, i);
    hide Concat, RecordLineageV2.EdgeBlocks, RecordLineageV2.OutputPreimage, RecordLineageV2.SourcePreimage;
    RecordLineageV1.SortedInOrder(edges);
    assert edges[i] in multiset(edges);
    assert edges[i] in RecordLineageV1.Sorted(edges);
  }

  lemma StoredBlock(e: Encoding, b: Binding, resultId: string, ks: seq<Key>, i: nat)
    requires i < |ks|
    ensures var bytes := Concat(RecordLineageV2.EdgeBlocks(e, b, resultId, ks));
            && |bytes| == 64 * |ks|
            && bytes[64 * i..64 * i + 32] == e.sha(RecordLineageV2.OutputPreimage(e, resultId, ks[i]))
            && bytes[64 * i + 32..64 * i + 64] == e.sha(RecordLineageV2.SourcePreimage(e, b, ks[i]))
  {
    var blocks := RecordLineageV2.EdgeBlocks(e, b, resultId, ks);
    Block(blocks, 64, i);
    var bytes, edge := Concat(blocks), RecordLineageV2.EdgeBytes(e, b, resultId, ks[i]);
    hide Concat, RecordLineageV2.OutputPreimage, RecordLineageV2.SourcePreimage;
    assert bytes[64 * i..64 * i + 64] == edge;
    assert bytes[64 * i..64 * i + 32] == edge[..32];
    assert bytes[64 * i + 32..64 * i + 64] == edge[32..];
  }
}
