/** Record lineage: which source row every output row of an accepted fragment comes from. */
module RecordIdentity {
  import opened Wrappers
  import opened Sql
  import opened Plan
  import opened Shuffling
  import Cardinality

  // ----- the accepted fragment -----

  predicate SupportedKind(kind: Kind) {
    || kind.Filter? || kind.SpatialFilter? || kind.TemporalFilter? || kind.Project?
    || kind.Sort? || kind.Mask? || kind.GeneralizeLocation?
  }

  /** Supported operators over one scan of `dataset`; no Mask covers a key column. */
  predicate Accepted(t: Tree, dataset: string, keys: seq<string>) {
    match t
    case Scan(_, d) => d == dataset
    case Unary(_, kind, input) =>
      && SupportedKind(kind) && Accepted(input, dataset, keys)
      && (kind.Mask? ==> Elements(kind.masked) !! Elements(keys))
    case Binary(_, _, _, _) => false
  }

  /** What type checking adds: projections select fields that are there, and generalisations name one pair. */
  predicate Typed(catalog: Catalog, t: Tree) {
    match t
    case Scan(_, _) => true
    case Unary(_, kind, input) =>
      && Typed(catalog, input)
      && (kind.Project? ==> Elements(kind.fields) <= Elements(Names(SchemaOf(catalog, input).fields)))
      && (kind.GeneralizeLocation? ==> GridPair(SchemaOf(catalog, input), kind.coordinates).Some? && kind.precisionKm > 0.0)
    case Binary(_, _, left, right) => Typed(catalog, left) && Typed(catalog, right)
  }

  // ----- one operator -----

  /** What becomes of one row, on its own. */
  ghost function Step(g: Engine, kind: Kind, pair: (string, string), row: Row): Option<Row> {
    if kind.Project? || kind.Mask? || kind.GeneralizeLocation? then Some(RewriteRow(g, kind, pair, row))
    else if kind.Sort? || Keeps(g, kind, pair, row) then Some(row)
    else None
  }

  /** The positions from `k` on that a filter keeps. */
  ghost function KeptFrom(g: Engine, kind: Kind, pair: (string, string), rows: seq<Row>, k: nat): seq<nat>
    requires k <= |rows|
    decreases |rows| - k
  {
    if k == |rows| then []
    else (if Keeps(g, kind, pair, rows[k]) then [k] else []) + KeptFrom(g, kind, pair, rows, k + 1)
  }

  /** For each row an operator produces, the position of the input row it was made from. */
  ghost function Positions(g: Engine, kind: Kind, pair: (string, string), rows: seq<Row>): seq<nat> {
    if kind.Sort? then Order(g, kind.keys, rows)
    else if kind.Project? || kind.Mask? || kind.GeneralizeLocation? then Upto(|rows|)
    else KeptFrom(g, kind, pair, rows, 0)
  }

  /** Every position at most once. */
  predicate Distinct(positions: seq<nat>) {
    forall i, j | 0 <= i < j < |positions| :: positions[i] != positions[j]
  }

  /** Each output row is what becomes of the input row at its position. */
  ghost predicate Made(become: Row -> Option<Row>, rows: seq<Row>, positions: seq<nat>, output: seq<Row>) {
    && |positions| == |output|
    && (forall i | 0 <= i < |output| :: positions[i] < |rows| && become(rows[positions[i]]) == Some(output[i]))
  }

  /** No input row that survives on its own is missing. */
  ghost predicate Complete(become: Row -> Option<Row>, rows: seq<Row>, positions: seq<nat>) {
    forall k: nat | k < |rows| && become(rows[k]).Some? :: k in positions
  }

  ghost predicate Traced(become: Row -> Option<Row>, rows: seq<Row>, positions: seq<nat>, output: seq<Row>) {
    Made(become, rows, positions, output) && Distinct(positions) && Complete(become, rows, positions)
  }

  lemma {:induction false} RewriteTraced(g: Engine, kind: Kind, pair: (string, string), rows: seq<Row>)
    ensures |RewriteRows(g, kind, pair, rows)| == |rows|
    ensures forall i | 0 <= i < |rows| :: RewriteRows(g, kind, pair, rows)[i] == RewriteRow(g, kind, pair, rows[i])
  {
    hide RewriteRow;
    if rows != [] { RewriteTraced(g, kind, pair, rows[1..]); }
  }

  /** A filter keeps the rows that satisfy it, in order, and nothing else. */
  lemma {:induction false} KeptRows(g: Engine, kind: Kind, pair: (string, string), rows: seq<Row>, k: nat)
    requires k <= |rows|
    ensures var kept, positions := KeepRows(g, kind, pair, rows[k..]), KeptFrom(g, kind, pair, rows, k);
            && |kept| == |positions|
            && (forall i | 0 <= i < |kept| :: k <= positions[i] < |rows| && kept[i] == rows[positions[i]])
            && (forall i | 0 <= i < |kept| :: Keeps(g, kind, pair, rows[positions[i]]))
    decreases |rows| - k
  {
    hide Keeps;
    if k < |rows| {
      KeptRows(g, kind, pair, rows, k + 1);
      assert rows[k..][0] == rows[k] && rows[k..][1..] == rows[k + 1..];
    }
  }

  lemma {:induction false} KeptPositions(g: Engine, kind: Kind, pair: (string, string), rows: seq<Row>, k: nat)
    requires k <= |rows|
    ensures Distinct(KeptFrom(g, kind, pair, rows, k))
    ensures forall j | 0 <= j < |KeptFrom(g, kind, pair, rows, k)| :: KeptFrom(g, kind, pair, rows, k)[j] >= k
    ensures forall i: nat | k <= i < |rows| && Keeps(g, kind, pair, rows[i]) :: i in KeptFrom(g, kind, pair, rows, k)
    decreases |rows| - k
  {
    hide Keeps;
    if k < |rows| { KeptPositions(g, kind, pair, rows, k + 1); }
  }

  function PositionSet(positions: seq<nat>): set<nat> {
    set k | k in positions
  }

  /** A rearrangement mentions every position. */
  lemma Covers(order: seq<nat>, n: nat, i: nat)
    requires IsArrangement(order, n) && i < n
    ensures i in order
  {
    if i !in order {
      var all, mentioned := PositionSet(Upto(n)), PositionSet(order);
      DistinctCount(order);
      DistinctCount(Upto(n));
      forall k: nat | k < n ensures k in all { assert Upto(n)[k] == k; }
      assert mentioned <= all - {i};
      Cardinality.Subset(mentioned, all - {i});
    }
  }

  lemma {:induction false} DistinctCount(s: seq<nat>)
    requires Distinct(s)
    ensures |PositionSet(s)| == |s|
  {
    if s != [] {
      var last := s[|s| - 1];
      DistinctCount(s[..|s| - 1]);
      assert s == s[..|s| - 1] + [last];
      assert PositionSet(s) == PositionSet(s[..|s| - 1]) + {last};
    }
  }

  lemma SortTraced(g: Engine, kind: Kind, pair: (string, string), rel: Relation)
    requires kind.Sort?
    ensures Traced(row => Step(g, kind, pair, row), rel.rows, Positions(g, kind, pair, rel.rows), Operate(g, kind, pair, rel).rows)
  {
    hide Keeps, RewriteRow, Order;
    var positions := Positions(g, kind, pair, rel.rows);
    assert IsArrangement(positions, |rel.rows|);
    forall k: nat | k < |rel.rows| ensures k in positions { Covers(positions, |rel.rows|, k); }
  }

  lemma EveryRowTraced(g: Engine, kind: Kind, pair: (string, string), rel: Relation)
    requires kind.Project? || kind.Mask? || kind.GeneralizeLocation?
    ensures Traced(row => Step(g, kind, pair, row), rel.rows, Positions(g, kind, pair, rel.rows), Operate(g, kind, pair, rel).rows)
  {
    hide Keeps, RewriteRow, RewriteRows;
    var positions := Positions(g, kind, pair, rel.rows);
    RewriteTraced(g, kind, pair, rel.rows);
    forall k: nat | k < |rel.rows| ensures k in positions { assert positions[k] == k; }
  }

  lemma FilterTraced(g: Engine, kind: Kind, pair: (string, string), rel: Relation)
    requires kind.Filter? || kind.SpatialFilter? || kind.TemporalFilter?
    ensures Traced(row => Step(g, kind, pair, row), rel.rows, Positions(g, kind, pair, rel.rows), Operate(g, kind, pair, rel).rows)
  {
    hide Keeps, KeepRows, KeptFrom;
    var rows := rel.rows;
    KeptRows(g, kind, pair, rows, 0);
    KeptPositions(g, kind, pair, rows, 0);
    assert rows[0..] == rows;
  }

  lemma OperateTraced(g: Engine, kind: Kind, pair: (string, string), rel: Relation)
    requires SupportedKind(kind)
    ensures Traced(row => Step(g, kind, pair, row), rel.rows, Positions(g, kind, pair, rel.rows), Operate(g, kind, pair, rel).rows)
  {
    hide Traced, Step, Positions, Operate;
    if kind.Sort? {
      SortTraced(g, kind, pair, rel);
    } else if kind.Project? || kind.Mask? || kind.GeneralizeLocation? {
      EveryRowTraced(g, kind, pair, rel);
    } else {
      FilterTraced(g, kind, pair, rel);
    }
  }

  // ----- the whole fragment -----

  ghost function Compose(outer: seq<nat>, inner: seq<nat>): seq<nat>
    requires forall i | 0 <= i < |outer| :: outer[i] < |inner|
  {
    seq(|outer|, i requires 0 <= i < |outer| => inner[outer[i]])
  }

  /** Two traced steps make a traced step. */
  lemma ComposeTraced(first: Row -> Option<Row>, second: Row -> Option<Row>, both: Row -> Option<Row>,
                      rows: seq<Row>, middle: seq<Row>, output: seq<Row>, inner: seq<nat>, outer: seq<nat>)
    requires Traced(first, rows, inner, middle) && Traced(second, middle, outer, output)
    requires forall row :: both(row) == (if first(row).Some? then second(first(row).value) else None)
    ensures forall i | 0 <= i < |outer| :: outer[i] < |inner|
    ensures Traced(both, rows, Compose(outer, inner), output)
  {
    var composed := Compose(outer, inner);
    forall i | 0 <= i < |output| ensures composed[i] < |rows| && both(rows[composed[i]]) == Some(output[i]) {
      assert composed[i] == inner[outer[i]];
      assert first(rows[inner[outer[i]]]) == Some(middle[outer[i]]);
    }
    forall i, j | 0 <= i < j < |composed| ensures composed[i] != composed[j] {
      assert outer[i] < outer[j] || outer[j] < outer[i];
    }
    forall k: nat | k < |rows| && both(rows[k]).Some? ensures k in composed {
      var m :| 0 <= m < |inner| && inner[m] == k;
      assert first(rows[k]) == Some(middle[m]);
      var j :| 0 <= j < |outer| && outer[j] == m;
      assert composed[j] == k;
    }
  }

  /** What becomes of a single source row on its way through the fragment. */
  ghost function Process(g: Engine, catalog: Catalog, t: Tree, row: Row): Option<Row> {
    match t
    case Unary(_, kind, input) =>
      var below := Process(g, catalog, input, row);
      if below.None? then None else Step(g, kind, PairOf(catalog, kind, input), below.value)
    case _ => Some(row)
  }

  /** `origins[i]` is the one source row output row `i` was made from: different output rows have different source
      rows, and every source row that survives on its own is there. */
  ghost predicate Identified(g: Engine, s: Source, t: Tree, dataset: string, origins: seq<nat>) {
    Traced(row => Process(g, s.catalog, t, row), Table(s, dataset).rows, origins, Eval(g, s, t).rows)
  }

  /** Every result of an accepted fragment identifies its source rows. */
  lemma {:induction false} RecordIdentity(g: Engine, s: Source, t: Tree, dataset: string, keys: seq<string>)
    returns (origins: seq<nat>)
    requires Accepted(t, dataset, keys)
    ensures Identified(g, s, t, dataset, origins)
  {
    if t.Scan? {
      origins := Upto(|Table(s, dataset).rows|);
      forall k: nat | k < |origins| ensures k in origins { assert origins[k] == k; }
    } else {
      var inner := RecordIdentity(g, s, t.input, dataset, keys);
      var rel, pair := Eval(g, s, t.input), PairOf(s.catalog, t.kind, t.input);
      OperateTraced(g, t.kind, pair, rel);
      var outer := Positions(g, t.kind, pair, rel.rows);
      hide Traced, Step, Operate, Positions, PairOf;
      ComposeTraced(row => Process(g, s.catalog, t.input, row), row => Step(g, t.kind, pair, row),
                    row => Process(g, s.catalog, t, row),
                    Table(s, dataset).rows, rel.rows, Eval(g, s, t).rows, inner, outer);
      origins := Compose(outer, inner);
    }
  }

  function Restricted(s: Source, dataset: string, row: Row): Source
    requires dataset in s.bindings
  {
    s.(db := s.db[s.bindings[dataset] := Relation(Table(s, dataset).columns, [row])])
  }

  /** `Process` is no invention: over a table that holds one row, the fragment produces exactly what becomes of it. */
  lemma SingleRow(g: Engine, s: Source, t: Tree, dataset: string, keys: seq<string>, row: Row)
    requires Accepted(t, dataset, keys) && dataset in s.bindings
    ensures var out := Process(g, s.catalog, t, row);
            Eval(g, Restricted(s, dataset, row), t).rows == if out.Some? then [out.value] else []
  {
    var one := Restricted(s, dataset, row);
    var origins := RecordIdentity(g, one, t, dataset, keys);
    assert one.catalog == s.catalog && Table(one, dataset).rows == [row];
    hide Process, Eval, Traced;
    OneRowTraced(x => Process(g, one.catalog, t, x), row, origins, Eval(g, one, t).rows);
  }

  lemma OneRowTraced(become: Row -> Option<Row>, row: Row, origins: seq<nat>, rows: seq<Row>)
    requires Traced(become, [row], origins, rows)
    ensures rows == if become(row).Some? then [become(row).value] else []
  {
    assert become([row][0]) == become(row);
    if rows == [] {
      assert become(row).Some? ==> 0 in origins;
    } else {
      AtMostOne(origins);
      assert origins[0] == 0;
    }
  }

  lemma AtMostOne(positions: seq<nat>)
    requires Distinct(positions) && forall i | 0 <= i < |positions| :: positions[i] == 0
    ensures |positions| <= 1
  {
    DistinctCount(positions);
    Cardinality.Subset(PositionSet(positions), {0});
  }

  // ----- key columns -----

  /** Whether a generalisation of the fragment rewrites the column. */
  ghost predicate Touches(catalog: Catalog, t: Tree, column: string) {
    match t
    case Unary(_, kind, input) => Touches(catalog, input, column) || Rewrites(kind, PairOf(catalog, kind, input), column)
    case _ => false
  }

  predicate Rewrites(kind: Kind, pair: (string, string), column: string) {
    kind.GeneralizeLocation? && (column == pair.0 || column == pair.1)
  }

  function Anchor(pair: (string, string), column: string): real {
    if column == pair.1 then 180.0 else 90.0
  }

  /** A key column's value after the generalisations on the way up. */
  ghost function Generalised(catalog: Catalog, t: Tree, column: string, v: Value): Value {
    match t
    case Unary(_, kind, input) =>
      var below, pair := Generalised(catalog, input, column, v), PairOf(catalog, kind, input);
      if Rewrites(kind, pair, column) then CellCentre(below, Anchor(pair, column), GridStep(kind.precisionKm)) else below
    case _ => v
  }

  predicate HasColumn(catalog: Catalog, t: Tree, column: string) {
    column in Names(SchemaOf(catalog, t).fields)
  }

  lemma StepColumn(g: Engine, kind: Kind, pair: (string, string), row: Row, column: string)
    requires Step(g, kind, pair, row).Some?
    requires kind.Mask? ==> column !in kind.masked
    requires kind.Project? ==> column in kind.fields
    ensures Get(Step(g, kind, pair, row).value, column)
            == if Rewrites(kind, pair, column) then CellCentre(Get(row, column), Anchor(pair, column), GridStep(kind.precisionKm))
               else Get(row, column)
  {
    hide Keeps, GridStep, CellCentre;
  }

  lemma {:induction false} SelectedNames(fields: seq<FieldDescriptor>, names: seq<string>)
    requires Elements(names) <= Elements(Names(fields))
    ensures Names(SelectFields(fields, names)) == names
  {
    if names != [] {
      assert names[0] in Elements(names);
      assert Elements(names[1..]) <= Elements(names);
      FoundField(fields, names[0]);
      SelectedNames(fields, names[1..]);
    }
  }

  lemma {:induction false} FoundField(fields: seq<FieldDescriptor>, name: string)
    requires name in Names(fields)
    ensures FindField(fields, name).Some? && FindField(fields, name).value.name == name
  {
    if fields[0].name != name { FoundField(fields[1..], name); }
  }

  lemma {:induction false} MaskedNames(fields: seq<FieldDescriptor>, masked: set<string>, how: MaskMethod)
    ensures Names(MaskFields(fields, masked, how)) == Names(fields)
  {
    if fields != [] { MaskedNames(fields[1..], masked, how); }
  }

  lemma ColumnBelow(catalog: Catalog, t: Tree, column: string)
    requires t.Unary? && SupportedKind(t.kind) && Typed(catalog, t) && HasColumn(catalog, t, column)
    ensures HasColumn(catalog, t.input, column)
    ensures t.kind.Project? ==> column in t.kind.fields
  {
    var s := SchemaOf(catalog, t.input);
    if t.kind.Project? {
      SelectedNames(s.fields, t.kind.fields);
      assert column in Elements(t.kind.fields);
    } else if t.kind.Mask? {
      MaskedNames(s.fields, Elements(t.kind.masked), t.kind.how);
    }
  }

  /** What the fragment does to a key column: nothing but the generalisations that name it. */
  lemma {:induction false} KeyColumn(g: Engine, catalog: Catalog, t: Tree, dataset: string, keys: seq<string>, key: string, row: Row)
    requires Accepted(t, dataset, keys) && Typed(catalog, t) && key in keys && HasColumn(catalog, t, key)
    requires Process(g, catalog, t, row).Some?
    ensures Get(Process(g, catalog, t, row).value, key) == Generalised(catalog, t, key, Get(row, key))
  {
    if t.Unary? {
      ColumnBelow(catalog, t, key);
      KeyColumn(g, catalog, t.input, dataset, keys, key, row);
      assert key in Elements(keys);
      assert t.kind.Mask? ==> key !in Elements(t.kind.masked);
      StepColumn(g, t.kind, PairOf(catalog, t.kind, t.input), Process(g, catalog, t.input, row).value, key);
    }
  }

  /** Two different raw values that a touched column cannot tell apart. */
  lemma {:induction false} TouchedMerges(catalog: Catalog, t: Tree, column: string) returns (v: Value, w: Value)
    requires Typed(catalog, t) && Touches(catalog, t, column)
    ensures v != w && v.Number? && w.Number? && Generalised(catalog, t, column, v) == Generalised(catalog, t, column, w)
  {
    if Touches(catalog, t.input, column) {
      v, w := TouchedMerges(catalog, t.input, column);
    } else {
      var pair, step := PairOf(catalog, t.kind, t.input), GridStep(t.kind.precisionKm);
      assert step > 0.0;
      var corner := -Anchor(pair, column);
      v, w := Number(corner), Number(corner + step / 2.0);
      Untouched(catalog, t.input, column, v);
      Untouched(catalog, t.input, column, w);
      assert corner + step / 2.0 + Anchor(pair, column) == step / 2.0;
      Half(step);
      CellIsOneValue(corner, corner + step / 2.0, Anchor(pair, column), step);
    }
  }

  lemma Half(step: real)
    requires step > 0.0
    ensures ((step / 2.0) / step).Floor == 0 && (0.0 / step).Floor == 0
  {
    assert (step / 2.0) / step == 0.5;
    assert 0.0 / step == 0.0;
  }

  lemma {:induction false} Untouched(catalog: Catalog, t: Tree, column: string, v: Value)
    requires !Touches(catalog, t, column)
    ensures Generalised(catalog, t, column, v) == v
  {
    if t.Unary? { Untouched(catalog, t.input, column, v); }
  }

  /** A key column still names its source row exactly when no GeneralizeLocation touches it; the guard the program
      has looks at Mask only. */
  lemma KeyGuardExact(catalog: Catalog, t: Tree, column: string)
    requires Typed(catalog, t)
    ensures (forall v :: Generalised(catalog, t, column, v) == v) <==> !Touches(catalog, t, column)
    ensures (forall v, w :: Generalised(catalog, t, column, v) == Generalised(catalog, t, column, w) ==> v == w)
            <==> !Touches(catalog, t, column)
  {
    if Touches(catalog, t, column) {
      var v, w := TouchedMerges(catalog, t, column);
    } else {
      forall v ensures Generalised(catalog, t, column, v) == v { Untouched(catalog, t, column, v); }
    }
  }

  // ----- keys of result rows -----

  function KeyOf(keys: seq<string>, row: Row): seq<Value> {
    seq(|keys|, i requires 0 <= i < |keys| => Get(row, keys[i]))
  }

  /** Keys that never hold NULL and never repeat. */
  predicate Identifies(keys: seq<string>, rows: seq<Row>) {
    && (forall i | 0 <= i < |rows| :: Null !in KeyOf(keys, rows[i]))
    && (forall i, j | 0 <= i < j < |rows| :: KeyOf(keys, rows[i]) != KeyOf(keys, rows[j]))
  }

  /** No generalisation rewrites a key: what the guard of the program leaves out. */
  ghost predicate KeysUntouched(catalog: Catalog, t: Tree, keys: seq<string>) {
    forall key | key in keys :: !Touches(catalog, t, key)
  }

  /** With untouched keys, every output row carries the key of the very row it came from, and a source that its key
      identifies gives a result its key identifies. */
  lemma KeysNameSources(g: Engine, s: Source, t: Tree, dataset: string, keys: seq<string>)
    returns (origins: seq<nat>)
    requires Accepted(t, dataset, keys) && Typed(s.catalog, t) && KeysUntouched(s.catalog, t, keys)
    requires forall key | key in keys :: HasColumn(s.catalog, t, key)
    ensures Identified(g, s, t, dataset, origins)
    ensures var source, rows := Table(s, dataset).rows, Eval(g, s, t).rows;
            && |origins| == |rows|
            && (forall i | 0 <= i < |rows| :: origins[i] < |source| && KeyOf(keys, rows[i]) == KeyOf(keys, source[origins[i]]))
            && (Identifies(keys, source) ==> Identifies(keys, rows))
  {
    origins := RecordIdentity(g, s, t, dataset, keys);
    var source, rows := Table(s, dataset).rows, Eval(g, s, t).rows;
    hide Accepted, Typed, HasColumn, Process, Eval;
    forall i | 0 <= i < |rows| ensures KeyOf(keys, rows[i]) == KeyOf(keys, source[origins[i]]) {
      forall k | 0 <= k < |keys| ensures Get(rows[i], keys[k]) == Get(source[origins[i]], keys[k]) {
        assert keys[k] in keys;
        KeyColumn(g, s.catalog, t, dataset, keys, keys[k], source[origins[i]]);
        Untouched(s.catalog, t, keys[k], Get(source[origins[i]], keys[k]));
      }
    }
    if Identifies(keys, source) {
      forall i, j | 0 <= i < j < |rows| ensures KeyOf(keys, rows[i]) != KeyOf(keys, rows[j]) {
        assert origins[i] < origins[j] || origins[j] < origins[i];
      }
    }
  }

  /** The key as the generalisations above the scan leave it. */
  ghost function GeneralisedKey(catalog: Catalog, t: Tree, keys: seq<string>, row: Row): seq<Value> {
    seq(|keys|, i requires 0 <= i < |keys| => Generalised(catalog, t, keys[i], Get(row, keys[i])))
  }

  /** Each row carries the generalised key of the row it came from. */
  ghost predicate CarryGeneralised(catalog: Catalog, t: Tree, keys: seq<string>, source: seq<Row>, origins: seq<nat>, rows: seq<Row>) {
    |origins| == |rows| && forall i | 0 <= i < |rows| ::
      origins[i] < |source| && KeyOf(keys, rows[i]) == GeneralisedKey(catalog, t, keys, source[origins[i]])
  }

  /** Touched or not: every output row carries the generalised key of the very row it came from. So two output rows share a
      key exactly when the generalisations make the keys of their two source rows one. */
  lemma ResultKeysExact(g: Engine, s: Source, t: Tree, dataset: string, keys: seq<string>)
    returns (origins: seq<nat>)
    requires Accepted(t, dataset, keys) && Typed(s.catalog, t)
    requires forall key | key in keys :: HasColumn(s.catalog, t, key)
    ensures Identified(g, s, t, dataset, origins)
    ensures CarryGeneralised(s.catalog, t, keys, Table(s, dataset).rows, origins, Eval(g, s, t).rows)
  {
    origins := RecordIdentity(g, s, t, dataset, keys);
    var source, rows := Table(s, dataset).rows, Eval(g, s, t).rows;
    hide Accepted, Typed, HasColumn, Eval, KeyOf, GeneralisedKey, Table;
    forall i | 0 <= i < |rows| ensures origins[i] < |source| && KeyOf(keys, rows[i]) == GeneralisedKey(s.catalog, t, keys, source[origins[i]]) {
      assert Process(g, s.catalog, t, source[origins[i]]) == Some(rows[i]);
      ProcessedKey(g, s.catalog, t, dataset, keys, source[origins[i]]);
    }
  }

  lemma ProcessedKey(g: Engine, catalog: Catalog, t: Tree, dataset: string, keys: seq<string>, row: Row)
    requires Accepted(t, dataset, keys) && Typed(catalog, t) && forall key | key in keys :: HasColumn(catalog, t, key)
    requires Process(g, catalog, t, row).Some?
    ensures KeyOf(keys, Process(g, catalog, t, row).value) == GeneralisedKey(catalog, t, keys, row)
  {
    hide Accepted, Typed, HasColumn, Process, Generalised;
    forall k | 0 <= k < |keys|
      ensures Get(Process(g, catalog, t, row).value, keys[k]) == Generalised(catalog, t, keys[k], Get(row, keys[k]))
    {
      assert keys[k] in keys;
      KeyColumn(g, catalog, t, dataset, keys, keys[k], row);
    }
  }

  predicate KeepsEveryRow(t: Tree) {
    match t
    case Unary(_, kind, input) => !kind.Filter? && !kind.TemporalFilter? && !kind.SpatialFilter? && KeepsEveryRow(input)
    case _ => true
  }

  lemma {:induction false} EveryRowKept(g: Engine, catalog: Catalog, t: Tree, dataset: string, keys: seq<string>, row: Row)
    requires Accepted(t, dataset, keys) && KeepsEveryRow(t)
    ensures Process(g, catalog, t, row).Some?
  {
    hide Elements, RewriteRow, PairOf;
    if t.Unary? { EveryRowKept(g, catalog, t.input, dataset, keys, row); }
  }

  /** A table with two rows of one column. */
  function TwoValues(catalog: Catalog, dataset: string, column: string, v: Value, w: Value): Source {
    Source(catalog, map[dataset := "t"], map["t" := Relation([column], [map[column := v], map[column := w]])])
  }

  /** Two rows that survive and whose keys the fragment makes one are two output rows with one key. */
  lemma MergedKeys(g: Engine, s: Source, t: Tree, dataset: string, keys: seq<string>, a: nat, b: nat)
    requires Accepted(t, dataset, keys) && Typed(s.catalog, t) && forall key | key in keys :: HasColumn(s.catalog, t, key)
    requires a < |Table(s, dataset).rows| && b < |Table(s, dataset).rows| && a != b
    requires Process(g, s.catalog, t, Table(s, dataset).rows[a]).Some? && Process(g, s.catalog, t, Table(s, dataset).rows[b]).Some?
    requires GeneralisedKey(s.catalog, t, keys, Table(s, dataset).rows[a]) == GeneralisedKey(s.catalog, t, keys, Table(s, dataset).rows[b])
    ensures !Identifies(keys, Eval(g, s, t).rows)
  {
    var origins := ResultKeysExact(g, s, t, dataset, keys);
    var rows := Eval(g, s, t).rows;
    assert a in origins && b in origins;
    var i: nat :| i < |origins| && origins[i] == a;
    var j: nat :| j < |origins| && origins[j] == b;
    hide Process, Accepted, Typed, HasColumn, Eval, KeyOf, GeneralisedKey, Table, Identified;
    assert KeyOf(keys, rows[i]) == KeyOf(keys, rows[j]);
  }

  /** A touched key, and nothing filtered: two source rows that a key tells apart come out with one key. */
  lemma TouchedKeyCollides(g: Engine, catalog: Catalog, t: Tree, dataset: string, key: string) returns (s: Source)
    requires Accepted(t, dataset, [key]) && Typed(catalog, t) && HasColumn(catalog, t, key)
    requires KeepsEveryRow(t) && Touches(catalog, t, key)
    ensures s.catalog == catalog && Identifies([key], Table(s, dataset).rows) && !Identifies([key], Eval(g, s, t).rows)
  {
    var v, w := TouchedMerges(catalog, t, key);
    s := TwoValues(catalog, dataset, key, v, w);
    var source := Table(s, dataset).rows;
    assert source == [map[key := v], map[key := w]];
    assert KeyOf([key], source[0]) == [v] && KeyOf([key], source[1]) == [w];
    hide Process, Accepted, Typed, HasColumn, Eval, Generalised, Touches, KeepsEveryRow;
    EveryRowKept(g, catalog, t, dataset, [key], source[0]);
    EveryRowKept(g, catalog, t, dataset, [key], source[1]);
    assert GeneralisedKey(catalog, t, [key], source[0]) == GeneralisedKey(catalog, t, [key], source[1]);
    hide Table, TwoValues, KeyOf, GeneralisedKey;
    MergedKeys(g, s, t, dataset, [key], 0, 1);
  }

  /** In a fragment that filters nothing, a key survives on every database exactly when no GeneralizeLocation touches it. */
  lemma KeySurvivesExact(g: Engine, catalog: Catalog, t: Tree, dataset: string, key: string)
    requires Accepted(t, dataset, [key]) && Typed(catalog, t) && HasColumn(catalog, t, key) && KeepsEveryRow(t)
    ensures (forall s: Source | s.catalog == catalog && Identifies([key], Table(s, dataset).rows) :: Identifies([key], Eval(g, s, t).rows))
            <==> !Touches(catalog, t, key)
  {
    hide Accepted, Typed, HasColumn, KeepsEveryRow, Touches, Eval, Identifies;
    if Touches(catalog, t, key) {
      var s := TouchedKeyCollides(g, catalog, t, dataset, key);
    } else {
      forall s: Source | s.catalog == catalog && Identifies([key], Table(s, dataset).rows) ensures Identifies([key], Eval(g, s, t).rows) {
        var origins := KeysNameSources(g, s, t, dataset, [key]);
      }
    }
  }

  function ExampleFragment(dataset: string, lat: string, lon: string): Tree {
    Unary("generalise", GeneralizeLocation([lat, lon], 111.045), Scan("scan", dataset))
  }

  /** Two rows a hundredth of a degree and more apart, in one grid cell. */
  function ExampleSource(dataset: string, table: string, lat: string, lon: string): Source {
    Source(map[dataset := Dataset([FieldDescriptor(lat, false), FieldDescriptor(lon, false)], Some(SpatialDescriptor(lat, lon, true)))],
           map[dataset := table],
           map[table := Relation([lat, lon], [map[lat := Number(0.25), lon := Number(0.0)], map[lat := Number(0.75), lon := Number(0.0)]])])
  }

  lemma ExampleIsAccepted(dataset: string, table: string, lat: string, lon: string)
    requires lat != lon
    ensures var t, s := ExampleFragment(dataset, lat, lon), ExampleSource(dataset, table, lat, lon);
            && Accepted(t, dataset, [lat]) && Typed(s.catalog, t) && HasColumn(s.catalog, t, lat)
            && PairOf(s.catalog, t.kind, t.input) == (lat, lon)
  {
    var t, s := ExampleFragment(dataset, lat, lon), ExampleSource(dataset, table, lat, lon);
    assert Elements([lat, lon]) == {lat, lon};
    SchemaIsDeclared(s.catalog, t.input, SpatialDescriptor(lat, lon, true), [lat, lon]);
  }

  lemma ExampleRows(g: Engine, dataset: string, table: string, lat: string, lon: string)
    requires lat != lon
    ensures var t, s := ExampleFragment(dataset, lat, lon), ExampleSource(dataset, table, lat, lon);
            Identifies([lat], Table(s, dataset).rows) && !Identifies([lat], Eval(g, s, t).rows)
  {
    var t, s := ExampleFragment(dataset, lat, lon), ExampleSource(dataset, table, lat, lon);
    ExampleIsAccepted(dataset, table, lat, lon);
    var rows := Table(s, dataset).rows;
    assert KeyOf([lat], rows[0]) == [Number(0.25)] && KeyOf([lat], rows[1]) == [Number(0.75)];
    TwoRows(g, t.kind, (lat, lon), rows[0], rows[1]);
    SameCell(g, t.kind, (lat, lon), rows[0], rows[1]);
    hide RewriteRow, RewriteRows, SchemaOf, PairOf;
    var out := Eval(g, s, t).rows;
    assert rows == [rows[0], rows[1]] && Eval(g, s, t.input).rows == rows;
    assert |out| == 2 && KeyOf([lat], out[0]) == KeyOf([lat], out[1]);
  }

  /** A fragment every guard of the program accepts, whose two rows with different keys come out with the same key. */
  lemma GeneralisedKeyExample(g: Engine, dataset: string, table: string, lat: string, lon: string)
    requires lat != lon
    ensures exists t, s: Source ::
              && Accepted(t, dataset, [lat]) && Typed(s.catalog, t) && HasColumn(s.catalog, t, lat)
              && Identifies([lat], Table(s, dataset).rows) && !Identifies([lat], Eval(g, s, t).rows)
  {
    ExampleIsAccepted(dataset, table, lat, lon);
    ExampleRows(g, dataset, table, lat, lon);
    var t, s := ExampleFragment(dataset, lat, lon), ExampleSource(dataset, table, lat, lon);
    hide *;
    assert Accepted(t, dataset, [lat]) && Typed(s.catalog, t);
  }

  lemma SameCell(g: Engine, kind: Kind, pair: (string, string), a: Row, b: Row)
    requires kind.GeneralizeLocation? && kind.precisionKm == 111.045 && pair.0 != pair.1
    requires Get(a, pair.0) == Number(0.25) && Get(b, pair.0) == Number(0.75)
    ensures Get(RewriteRow(g, kind, pair, a), pair.0) == Get(RewriteRow(g, kind, pair, b), pair.0)
  {
    assert (0.25 + 90.0).Floor == 90 && (0.75 + 90.0).Floor == 90;
    CellIsOneValue(0.25, 0.75, 90.0, 1.0);
  }

  lemma SchemaIsDeclared(catalog: Catalog, scan: Tree, spatial: SpatialDescriptor, coordinates: seq<string>)
    requires scan.Scan? && scan.dataset in catalog && catalog[scan.dataset].spatial == Some(spatial)
    requires Coordinates(spatial) == Elements(coordinates) && spatial.epsg4326
    ensures GridPair(SchemaOf(catalog, scan), coordinates) == Some(spatial)
  {
    assert Matching([spatial], Elements(coordinates)) == [spatial] + Matching([], Elements(coordinates));
  }

  lemma TwoRows(g: Engine, kind: Kind, pair: (string, string), a: Row, b: Row)
    ensures RewriteRows(g, kind, pair, [a, b]) == [RewriteRow(g, kind, pair, a), RewriteRow(g, kind, pair, b)]
  {
    RewriteTraced(g, kind, pair, [a, b]);
  }
}
