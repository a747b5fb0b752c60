/** Four ways to run one governed query: fused, or through checkpoints in temporary tables.  The tables' row order means
    nothing until the final ORDER BY. */
module GovernedPipelines {
  import opened Wrappers
  import opened Shuffling
  import opened Bags
  import Sql

  type Value = Sql.Value

  datatype Column = RowId | SensitiveValue | JoinKey | QueryBucket | DimensionKey | Marker | MaskedValue

  datatype Table = Events | Dimension | PipelineCheckpoint | RawQueryCheckpoint | RawJoinCheckpoint | GovernedOutput

  /** A row of any of the tables; a column the table does not have holds NULL. */
  datatype Row = Row(
    rowId: Value, sensitive: Value, joinKey: Value, queryBucket: Value, dimensionKey: Value, marker: Value, masked: Value)

  type Tables = map<Table, seq<Row>>

  /** `hash` and `md5` are the database's. */
  datatype Engine = Engine(hash: Value -> nat, md5: string -> string)

  /** `SELECT kept [, md5(sensitive_value) AS masked_value] FROM source [INNER JOIN dimension ON join_key = dimension_key]
      WHERE hash(sensitive_value) % 10000 < policy AND query_bucket < query`, each condition optional. */
  datatype Select = Select(
    kept: set<Column>, masks: bool, source: Table, joined: bool, policy: Option<nat>, query: Option<nat>)

  // ----- what a statement returns -----

  predicate PolicyHolds(g: Engine, cutoff: nat, row: Row) {
    g.hash(row.sensitive) % 10000 < cutoff
  }

  predicate QueryHolds(cutoff: nat, row: Row) {
    row.queryBucket.Number? && row.queryBucket.n < cutoff as real
  }

  predicate Holds(g: Engine, s: Select, row: Row) {
    (s.policy.Some? ==> PolicyHolds(g, s.policy.value, row)) && (s.query.Some? ==> QueryHolds(s.query.value, row))
  }

  function Masked(g: Engine, v: Value): Value {
    if v.Text? then Sql.Text(g.md5(v.s)) else Sql.Null
  }

  function Kept(s: Select, c: Column, v: Value): Value {
    if c in s.kept then v else Sql.Null
  }

  function PickRow(g: Engine, s: Select, row: Row): Row {
    Row(Kept(s, RowId, row.rowId), Kept(s, SensitiveValue, row.sensitive), Kept(s, JoinKey, row.joinKey),
        Kept(s, QueryBucket, row.queryBucket), Kept(s, DimensionKey, row.dimensionKey), Kept(s, Marker, row.marker),
        if s.masks then Masked(g, row.sensitive) else Kept(s, MaskedValue, row.masked))
  }

  /** SQL equality: NULL joins nothing. */
  predicate Joins(l: Row, r: Row) {
    !l.joinKey.Null? && l.joinKey == r.dimensionKey
  }

  /** The columns of the left side, with those of the dimension row beside them. */
  function Joined(l: Row, r: Row): Row {
    l.(dimensionKey := r.dimensionKey, marker := r.marker)
  }

  function Selected(g: Engine, s: Select, row: Row): seq<Row> {
    if Holds(g, s, row) then [PickRow(g, s, row)] else []
  }

  /** The rows that one pair of joined rows gives. */
  function PairOf(g: Engine, s: Select, l: Row): Row -> seq<Row> {
    r => if Joins(l, r) then Selected(g, s, Joined(l, r)) else []
  }

  /** The rows that one source row gives. */
  function RowsOf(g: Engine, s: Select, dimension: seq<Row>): Row -> seq<Row> {
    row => if s.joined then FlatMap(PairOf(g, s, row), dimension) else Selected(g, s, row)
  }

  predicate Readable(tables: Tables, s: Select) {
    s.source in tables && (s.joined ==> Dimension in tables)
  }

  function Answer(g: Engine, tables: Tables, s: Select): seq<Row>
    requires Readable(tables, s)
  {
    FlatMap(RowsOf(g, s, if s.joined then tables[Dimension] else []), tables[s.source])
  }

  // ----- the four candidates -----

  datatype Unit = Unit(policyCutoff: nat, queryCutoff: nat)

  datatype CandidateId = Fused | PolicyFirst | QueryFirst | JoinFirst | Unknown(name: string)

  datatype Candidate = Candidate(setup: seq<(Table, Select)>, output: Select, temporary: seq<Table>)

  function FusedOutput(u: Unit): Select {
    Select({RowId, DimensionKey, Marker}, true, Events, true, Some(u.policyCutoff), Some(u.queryCutoff))
  }

  function PolicyCheckpoint(u: Unit): Select {
    Select({RowId, JoinKey, QueryBucket}, true, Events, false, Some(u.policyCutoff), None)
  }

  function PolicyOutput(u: Unit): Select {
    Select({RowId, DimensionKey, Marker, MaskedValue}, false, PipelineCheckpoint, true, None, Some(u.queryCutoff))
  }

  function RawQuery(u: Unit): Select {
    Select({RowId, JoinKey, SensitiveValue}, false, Events, false, None, Some(u.queryCutoff))
  }

  function QueryCheckpoint(u: Unit): Select {
    Select({RowId, JoinKey}, true, RawQueryCheckpoint, false, Some(u.policyCutoff), None)
  }

  function QueryOutput(): Select {
    Select({RowId, DimensionKey, Marker, MaskedValue}, false, PipelineCheckpoint, true, None, None)
  }

  function RawJoin(u: Unit): Select {
    Select({RowId, DimensionKey, Marker, SensitiveValue}, false, Events, true, None, Some(u.queryCutoff))
  }

  function JoinCheckpoint(u: Unit): Select {
    Select({RowId, DimensionKey, Marker}, true, RawJoinCheckpoint, false, Some(u.policyCutoff), None)
  }

  function JoinOutput(): Select {
    Select({RowId, DimensionKey, Marker, MaskedValue}, false, PipelineCheckpoint, false, None, None)
  }

  /** `build_executable_governed_pipeline`. */
  function Build(id: CandidateId, u: Unit): Option<Candidate> {
    match id
    case Fused => Some(Candidate([], FusedOutput(u), []))
    case PolicyFirst => Some(Candidate([(PipelineCheckpoint, PolicyCheckpoint(u))], PolicyOutput(u), [PipelineCheckpoint]))
    case QueryFirst =>
      Some(Candidate([(RawQueryCheckpoint, RawQuery(u)), (PipelineCheckpoint, QueryCheckpoint(u))], QueryOutput(),
                     [RawQueryCheckpoint, PipelineCheckpoint]))
    case JoinFirst =>
      Some(Candidate([(RawJoinCheckpoint, RawJoin(u)), (PipelineCheckpoint, JoinCheckpoint(u))], JoinOutput(),
                     [RawJoinCheckpoint, PipelineCheckpoint]))
    case Unknown(_) => None
  }

  // ----- what every candidate must return -----

  /** What is shown of an event and a dimension row: of the sensitive text its `md5`, of anything else nothing. */
  function OutputRow(g: Engine, e: Row, d: Row): Row {
    Row(e.rowId, Sql.Null, Sql.Null, Sql.Null, d.dimensionKey, d.marker,
        match e.sensitive case Text(s) => Sql.Text(g.md5(s)) case _ => Sql.Null)
  }

  predicate Admitted(g: Engine, u: Unit, e: Row) {
    g.hash(e.sensitive) % 10000 < u.policyCutoff && match e.queryBucket case Number(n) => n < u.queryCutoff as real case _ => false
  }

  predicate Meets(e: Row, d: Row) {
    e.joinKey != Sql.Null && e.joinKey == d.dimensionKey
  }

  /** The row shows an admitted event beside a dimension row with its key. */
  predicate Shows(g: Engine, u: Unit, e: Row, d: Row, row: Row) {
    Admitted(g, u, e) && Meets(e, d) && row == OutputRow(g, e, d)
  }

  function GovernedPair(g: Engine, u: Unit, e: Row): Row -> seq<Row> {
    d => if Admitted(g, u, e) && Meets(e, d) then [OutputRow(g, e, d)] else []
  }

  function GovernedRows(g: Engine, u: Unit, dimension: seq<Row>): Row -> seq<Row> {
    e => FlatMap(GovernedPair(g, u, e), dimension)
  }

  /** Every admitted event with every dimension row it joins, masked; independent of any candidate. */
  function Governed(g: Engine, u: Unit, events: seq<Row>, dimension: seq<Row>): seq<Row> {
    FlatMap(GovernedRows(g, u, dimension), events)
  }

  /** The clauses of the statements say what is asked of the result. */
  lemma ClausesMean(g: Engine, u: Unit, e: Row, d: Row)
    ensures Admitted(g, u, e) == (PolicyHolds(g, u.policyCutoff, e) && QueryHolds(u.queryCutoff, e))
    ensures OutputRow(g, e, d) == Row(e.rowId, Sql.Null, Sql.Null, Sql.Null, d.dimensionKey, d.marker, Masked(g, e.sensitive))
  {}

  // ----- one event at a time -----

  lemma FusedEvent(g: Engine, u: Unit, dimension: seq<Row>, e: Row)
    ensures RowsOf(g, FusedOutput(u), dimension)(e) == GovernedRows(g, u, dimension)(e)
  {
    var s := FusedOutput(u);
    forall d | d in dimension ensures PairOf(g, s, e)(d) == GovernedPair(g, u, e)(d) {
      ClausesMean(g, u, e, d);
      hide PolicyHolds, QueryHolds, Masked, Admitted, OutputRow;
      SameRow(g, u, e, Joined(e, d));
    }
    FlatMapSame(PairOf(g, s, e), GovernedPair(g, u, e), dimension);
  }

  /** The conditions read nothing that joining adds. */
  lemma SameRow(g: Engine, u: Unit, e: Row, j: Row)
    requires j.sensitive == e.sensitive && j.queryBucket == e.queryBucket
    ensures PolicyHolds(g, u.policyCutoff, j) == PolicyHolds(g, u.policyCutoff, e)
    ensures QueryHolds(u.queryCutoff, j) == QueryHolds(u.queryCutoff, e)
  {}

  lemma PolicyEvent(g: Engine, u: Unit, dimension: seq<Row>, e: Row)
    ensures Then(RowsOf(g, PolicyCheckpoint(u), []), RowsOf(g, PolicyOutput(u), dimension))(e) == GovernedRows(g, u, dimension)(e)
  {
    var first, last := PolicyCheckpoint(u), PolicyOutput(u);
    var c := PickRow(g, first, e);
    forall d | d in dimension
      ensures GovernedPair(g, u, e)(d) == if PolicyHolds(g, u.policyCutoff, e) then PairOf(g, last, c)(d) else []
    {
      assert QueryHolds(u.queryCutoff, Joined(c, d)) == QueryHolds(u.queryCutoff, e);
      ClausesMean(g, u, e, d);
      hide PolicyHolds, QueryHolds, Masked, Admitted, OutputRow;
    }
    if PolicyHolds(g, u.policyCutoff, e) {
      FlatMapSame(PairOf(g, last, c), GovernedPair(g, u, e), dimension);
      FlatMapOne(RowsOf(g, last, dimension), c);
    } else {
      FlatMapNone(GovernedPair(g, u, e), dimension);
    }
  }

  lemma QueryEvent(g: Engine, u: Unit, dimension: seq<Row>, e: Row)
    ensures Then(Then(RowsOf(g, RawQuery(u), []), RowsOf(g, QueryCheckpoint(u), [])), RowsOf(g, QueryOutput(), dimension))(e)
            == GovernedRows(g, u, dimension)(e)
  {
    var first, second, last := RawQuery(u), QueryCheckpoint(u), QueryOutput();
    var raw := PickRow(g, first, e);
    var c := PickRow(g, second, raw);
    forall d | d in dimension
      ensures GovernedPair(g, u, e)(d) == if Admitted(g, u, e) then PairOf(g, last, c)(d) else []
    {
      ClausesMean(g, u, e, d);
      hide PolicyHolds, QueryHolds, Masked, Admitted, OutputRow;
    }
    assert PolicyHolds(g, u.policyCutoff, raw) == PolicyHolds(g, u.policyCutoff, e);
    ClausesMean(g, u, e, e);
    hide PolicyHolds, QueryHolds, Masked, Admitted, OutputRow;
    FlatMapOne(RowsOf(g, second, []), raw);
    FlatMapOne(RowsOf(g, last, dimension), c);
    if Admitted(g, u, e) {
      FlatMapSame(PairOf(g, last, c), GovernedPair(g, u, e), dimension);
    } else {
      FlatMapNone(GovernedPair(g, u, e), dimension);
    }
  }

  lemma JoinPair(g: Engine, u: Unit, e: Row, d: Row)
    ensures Then(Then(PairOf(g, RawJoin(u), e), RowsOf(g, JoinCheckpoint(u), [])), RowsOf(g, JoinOutput(), []))(d)
            == GovernedPair(g, u, e)(d)
  {
    var first, second, last := RawJoin(u), JoinCheckpoint(u), JoinOutput();
    var raw := PickRow(g, first, Joined(e, d));
    var c := PickRow(g, second, raw);
    SameRow(g, u, e, Joined(e, d));
    assert PolicyHolds(g, u.policyCutoff, raw) == PolicyHolds(g, u.policyCutoff, e);
    ClausesMean(g, u, e, d);
    hide PolicyHolds, QueryHolds, Masked, Admitted, OutputRow;
    FlatMapOne(RowsOf(g, second, []), raw);
    FlatMapOne(RowsOf(g, last, []), c);
  }

  lemma JoinEvent(g: Engine, u: Unit, dimension: seq<Row>, e: Row)
    ensures Then(Then(RowsOf(g, RawJoin(u), dimension), RowsOf(g, JoinCheckpoint(u), [])), RowsOf(g, JoinOutput(), []))(e)
            == GovernedRows(g, u, dimension)(e)
  {
    var pair, second, last := PairOf(g, RawJoin(u), e), RowsOf(g, JoinCheckpoint(u), []), RowsOf(g, JoinOutput(), []);
    FlatMapThen(pair, second, dimension);
    FlatMapThen(Then(pair, second), last, dimension);
    forall d | d in dimension ensures Then(Then(pair, second), last)(d) == GovernedPair(g, u, e)(d) { JoinPair(g, u, e, d); }
    FlatMapSame(Then(Then(pair, second), last), GovernedPair(g, u, e), dimension);
  }

  // ----- a connection and its tables -----

  /** `tables` is `base` after these CREATE statements, each storing its rows in any order. */
  ghost predicate Built(g: Engine, base: Tables, setup: seq<(Table, Select)>, tables: Tables)
    decreases |setup|
  {
    if setup == [] then tables == base
    else
      var front, last := setup[..|setup| - 1], setup[|setup| - 1];
      exists before: Tables :: BuiltOne(g, before, last, tables) && Built(g, base, front, before)
  }

  ghost predicate BuiltOne(g: Engine, before: Tables, statement: (Table, Select), tables: Tables) {
    && statement.0 !in before && Readable(before, statement.1)
    && statement.0 in tables && tables == before[statement.0 := tables[statement.0]]
    && multiset(tables[statement.0]) == multiset(Answer(g, before, statement.1))
  }

  /** No CREATE of the list meets an existing table or misses a source. */
  predicate CanBuild(known: set<Table>, setup: seq<(Table, Select)>)
    decreases |setup|
  {
    setup == []
    || (setup[0].0 !in known && setup[0].1.source in known && (setup[0].1.joined ==> Dimension in known)
        && CanBuild(known + {setup[0].0}, setup[1..]))
  }

  lemma BuiltLast(g: Engine, base: Tables, setup: seq<(Table, Select)>, before: Tables, statement: (Table, Select), tables: Tables)
    requires Built(g, base, setup, before) && BuiltOne(g, before, statement, tables)
    ensures Built(g, base, setup + [statement], tables)
  {
    hide BuiltOne;
    assert (setup + [statement])[..|setup|] == setup;
  }

  lemma BuiltFirst(g: Engine, base: Tables, a: (Table, Select), tables: Tables)
    requires Built(g, base, [a], tables)
    ensures BuiltOne(g, base, a, tables)
  {
    assert [a][..0] == [];
    var before :| Built(g, base, [], before) && BuiltOne(g, before, a, tables);
    assert before == base;
  }

  lemma BuiltBoth(g: Engine, base: Tables, a: (Table, Select), b: (Table, Select), tables: Tables) returns (middle: Tables)
    requires Built(g, base, [a, b], tables)
    ensures BuiltOne(g, base, a, middle) && BuiltOne(g, middle, b, tables)
  {
    assert [a, b][..1] == [a];
    middle :| Built(g, base, [a], middle) && BuiltOne(g, middle, b, tables);
    BuiltFirst(g, base, a, middle);
  }

  /** One more stage over a stored table: it may read the exact rows in any order. */
  lemma StageOver(g: Engine, tables: Tables, s: Select, exact: seq<Row>)
    requires Readable(tables, s) && multiset(tables[s.source]) == multiset(exact)
    ensures multiset(Answer(g, tables, s)) == multiset(FlatMap(RowsOf(g, s, if s.joined then tables[Dimension] else []), exact))
  {
    FlatMapPermutes(RowsOf(g, s, if s.joined then tables[Dimension] else []), tables[s.source], exact);
  }

  lemma FusedCorrect(g: Engine, u: Unit, base: Tables)
    requires Events in base && Dimension in base
    ensures Readable(base, FusedOutput(u)) && Answer(g, base, FusedOutput(u)) == Governed(g, u, base[Events], base[Dimension])
  {
    forall e | e in base[Events] ensures RowsOf(g, FusedOutput(u), base[Dimension])(e) == GovernedRows(g, u, base[Dimension])(e) {
      FusedEvent(g, u, base[Dimension], e);
    }
    FlatMapSame(RowsOf(g, FusedOutput(u), base[Dimension]), GovernedRows(g, u, base[Dimension]), base[Events]);
  }

  lemma PolicyCorrect(g: Engine, u: Unit, base: Tables, tables: Tables)
    requires Events in base && Dimension in base && BuiltOne(g, base, (PipelineCheckpoint, PolicyCheckpoint(u)), tables)
    ensures Readable(tables, PolicyOutput(u))
    ensures multiset(Answer(g, tables, PolicyOutput(u))) == multiset(Governed(g, u, base[Events], base[Dimension]))
  {
    var events, dimension := base[Events], base[Dimension];
    var first, last := RowsOf(g, PolicyCheckpoint(u), []), RowsOf(g, PolicyOutput(u), dimension);
    StageOver(g, tables, PolicyOutput(u), FlatMap(first, events));
    FlatMapThen(first, last, events);
    forall e | e in events ensures Then(first, last)(e) == GovernedRows(g, u, dimension)(e) { PolicyEvent(g, u, dimension, e); }
    FlatMapSame(Then(first, last), GovernedRows(g, u, dimension), events);
  }

  lemma QueryCorrect(g: Engine, u: Unit, base: Tables, middle: Tables, tables: Tables)
    requires Events in base && Dimension in base
    requires BuiltOne(g, base, (RawQueryCheckpoint, RawQuery(u)), middle)
    requires BuiltOne(g, middle, (PipelineCheckpoint, QueryCheckpoint(u)), tables)
    ensures Readable(tables, QueryOutput())
    ensures multiset(Answer(g, tables, QueryOutput())) == multiset(Governed(g, u, base[Events], base[Dimension]))
  {
    var events, dimension := base[Events], base[Dimension];
    var first, second, last := RowsOf(g, RawQuery(u), []), RowsOf(g, QueryCheckpoint(u), []), RowsOf(g, QueryOutput(), dimension);
    StageOver(g, middle, QueryCheckpoint(u), FlatMap(first, events));
    StageOver(g, tables, QueryOutput(), FlatMap(second, FlatMap(first, events)));
    FlatMapThen(first, second, events);
    FlatMapThen(Then(first, second), last, events);
    forall e | e in events ensures Then(Then(first, second), last)(e) == GovernedRows(g, u, dimension)(e) { QueryEvent(g, u, dimension, e); }
    FlatMapSame(Then(Then(first, second), last), GovernedRows(g, u, dimension), events);
  }

  lemma JoinCorrect(g: Engine, u: Unit, base: Tables, middle: Tables, tables: Tables)
    requires Events in base && Dimension in base
    requires BuiltOne(g, base, (RawJoinCheckpoint, RawJoin(u)), middle)
    requires BuiltOne(g, middle, (PipelineCheckpoint, JoinCheckpoint(u)), tables)
    ensures Readable(tables, JoinOutput())
    ensures multiset(Answer(g, tables, JoinOutput())) == multiset(Governed(g, u, base[Events], base[Dimension]))
  {
    var events, dimension := base[Events], base[Dimension];
    var first, second, last := RowsOf(g, RawJoin(u), dimension), RowsOf(g, JoinCheckpoint(u), []), RowsOf(g, JoinOutput(), []);
    StageOver(g, middle, JoinCheckpoint(u), FlatMap(first, events));
    StageOver(g, tables, JoinOutput(), FlatMap(second, FlatMap(first, events)));
    FlatMapThen(first, second, events);
    FlatMapThen(Then(first, second), last, events);
    forall e | e in events ensures Then(Then(first, second), last)(e) == GovernedRows(g, u, dimension)(e) { JoinEvent(g, u, dimension, e); }
    FlatMapSame(Then(Then(first, second), last), GovernedRows(g, u, dimension), events);
  }

  /** Whatever the database does to the order of its temporary tables, every candidate returns the governed rows. */
  lemma CandidatesAgree(g: Engine, u: Unit, id: CandidateId, base: Tables, tables: Tables)
    requires Build(id, u).Some? && Events in base && Dimension in base
    requires Built(g, base, Build(id, u).value.setup, tables)
    ensures Readable(tables, Build(id, u).value.output)
    ensures multiset(Answer(g, tables, Build(id, u).value.output)) == multiset(Governed(g, u, base[Events], base[Dimension]))
  {
    hide Answer, Governed, BuiltOne;
    match id
    case Fused => FusedCorrect(g, u, base);
    case PolicyFirst =>
      BuiltFirst(g, base, (PipelineCheckpoint, PolicyCheckpoint(u)), tables);
      PolicyCorrect(g, u, base, tables);
    case QueryFirst =>
      var middle := BuiltBoth(g, base, (RawQueryCheckpoint, RawQuery(u)), (PipelineCheckpoint, QueryCheckpoint(u)), tables);
      QueryCorrect(g, u, base, middle, tables);
    case JoinFirst =>
      var middle := BuiltBoth(g, base, (RawJoinCheckpoint, RawJoin(u)), (PipelineCheckpoint, JoinCheckpoint(u)), tables);
      JoinCorrect(g, u, base, middle, tables);
  }

  // ----- unique source identities -----

  /** The order of `ORDER BY row_id, dimension_key`. */
  function Rank(row: Row): (real, real) {
    (if row.rowId.Number? then row.rowId.n else 0.0, if row.dimensionKey.Number? then row.dimensionKey.n else 0.0)
  }

  /** `row_id` and `dimension_key` are numbers and identify their rows. */
  ghost predicate Identified(events: seq<Row>, dimension: seq<Row>) {
    && (forall e | e in events :: e.rowId.Number?) && (forall d | d in dimension :: d.dimensionKey.Number?)
    && (forall e, f | e in events && f in events && e.rowId == f.rowId :: e == f)
    && (forall c, d | c in dimension && d in dimension && c.dimensionKey == d.dimensionKey :: c == d)
  }

  /** The result, row by row: it holds what shows an admitted event beside a dimension row with its key, and nothing else. */
  ghost predicate ShowsSources(g: Engine, u: Unit, events: seq<Row>, dimension: seq<Row>, rows: seq<Row>) {
    forall row :: row in rows <==> exists e, d | e in events && d in dimension :: Shows(g, u, e, d, row)
  }

  lemma GovernedShows(g: Engine, u: Unit, events: seq<Row>, dimension: seq<Row>, rows: seq<Row>)
    requires multiset(rows) == multiset(Governed(g, u, events, dimension))
    ensures ShowsSources(g, u, events, dimension, rows)
  {
    SameElements(rows, Governed(g, u, events, dimension));
    forall row ensures row in rows <==> exists e, d | e in events && d in dimension :: Shows(g, u, e, d, row) {
      if row in rows { var e, d := GovernedRow(g, u, events, dimension, row); }
      if e, d :| e in events && d in dimension && Shows(g, u, e, d, row) { GovernedHas(g, u, events, dimension, e, d, row); }
    }
  }

  /** A governed row comes from one admitted event and one dimension row it joins. */
  lemma GovernedRow(g: Engine, u: Unit, events: seq<Row>, dimension: seq<Row>, row: Row) returns (e: Row, d: Row)
    requires row in Governed(g, u, events, dimension)
    ensures e in events && d in dimension && Shows(g, u, e, d, row)
  {
    InFlatMap(GovernedRows(g, u, dimension), events, row);
    e :| e in events && row in GovernedRows(g, u, dimension)(e);
    InFlatMap(GovernedPair(g, u, e), dimension, row);
    d :| d in dimension && row in GovernedPair(g, u, e)(d);
  }

  lemma GovernedHas(g: Engine, u: Unit, events: seq<Row>, dimension: seq<Row>, e: Row, d: Row, row: Row)
    requires e in events && d in dimension && Shows(g, u, e, d, row)
    ensures row in Governed(g, u, events, dimension)
  {
    hide OutputRow, Admitted;
    assert row in GovernedPair(g, u, e)(d);
    InFlatMap(GovernedPair(g, u, e), dimension, row);
    InFlatMap(GovernedRows(g, u, dimension), events, row);
  }

  // ----- what the result conceals -----

  /** The events differ in their sensitive values at most, which hash alike and of which one `md5` is all there is to show. */
  predicate ConcealedAlike(g: Engine, e: Row, f: Row) {
    && f == e.(sensitive := f.sensitive) && g.hash(e.sensitive) == g.hash(f.sensitive)
    && (e.sensitive.Text? <==> f.sensitive.Text?) && (e.sensitive.Text? ==> g.md5(e.sensitive.s) == g.md5(f.sensitive.s))
  }

  ghost predicate AllConcealedAlike(g: Engine, events: seq<Row>, others: seq<Row>) {
    |events| == |others| && forall k | 0 <= k < |events| :: ConcealedAlike(g, events[k], others[k])
  }

  /** Then the governed query cannot tell them apart. */
  lemma {:induction false} SensitiveValuesConcealed(g: Engine, u: Unit, events: seq<Row>, others: seq<Row>, dimension: seq<Row>)
    requires AllConcealedAlike(g, events, others)
    ensures Governed(g, u, events, dimension) == Governed(g, u, others, dimension)
  {
    if events != [] {
      var e, f := events[0], others[0];
      forall d | d in dimension ensures GovernedPair(g, u, e)(d) == GovernedPair(g, u, f)(d) {
        assert OutputRow(g, e, d) == OutputRow(g, f, d);
      }
      FlatMapSame(GovernedPair(g, u, e), GovernedPair(g, u, f), dimension);
      SensitiveValuesConcealed(g, u, events[1..], others[1..], dimension);
    }
  }

  /** What the rows show they would show of every list of events with the same concealed values. */
  ghost predicate Conceals(g: Engine, u: Unit, events: seq<Row>, dimension: seq<Row>, rows: seq<Row>) {
    forall others | AllConcealedAlike(g, events, others) :: multiset(rows) == multiset(Governed(g, u, others, dimension))
  }

  lemma GovernedConceals(g: Engine, u: Unit, events: seq<Row>, dimension: seq<Row>, rows: seq<Row>)
    requires multiset(rows) == multiset(Governed(g, u, events, dimension))
    ensures Conceals(g, u, events, dimension, rows)
  {
    hide AllConcealedAlike, Governed;
    forall others | AllConcealedAlike(g, events, others) ensures multiset(rows) == multiset(Governed(g, u, others, dimension)) {
      SensitiveValuesConcealed(g, u, events, others, dimension);
    }
  }

  lemma GovernedDetermined(g: Engine, u: Unit, events: seq<Row>, dimension: seq<Row>)
    requires Identified(events, dimension)
    ensures KeyDetermines(Rank, Governed(g, u, events, dimension))
  {
    var rows := Governed(g, u, events, dimension);
    forall x, y | x in rows && y in rows && Rank(x) == Rank(y) ensures x == y {
      var e, d := GovernedRow(g, u, events, dimension, x);
      var f, c := GovernedRow(g, u, events, dimension, y);
      hide Governed, Admitted;
      assert e.rowId == f.rowId && d.dimensionKey == c.dimensionKey;
    }
  }

  /** By the number of the event, then by the number of the dimension row. */
  ghost predicate InSourceOrder(rows: seq<Row>) {
    && (forall row | row in rows :: row.rowId.Number? && row.dimensionKey.Number?)
    && (forall i, j | 0 <= i < j < |rows| ::
          var a, b := rows[i], rows[j];
          a.rowId.n < b.rowId.n || (a.rowId.n == b.rowId.n && a.dimensionKey.n <= b.dimensionKey.n))
  }

  lemma GovernedInOrder(g: Engine, u: Unit, events: seq<Row>, dimension: seq<Row>, rows: seq<Row>)
    requires Identified(events, dimension) && Sorted(Rank, rows) && multiset(rows) == multiset(Governed(g, u, events, dimension))
    ensures InSourceOrder(rows)
  {
    SameElements(rows, Governed(g, u, events, dimension));
    forall row | row in rows ensures row.rowId.Number? && row.dimensionKey.Number? {
      var e, d := GovernedRow(g, u, events, dimension, row);
    }
    hide Governed, Identified;
    forall i, j | 0 <= i < j < |rows|
      ensures rows[i].rowId.n < rows[j].rowId.n || (rows[i].rowId.n == rows[j].rowId.n && rows[i].dimensionKey.n <= rows[j].dimensionKey.n)
    {
      assert rows[i] in rows && rows[j] in rows && !Before(Rank(rows[j]), Rank(rows[i]));
    }
  }

  /** Two sorted results of the governed query are one and the same sequence. */
  lemma SortedResultsEqual(g: Engine, u: Unit, events: seq<Row>, dimension: seq<Row>, s: seq<Row>, t: seq<Row>)
    requires Identified(events, dimension)
    requires Sorted(Rank, s) && Sorted(Rank, t)
    requires multiset(s) == multiset(Governed(g, u, events, dimension)) == multiset(t)
    ensures s == t
  {
    GovernedDetermined(g, u, events, dimension);
    SameElements(s, Governed(g, u, events, dimension));
    hide Governed, Identified, Sorted;
    assert KeyDetermines(Rank, s);
    SortedUnique(Rank, s, t);
  }

  /** `lineage_edges`: the source identities of every result row, in order. */
  function LineageEdges(rows: seq<Row>): seq<(Value, Value)> {
    seq(|rows|, i requires 0 <= i < |rows| => (rows[i].rowId, rows[i].dimensionKey))
  }

  /** Every edge names an admitted event and a dimension row it joins. */
  lemma EdgesNameSources(g: Engine, u: Unit, events: seq<Row>, dimension: seq<Row>, rows: seq<Row>, i: nat) returns (e: Row, d: Row)
    requires multiset(rows) == multiset(Governed(g, u, events, dimension)) && i < |rows|
    ensures e in events && d in dimension && Shows(g, u, e, d, rows[i])
    ensures LineageEdges(rows)[i] == (e.rowId, d.dimensionKey)
  {
    SameElements(rows, Governed(g, u, events, dimension));
    assert rows[i] in rows;
    e, d := GovernedRow(g, u, events, dimension, rows[i]);
  }

  function FromOutput(): Select {
    Select({RowId, DimensionKey, Marker, MaskedValue}, false, GovernedOutput, false, None, None)
  }

  /** Reading the stored output back changes nothing. */
  lemma OutputReadBack(g: Engine, u: Unit, events: seq<Row>, dimension: seq<Row>, tables: Tables)
    requires GovernedOutput in tables && multiset(tables[GovernedOutput]) == multiset(Governed(g, u, events, dimension))
    ensures multiset(Answer(g, tables, FromOutput())) == multiset(Governed(g, u, events, dimension))
  {
    var rows := tables[GovernedOutput];
    SameElements(rows, Governed(g, u, events, dimension));
    forall row | row in rows ensures RowsOf(g, FromOutput(), [])(row) == [row] {
      var e, d := GovernedRow(g, u, events, dimension, row);
      hide Governed, Admitted;
    }
    FlatMapIdentity(RowsOf(g, FromOutput(), []), rows);
  }
}
