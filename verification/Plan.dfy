/** Logical plans: a graph of operators named by id, the schema each operator produces, and what it means. */
module Plan {
  import opened Wrappers
  import opened Sql

  datatype Comparison = Comparison(op: CompareOp, field: string, literal: Value, negated: bool)

  /** A comparison, or a flat AND/OR of comparisons, possibly negated as a whole. */
  datatype Predicate =
    | One(comparison: Comparison)
    | Flat(isAnd: bool, operands: seq<Comparison>, negated: bool)

  datatype Factor = Field(name: string) | Affine(constant: Value, add: bool, name: string)

  /** The product of two fields is a formula with two plain factors. */
  datatype AggregateInput = AllRows | Of(name: string) | Formula(factors: seq<Factor>)

  datatype Aggregation = Aggregation(fn: AggregateFunction, input: AggregateInput, output: string)

  datatype MaskMethod = Redact | Hash | Nullify

  datatype Kind =
    | ScanSource(dataset: string)
    | Project(fields: seq<string>)
    | Sort(keys: seq<SortKey>)
    | Limit(rowCount: nat)
    | Filter(condition: Predicate)
    | TemporalFilter(field: string, start: int, end: int)
    | SpatialFilter(latitude: real, longitude: real, radiusKm: real)
    | Aggregate(groupBy: seq<string>, aggregates: seq<Aggregation>)
    | Mask(masked: seq<string>, how: MaskMethod)
    | GeneralizeLocation(coordinates: seq<string>, precisionKm: real)
    | LineageCapture(sourceLevel: bool)
    | MinGroupSize(minimum: nat)
    | Join(leftField: string, rightField: string, leftOuter: bool)
    | SpatialJoin(distanceWithin: bool, leftLatitude: string, leftLongitude: string,
                  rightLatitude: string, rightLongitude: string, distanceKm: Option<real>)

  datatype Operator = Operator(kind: Kind, inputs: seq<string>)

  type Graph = map<string, Operator>

  // ----- the graph, and the tree an operator unfolds to -----

  predicate IsBinary(kind: Kind) {
    kind.Join? || kind.SpatialJoin?
  }

  function Arity(kind: Kind): nat {
    if kind.ScanSource? then 0 else if IsBinary(kind) then 2 else 1
  }

  /** What validation establishes: known inputs, the right number of them, and no cycle.
      `rank` witnesses the last: every operator ranks above its inputs. */
  ghost predicate Acyclic(plan: Graph, rank: map<string, nat>) {
    && plan.Keys <= rank.Keys
    && (forall id | id in plan :: |plan[id].inputs| == Arity(plan[id].kind))
    && (forall id, k | id in plan && 0 <= k < |plan[id].inputs| ::
          plan[id].inputs[k] in plan && rank[plan[id].inputs[k]] < rank[id])
  }

  datatype Tree =
    | Scan(id: string, dataset: string)
    | Unary(id: string, kind: Kind, input: Tree)
    | Binary(id: string, kind: Kind, left: Tree, right: Tree)

  ghost function Unfold(plan: Graph, rank: map<string, nat>, id: string): (t: Tree)
    requires Acyclic(plan, rank) && id in plan
    ensures t.id == id
    decreases rank[id]
  {
    var Operator(kind, inputs) := plan[id];
    if kind.ScanSource? then Scan(id, kind.dataset)
    else if IsBinary(kind) then Binary(id, kind, Unfold(plan, rank, inputs[0]), Unfold(plan, rank, inputs[1]))
    else Unary(id, kind, Unfold(plan, rank, inputs[0]))
  }

  function Ids(t: Tree): set<string> {
    match t
    case Scan(id, _) => {id}
    case Unary(id, _, input) => {id} + Ids(input)
    case Binary(id, _, left, right) => {id} + Ids(left) + Ids(right)
  }

  /** No operator is its own ancestor. */
  predicate ProperTree(t: Tree) {
    match t
    case Scan(_, _) => true
    case Unary(id, kind, input) => !IsBinary(kind) && !kind.ScanSource? && id !in Ids(input) && ProperTree(input)
    case Binary(id, kind, left, right) =>
      IsBinary(kind) && id !in Ids(left) + Ids(right) && ProperTree(left) && ProperTree(right)
  }

  /** Unfolding an acyclic plan never meets an operator below itself, and only meets operators of the plan. */
  lemma {:induction false} UnfoldProper(plan: Graph, rank: map<string, nat>, id: string)
    requires Acyclic(plan, rank) && id in plan
    ensures ProperTree(Unfold(plan, rank, id))
    ensures forall other | other in Ids(Unfold(plan, rank, id)) :: other in plan && (other == id || rank[other] < rank[id])
    decreases rank[id]
  {
    var Operator(kind, inputs) := plan[id];
    if !kind.ScanSource? {
      UnfoldProper(plan, rank, inputs[0]);
      if IsBinary(kind) { UnfoldProper(plan, rank, inputs[1]); }
    }
  }

  // ----- schemas -----

  datatype FieldDescriptor = FieldDescriptor(name: string, isString: bool)

  datatype SpatialDescriptor = SpatialDescriptor(latitude: string, longitude: string, epsg4326: bool)

  datatype Schema = Schema(fields: seq<FieldDescriptor>, spatial: seq<SpatialDescriptor>)

  datatype Dataset = Dataset(fields: seq<FieldDescriptor>, spatial: Option<SpatialDescriptor>)

  type Catalog = map<string, Dataset>

  function Names(fields: seq<FieldDescriptor>): seq<string> {
    if fields == [] then [] else [fields[0].name] + Names(fields[1..])
  }

  function FindField(fields: seq<FieldDescriptor>, name: string): Option<FieldDescriptor> {
    if fields == [] then None
    else if fields[0].name == name then Some(fields[0])
    else FindField(fields[1..], name)
  }

  function SelectFields(fields: seq<FieldDescriptor>, names: seq<string>): seq<FieldDescriptor> {
    if names == [] then []
    else
      var found := FindField(fields, names[0]);
      [if found.Some? then found.value else FieldDescriptor(names[0], false)] + SelectFields(fields, names[1..])
  }

  function Coordinates(d: SpatialDescriptor): set<string> {
    {d.latitude, d.longitude}
  }

  function Elements(names: seq<string>): set<string> {
    set name | name in names
  }

  function KeepWithin(spatial: seq<SpatialDescriptor>, names: set<string>): seq<SpatialDescriptor> {
    if spatial == [] then []
    else (if Coordinates(spatial[0]) <= names then [spatial[0]] else []) + KeepWithin(spatial[1..], names)
  }

  function KeepDisjoint(spatial: seq<SpatialDescriptor>, names: set<string>): seq<SpatialDescriptor> {
    if spatial == [] then []
    else (if Coordinates(spatial[0]) !! names then [spatial[0]] else []) + KeepDisjoint(spatial[1..], names)
  }

  function MaskFields(fields: seq<FieldDescriptor>, masked: set<string>, how: MaskMethod): seq<FieldDescriptor> {
    if fields == [] then []
    else
      [if fields[0].name in masked && !how.Nullify? then fields[0].(isString := true) else fields[0]]
      + MaskFields(fields[1..], masked, how)
  }

  function OutputFields(aggregates: seq<Aggregation>): seq<FieldDescriptor> {
    if aggregates == [] then [] else [FieldDescriptor(aggregates[0].output, false)] + OutputFields(aggregates[1..])
  }

  function SchemaOf(catalog: Catalog, t: Tree): Schema {
    match t
    case Scan(_, dataset) =>
      if dataset !in catalog then Schema([], [])
      else Schema(catalog[dataset].fields, if catalog[dataset].spatial.Some? then [catalog[dataset].spatial.value] else [])
    case Binary(_, _, left, right) =>
      var l, r := SchemaOf(catalog, left), SchemaOf(catalog, right);
      Schema(l.fields + r.fields, l.spatial + r.spatial)
    case Unary(_, kind, input) =>
      var s := SchemaOf(catalog, input);
      match kind
      case Project(fields) => Schema(SelectFields(s.fields, fields), KeepWithin(s.spatial, Elements(fields)))
      case Aggregate(groupBy, aggregates) =>
        Schema(SelectFields(s.fields, groupBy) + OutputFields(aggregates), KeepWithin(s.spatial, Elements(groupBy)))
      case Mask(masked, how) =>
        Schema(MaskFields(s.fields, Elements(masked), how), KeepDisjoint(s.spatial, Elements(masked)))
      case _ => s
  }

  function Matching(spatial: seq<SpatialDescriptor>, names: set<string>): seq<SpatialDescriptor> {
    if spatial == [] then []
    else (if Coordinates(spatial[0]) == names then [spatial[0]] else []) + Matching(spatial[1..], names)
  }

  /** The one coordinate pair a GeneralizeLocation may rewrite. */
  function GridPair(schema: Schema, coordinates: seq<string>): Option<SpatialDescriptor> {
    var matching := Matching(schema.spatial, Elements(coordinates));
    if |matching| == 1 && matching[0].epsg4326 then Some(matching[0]) else None
  }

  // ----- the scans below an operator -----

  function Scans(t: Tree): map<string, string> {
    match t
    case Scan(id, dataset) => map[id := dataset]
    case Unary(_, _, input) => Scans(input)
    case Binary(_, _, left, right) => Scans(left) + Scans(right)
  }

  // ----- what an operator means, row by row -----

  predicate Comparable(op: CompareOp, a: Value, b: Value) {
    || (a.Number? && b.Number?) || (a.Instant? && b.Instant?)
    || ((op.Eq? || op.Ne?) && ((a.Text? && b.Text?) || (a.Bool? && b.Bool?)))
  }

  predicate Relates(op: CompareOp, a: Value, b: Value)
    requires Comparable(op, a, b)
  {
    match op
    case Eq => a == b
    case Ne => a != b
    case Gt => if a.Number? then a.n > b.n else a.t > b.t
    case Ge => if a.Number? then a.n >= b.n else a.t >= b.t
    case Lt => if a.Number? then a.n < b.n else a.t < b.t
    case Le => if a.Number? then a.n <= b.n else a.t <= b.t
  }

  /** The comparison is definitely `answer`; NULL makes it neither true nor false. */
  predicate Decides(c: Comparison, row: Row, answer: bool) {
    var v := Get(row, c.field);
    Comparable(c.op, v, c.literal) && (Relates(c.op, v, c.literal) != c.negated) == answer
  }

  predicate Satisfies(p: Predicate, row: Row) {
    match p
    case One(c) => Decides(c, row, true)
    case Flat(isAnd, operands, negated) =>
      if isAnd == !negated then forall c | c in operands :: Decides(c, row, !negated)
      else exists c | c in operands :: Decides(c, row, !negated)
  }

  /** Whether a filter keeps the row; `pair` is the coordinate pair a SpatialFilter measures. */
  predicate Keeps(g: Engine, kind: Kind, pair: (string, string), row: Row) {
    match kind
    case Filter(p) => Satisfies(p, row)
    case TemporalFilter(field, start, end) =>
      var v := Get(row, field);
      v.Instant? && start <= v.t < end
    case SpatialFilter(latitude, longitude, radiusKm) =>
      var lat, lon := Get(row, pair.0), Get(row, pair.1);
      lat.Number? && lon.Number? && g.planar(lat.n, latitude, lon.n, longitude, latitude) <= radiusKm
    case _ => true
  }

  function KeepRows(g: Engine, kind: Kind, pair: (string, string), rows: seq<Row>): seq<Row> {
    if rows == [] then []
    else (if Keeps(g, kind, pair, rows[0]) then [rows[0]] else []) + KeepRows(g, kind, pair, rows[1..])
  }

  function MaskValue(g: Engine, how: MaskMethod, v: Value): Value {
    match how
    case Redact => Text("[REDACTED]")
    case Hash => if v.Text? then Text(g.sha256(v.s)) else Null
    case Nullify => Null
  }

  /** The centre of the grid cell of side `step` that contains `x`, cells counted from `-anchor`. */
  function CellCentre(x: Value, anchor: real, step: real): Value {
    if x.Number? then GridCell(x.n, anchor, step, step, step) else Null
  }

  lemma CellOf(y: real, step: real) returns (k: int)
    requires step > 0.0
    ensures k == (y / step).Floor && (k as real) * step <= y < (k as real) * step + step
  {
    k := (y / step).Floor;
    CellBounds(y, y / step, k as real, step);
  }

  lemma CellBounds(y: real, q: real, f: real, step: real)
    requires step > 0.0 && q * step == y && f <= q < f + 1.0
    ensures f * step <= y < f * step + step
  {
    Scaled(f, q, step);
    var d := f + 1.0 - q;
    assert d * step > 0.0;
    assert q == f + 1.0 - d;
    assert y == (f + 1.0 - d) * step;
    assert y == f * step + step - d * step;
  }

  lemma Scaled(a: real, b: real, c: real)
    requires a <= b && c > 0.0
    ensures a * c <= b * c
  {}

  /** The generalised coordinate is within half a cell of the raw one. */
  lemma CentreIsNear(x: real, anchor: real, step: real)
    requires step > 0.0
    ensures CellCentre(Number(x), anchor, step).Number?
    ensures var c := CellCentre(Number(x), anchor, step).n; c - step / 2.0 <= x < c + step / 2.0
  {
    var k := CellOf(x + anchor, step);
  }

  /** Every coordinate of a cell is generalised to the same centre, so nothing finer than the cell is disclosed. */
  lemma CellIsOneValue(x: real, y: real, anchor: real, step: real)
    requires step > 0.0
    ensures CellCentre(Number(x), anchor, step) == CellCentre(Number(y), anchor, step)
            <==> ((x + anchor) / step).Floor == ((y + anchor) / step).Floor
  {
    var i := CellOf(x + anchor, step);
    var j := CellOf(y + anchor, step);
    if i < j {
      Scaled(i as real + 1.0, j as real, step);
      assert (i as real + 1.0) * step == (i as real) * step + step;
    } else if j < i {
      Scaled(j as real + 1.0, i as real, step);
      assert (j as real + 1.0) * step == (j as real) * step + step;
    }
  }

  /** Where GeneralizeLocation puts a latitude. */
  function LatitudeCentre(latitude: real, step: real): real
    requires step > 0.0
  {
    CellCentre(Number(latitude), 90.0, step).n
  }

  lemma CellsInOrder(x: real, y: real, step: real)
    requires step > 0.0 && x <= y
    ensures (x / step).Floor <= (y / step).Floor
  {
    QuotientsInOrder(x, y, step, x / step, y / step);
  }

  lemma QuotientsInOrder(x: real, y: real, step: real, p: real, q: real)
    requires step > 0.0 && x <= y && p * step == x && q * step == y
    ensures p <= q
  {
    var d := q - p;
    assert d * step == q * step - p * step;
    SignOfFactor(d, step);
  }

  lemma SignOfFactor(d: real, step: real)
    requires step > 0.0 && d * step >= 0.0
    ensures d >= 0.0
  {}

  lemma CentresInOrder(x: real, y: real, step: real)
    requires step > 0.0 && -90.0 <= x <= y
    ensures -90.0 <= LatitudeCentre(x, step) <= LatitudeCentre(y, step)
  {
    CellsInOrder(0.0, x + 90.0, step);
    assert 0.0 / step == 0.0;
    CellsInOrder(x + 90.0, y + 90.0, step);
    var i, j := ((x + 90.0) / step).Floor, ((y + 90.0) / step).Floor;
    Scaled(0.0, i as real, step);
    Scaled(i as real, j as real, step);
  }

  /** Generalised latitudes stay on the globe exactly when that of the pole does. */
  lemma GridStaysOnGlobe(step: real)
    requires step > 0.0
    ensures (forall x | -90.0 <= x <= 90.0 :: -90.0 <= LatitudeCentre(x, step) <= 90.0) <==> LatitudeCentre(90.0, step) <= 90.0
  {
    hide LatitudeCentre;
    forall x | -90.0 <= x <= 90.0 ensures -90.0 <= LatitudeCentre(x, step) <= LatitudeCentre(90.0, step) {
      CentresInOrder(x, 90.0, step);
    }
  }

  function GridStep(precisionKm: real): real {
    precisionKm / 111.045
  }

  /** What a row-rewriting operator does to one row. */
  function RewriteRow(g: Engine, kind: Kind, pair: (string, string), row: Row): Row {
    match kind
    case Mask(masked, how) => row + (map f | f in masked :: MaskValue(g, how, Get(row, f)))
    case GeneralizeLocation(_, precisionKm) =>
      var step := GridStep(precisionKm);
      row[pair.0 := CellCentre(Get(row, pair.0), 90.0, step)][pair.1 := CellCentre(Get(row, pair.1), 180.0, step)]
    case Project(fields) => Narrow(fields, row)
    case _ => row
  }

  function RewriteRows(g: Engine, kind: Kind, pair: (string, string), rows: seq<Row>): seq<Row> {
    if rows == [] then []
    else [RewriteRow(g, kind, pair, rows[0])] + RewriteRows(g, kind, pair, rows[1..])
  }

  function FactorValue(f: Factor, row: Row): Value {
    var v := Get(row, f.name);
    match f
    case Field(_) => v
    case Affine(c, add, _) =>
      if c.Number? && v.Number? then Number(if add then c.n + v.n else c.n - v.n) else Null
  }

  function FactorValues(fs: seq<Factor>, row: Row): seq<Value> {
    if fs == [] then [] else [FactorValue(fs[0], row)] + FactorValues(fs[1..], row)
  }

  function InputValue(input: AggregateInput, row: Row): Value {
    match input
    case AllRows => Null
    case Of(name) => Get(row, name)
    case Formula(factors) => Product(FactorValues(factors, row))
  }

  function InputValues(aggregates: seq<Aggregation>, row: Row): seq<Value> {
    if aggregates == [] then []
    else [InputValue(if aggregates[0].fn.Count? then AllRows else aggregates[0].input, row)] + InputValues(aggregates[1..], row)
  }

  function InputRows(aggregates: seq<Aggregation>, rows: seq<Row>): seq<seq<Value>> {
    if rows == [] then [] else [InputValues(aggregates, rows[0])] + InputRows(aggregates, rows[1..])
  }

  function AggregateSignatures(aggregates: seq<Aggregation>): seq<(AggregateFunction, string)> {
    if aggregates == [] then [] else [(aggregates[0].fn, aggregates[0].output)] + AggregateSignatures(aggregates[1..])
  }

  /** Whether two rows join: equal keys that are not NULL, or points within the distance. */
  predicate Joins(g: Engine, kind: Kind, l: Row, r: Row) {
    match kind
    case Join(leftField, rightField, _) =>
      var a, b := Get(l, leftField), Get(r, rightField);
      Comparable(Eq, a, b) && a == b
    case SpatialJoin(_, leftLatitude, leftLongitude, rightLatitude, rightLongitude, distanceKm) =>
      var a, b, c, d := Get(r, rightLatitude), Get(l, leftLatitude), Get(r, rightLongitude), Get(l, leftLongitude);
      distanceKm.Some? && a.Number? && b.Number? && c.Number? && d.Number?
      && g.haversine(a.n, b.n, c.n, d.n) <= distanceKm.value
    case _ => false
  }

  function Partners(g: Engine, kind: Kind, l: Row, rights: seq<Row>): seq<Row> {
    if rights == [] then []
    else (if Joins(g, kind, l, rights[0]) then [l + rights[0]] else []) + Partners(g, kind, l, rights[1..])
  }

  function PairRows(g: Engine, kind: Kind, lefts: seq<Row>, right: Relation): seq<Row> {
    if lefts == [] then []
    else
      var partners := Partners(g, kind, lefts[0], right.rows);
      (if kind.Join? && kind.leftOuter && partners == [] then [lefts[0] + Padding(right.columns)] else partners)
      + PairRows(g, kind, lefts[1..], right)
  }

  // ----- the direct evaluator -----

  /** The dataset of the only scan below `t`, when there is exactly one. */
  ghost function UniqueScan(t: Tree): Option<string> {
    if |Scans(t)| == 1 then
      var id :| id in Scans(t);
      Some(Scans(t)[id])
    else None
  }

  function PairOfDataset(catalog: Catalog, dataset: Option<string>): (string, string) {
    if dataset.Some? && dataset.value in catalog && catalog[dataset.value].spatial.Some? then
      var pair := catalog[dataset.value].spatial.value;
      (pair.latitude, pair.longitude)
    else ("", "")
  }

  /** The coordinate pair an operator works on: the one its unique scan declares, or the one it names. */
  ghost function PairOf(catalog: Catalog, kind: Kind, input: Tree): (string, string) {
    match kind
    case SpatialFilter(_, _, _) => PairOfDataset(catalog, UniqueScan(input))
    case GeneralizeLocation(coordinates, _) =>
      var pair := GridPair(SchemaOf(catalog, input), coordinates);
      if pair.Some? then (pair.value.latitude, pair.value.longitude) else ("", "")
    case _ => ("", "")
  }

  datatype Source = Source(catalog: Catalog, bindings: map<string, string>, db: Database)

  function Table(s: Source, dataset: string): Relation {
    if dataset in s.bindings && s.bindings[dataset] in s.db then s.db[s.bindings[dataset]] else Relation([], [])
  }

  /** One operator over the relation below it. */
  ghost function Operate(g: Engine, kind: Kind, pair: (string, string), rel: Relation): Relation {
    match kind
    case Project(fields) => Relation(fields, RewriteRows(g, kind, pair, rel.rows))
    case Mask(_, _) => Relation(rel.columns, RewriteRows(g, kind, pair, rel.rows))
    case GeneralizeLocation(_, _) => Relation(rel.columns, RewriteRows(g, kind, pair, rel.rows))
    case Sort(keys) => Relation(rel.columns, SortRows(g, keys, rel.rows))
    case Limit(n) => Relation(rel.columns, if n <= |rel.rows| then rel.rows[..n] else rel.rows)
    case Aggregate(groupBy, aggregates) =>
      var signatures := AggregateSignatures(aggregates);
      Relation(groupBy + OutputNames(signatures),
               GroupRows(signatures, groupBy, rel.rows, InputRows(aggregates, rel.rows)))
    case _ => Relation(rel.columns, KeepRows(g, kind, pair, rel.rows))
  }

  /** The rows an operator produces, straight from the meaning of the operators below it. */
  ghost function Eval(g: Engine, s: Source, t: Tree): Relation {
    match t
    case Scan(_, dataset) => Table(s, dataset)
    case Binary(_, kind, left, right) =>
      var l, r := Eval(g, s, left), Eval(g, s, right);
      Relation(l.columns + r.columns, PairRows(g, kind, l.rows, r))
    case Unary(_, kind, input) => Operate(g, kind, PairOf(s.catalog, kind, input), Eval(g, s, input))
  }
}
