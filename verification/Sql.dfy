/** Parameterised SQL in the shapes the plan compiler emits.

    A `Placeholder` prints as `?`.  It remembers the slot its operator meant for it, but binding never
    looks at that: parameters are consumed strictly in the order the placeholders appear in the text. */
module Sql {

  datatype Value = Null | Bool(b: bool) | Number(n: real) | Text(s: string) | Instant(t: int)

  type Row = map<string, Value>

  datatype Relation = Relation(columns: seq<string>, rows: seq<Row>)

  type Database = map<string, Relation>

  /** One positional parameter and the operator that pushed it. */
  datatype Slot = Slot(owner: string, value: Value)

  datatype Side = LeftRel | RightRel

  datatype CompareOp = Eq | Ne | Gt | Ge | Lt | Le

  datatype Function =
    | Compare(op: CompareOp) | Not | And | Or
    | CastVarchar | Sha256
    | Plus | Minus | Times
    | Grid(anchor: real) | PlanarKm
    | HaversineKm | LatitudeGap | DegreesOfKm

  datatype Expr =
    | Column(side: Side, name: string)
    | Literal(value: Value)
    | Placeholder(slot: Slot)
    | Apply(fn: Function, args: seq<Expr>)

  datatype AggregateFunction = Count | Sum | Avg | Min | Max

  datatype AggregateItem = AggregateItem(fn: AggregateFunction, argument: Expr, output: string)

  datatype Replacement = Replacement(expr: Expr, column: string)

  datatype SelectList =
    | Star
    | Columns(names: seq<string>)
    | Replace(items: seq<Replacement>)
    | Aggregates(groups: seq<string>, aggregates: seq<AggregateItem>)

  datatype SortKey = SortKey(field: string, descending: bool)

  datatype Suffix =
    | NoSuffix
    | Where(condition: Expr)
    | OrderBy(keys: seq<SortKey>)
    | LimitTo(count: Expr)

  datatype Query =
    | Base(table: string)
    | Select(list: SelectList, from: Query, suffix: Suffix)
    | JoinOn(leftOuter: bool, left: Query, right: Query, on: Expr)
    | With(name: string, definition: Query, body: Query)

  /** What is left to the database: trigonometry, hashing, casts to text, and the order it gives tied rows. */
  datatype Engine = Engine(
    planar: (real, real, real, real, real) -> real,
    haversine: (real, real, real, real) -> real,
    degrees: real -> real,
    sha256: string -> string,
    varchar: Value -> string,
    arrange: (seq<SortKey>, seq<Row>) -> seq<nat>)

  // ----- scalar semantics -----

  function Get(row: Row, name: string): Value {
    if name in row then row[name] else Null
  }

  /** Comparison with SQL NULL semantics; values of different types never compare (validation excludes them). */
  function CompareValues(op: CompareOp, a: Value, b: Value): Value {
    if a.Number? && b.Number? then
      Bool(match op case Eq => a.n == b.n case Ne => a.n != b.n case Gt => a.n > b.n
                    case Ge => a.n >= b.n case Lt => a.n < b.n case Le => a.n <= b.n)
    else if a.Instant? && b.Instant? then
      Bool(match op case Eq => a.t == b.t case Ne => a.t != b.t case Gt => a.t > b.t
                    case Ge => a.t >= b.t case Lt => a.t < b.t case Le => a.t <= b.t)
    else if (a.Text? && b.Text?) || (a.Bool? && b.Bool?) then
      match op case Eq => Bool(a == b) case Ne => Bool(a != b) case _ => Null
    else Null
  }

  function Negation(v: Value): Value {
    if v.Bool? then Bool(!v.b) else Null
  }

  function Conjunction(vs: seq<Value>): Value {
    if vs == [] then Bool(true)
    else
      var rest := Conjunction(vs[1..]);
      if vs[0] == Bool(false) || rest == Bool(false) then Bool(false)
      else if vs[0] == Bool(true) then rest else Null
  }

  function Disjunction(vs: seq<Value>): Value {
    if vs == [] then Bool(false)
    else
      var rest := Disjunction(vs[1..]);
      if vs[0] == Bool(true) || rest == Bool(true) then Bool(true)
      else if vs[0] == Bool(false) then rest else Null
  }

  function Product(vs: seq<Value>): Value {
    if vs == [] then Number(1.0)
    else
      var rest := Product(vs[1..]);
      if vs[0].Number? && rest.Number? then Number(vs[0].n * rest.n) else Null
  }

  predicate AllNumbers(vs: seq<Value>) {
    forall v | v in vs :: v.Number?
  }

  /** `floor((x + anchor) / a) * b - anchor + (c / 2.0)`, the grid-cell expression with its three parameters. */
  function GridCell(x: real, anchor: real, a: real, b: real, c: real): Value {
    if a == 0.0 then Null
    else Number((((x + anchor) / a).Floor as real) * b - anchor + c / 2.0)
  }

  function Interpret(g: Engine, fn: Function, vs: seq<Value>): Value {
    match fn
    case Compare(op) => if |vs| == 2 then CompareValues(op, vs[0], vs[1]) else Null
    case Not => if |vs| == 1 then Negation(vs[0]) else Null
    case And => Conjunction(vs)
    case Or => Disjunction(vs)
    case CastVarchar =>
      if |vs| == 1 && !vs[0].Null? then Text(if vs[0].Text? then vs[0].s else g.varchar(vs[0])) else Null
    case Sha256 => if |vs| == 1 && vs[0].Text? then Text(g.sha256(vs[0].s)) else Null
    case Plus => if |vs| == 2 && AllNumbers(vs) then Number(vs[0].n + vs[1].n) else Null
    case Minus => if |vs| == 2 && AllNumbers(vs) then Number(vs[0].n - vs[1].n) else Null
    case Times => Product(vs)
    case Grid(anchor) =>
      if |vs| == 4 && AllNumbers(vs) then GridCell(vs[0].n, anchor, vs[1].n, vs[2].n, vs[3].n) else Null
    case PlanarKm =>
      if |vs| == 5 && AllNumbers(vs) then Number(g.planar(vs[0].n, vs[1].n, vs[2].n, vs[3].n, vs[4].n)) else Null
    case HaversineKm =>
      if |vs| == 4 && AllNumbers(vs) then Number(g.haversine(vs[0].n, vs[1].n, vs[2].n, vs[3].n)) else Null
    case LatitudeGap =>
      if |vs| == 2 && AllNumbers(vs) then
        Number(if vs[0].n >= vs[1].n then vs[0].n - vs[1].n else vs[1].n - vs[0].n)
      else Null
    case DegreesOfKm => if |vs| == 1 && vs[0].Number? then Number(g.degrees(vs[0].n / 6371.0088)) else Null
  }

  function EvalExpr(g: Engine, e: Expr, l: Row, r: Row): Value {
    match e
    case Column(side, name) => Get(if side.LeftRel? then l else r, name)
    case Literal(v) => v
    case Placeholder(_) => Null
    case Apply(fn, args) => Interpret(g, fn, EvalAll(g, args, l, r))
  }

  function EvalAll(g: Engine, es: seq<Expr>, l: Row, r: Row): (vs: seq<Value>)
    ensures |vs| == |es|
  {
    if es == [] then [] else [EvalExpr(g, es[0], l, r)] + EvalAll(g, es[1..], l, r)
  }

  // ----- relational semantics -----

  function WhereRows(g: Engine, e: Expr, rows: seq<Row>): seq<Row> {
    if rows == [] then []
    else (if EvalExpr(g, e, rows[0], map[]) == Bool(true) then [rows[0]] else []) + WhereRows(g, e, rows[1..])
  }

  function ReplaceRow(g: Engine, items: seq<Replacement>, source: Row, row: Row): Row {
    if items == [] then row
    else ReplaceRow(g, items[1..], source, row[items[0].column := EvalExpr(g, items[0].expr, source, map[])])
  }

  function ReplaceRows(g: Engine, items: seq<Replacement>, rows: seq<Row>): seq<Row> {
    if rows == [] then [] else [ReplaceRow(g, items, rows[0], rows[0])] + ReplaceRows(g, items, rows[1..])
  }

  function Narrow(names: seq<string>, row: Row): Row {
    map name | name in names :: Get(row, name)
  }

  function NarrowRows(names: seq<string>, rows: seq<Row>): seq<Row> {
    if rows == [] then [] else [Narrow(names, rows[0])] + NarrowRows(names, rows[1..])
  }

  ghost predicate IsArrangement(order: seq<nat>, n: nat) {
    && |order| == n
    && (forall i | 0 <= i < n :: order[i] < n)
    && (forall i, j | 0 <= i < j < n :: order[i] != order[j])
  }

  function Pick(rows: seq<Row>, order: seq<nat>): seq<Row>
    requires forall i | 0 <= i < |order| :: order[i] < |rows|
  {
    seq(|order|, i requires 0 <= i < |order| => rows[order[i]])
  }

  /** The order the engine chooses for these keys; anything that is not a rearrangement is ignored. */
  ghost function Order(g: Engine, keys: seq<SortKey>, rows: seq<Row>): (order: seq<nat>)
    ensures IsArrangement(order, |rows|)
  {
    var order := g.arrange(keys, rows);
    if IsArrangement(order, |rows|) then order else seq(|rows|, i => i)
  }

  ghost function SortRows(g: Engine, keys: seq<SortKey>, rows: seq<Row>): seq<Row> {
    Pick(rows, Order(g, keys, rows))
  }

  function FirstRows(n: Value, rows: seq<Row>): seq<Row> {
    if !n.Number? || n.n < 0.0 then []
    else if n.n.Floor <= |rows| then rows[..n.n.Floor] else rows
  }

  function MatchRows(g: Engine, on: Expr, l: Row, rights: seq<Row>): seq<Row> {
    if rights == [] then []
    else (if EvalExpr(g, on, l, rights[0]) == Bool(true) then [l + rights[0]] else [])
         + MatchRows(g, on, l, rights[1..])
  }

  function Padding(columns: seq<string>): Row {
    map name | name in columns :: Null
  }

  function JoinRows(g: Engine, outer: bool, on: Expr, lefts: seq<Row>, right: Relation): seq<Row> {
    if lefts == [] then []
    else
      var matched := MatchRows(g, on, lefts[0], right.rows);
      (if outer && matched == [] then [lefts[0] + Padding(right.columns)] else matched)
      + JoinRows(g, outer, on, lefts[1..], right)
  }

  function Arguments(g: Engine, items: seq<AggregateItem>, row: Row): seq<Value> {
    if items == [] then []
    else [EvalExpr(g, items[0].argument, row, map[])] + Arguments(g, items[1..], row)
  }

  function ArgumentRows(g: Engine, items: seq<AggregateItem>, rows: seq<Row>): seq<seq<Value>> {
    if rows == [] then [] else [Arguments(g, items, rows[0])] + ArgumentRows(g, items, rows[1..])
  }

  function SumOf(vs: seq<Value>): real {
    if vs == [] then 0.0 else (if vs[0].Number? then vs[0].n else 0.0) + SumOf(vs[1..])
  }

  function Present(vs: seq<Value>): seq<Value> {
    if vs == [] then [] else (if vs[0].Null? then [] else [vs[0]]) + Present(vs[1..])
  }

  function Extreme(op: CompareOp, vs: seq<Value>): Value {
    if vs == [] then Null
    else
      var rest := Extreme(op, vs[1..]);
      if rest.Null? || CompareValues(op, vs[0], rest) == Bool(true) then vs[0] else rest
  }

  function Summarise(fn: AggregateFunction, vs: seq<Value>): Value {
    var present := Present(vs);
    match fn
    case Count => Number(|vs| as real)
    case Sum => if present == [] then Null else Number(SumOf(present))
    case Avg => if present == [] then Null else Number(SumOf(present) / (|present| as real))
    case Min => Extreme(Lt, present)
    case Max => Extreme(Gt, present)
  }

  function GroupKey(groups: seq<string>, row: Row): seq<Value> {
    seq(|groups|, i requires 0 <= i < |groups| => Get(row, groups[i]))
  }

  function GroupKeys(groups: seq<string>, rows: seq<Row>): seq<seq<Value>> {
    if rows == [] then []
    else
      var keys := GroupKeys(groups, rows[..|rows| - 1]);
      var key := GroupKey(groups, rows[|rows| - 1]);
      if key in keys then keys else keys + [key]
  }

  function Members(groups: seq<string>, key: seq<Value>, rows: seq<Row>, arguments: seq<seq<Value>>, item: nat): seq<Value> {
    if rows == [] || arguments == [] then []
    else
      (if GroupKey(groups, rows[0]) == key && item < |arguments[0]| then [arguments[0][item]] else [])
      + Members(groups, key, rows[1..], arguments[1..], item)
  }

  function Outputs(functions: seq<(AggregateFunction, string)>, groups: seq<string>, key: seq<Value>,
                   rows: seq<Row>, arguments: seq<seq<Value>>, item: nat): Row {
    if functions == [] then map[]
    else
      var (fn, output) := functions[0];
      Outputs(functions[1..], groups, key, rows, arguments, item + 1)
        [output := Summarise(fn, Members(groups, key, rows, arguments, item))]
  }

  function KeyColumns(groups: seq<string>, key: seq<Value>): Row {
    if groups == [] || key == [] then map[] else KeyColumns(groups[1..], key[1..])[groups[0] := key[0]]
  }

  /** One row per group, or a single row over everything when there is no GROUP BY. */
  function GroupRows(functions: seq<(AggregateFunction, string)>, groups: seq<string>,
                     rows: seq<Row>, arguments: seq<seq<Value>>): seq<Row> {
    var keys := if groups == [] then [[]] else GroupKeys(groups, rows);
    seq(|keys|, k requires 0 <= k < |keys| =>
      KeyColumns(groups, keys[k]) + Outputs(functions, groups, keys[k], rows, arguments, 0))
  }

  function Signatures(items: seq<AggregateItem>): seq<(AggregateFunction, string)> {
    if items == [] then [] else [(items[0].fn, items[0].output)] + Signatures(items[1..])
  }

  function OutputNames(functions: seq<(AggregateFunction, string)>): seq<string> {
    if functions == [] then [] else [functions[0].1] + OutputNames(functions[1..])
  }

  ghost function RunSuffix(g: Engine, suffix: Suffix, rows: seq<Row>): seq<Row> {
    match suffix
    case NoSuffix => rows
    case Where(condition) => WhereRows(g, condition, rows)
    case OrderBy(keys) => SortRows(g, keys, rows)
    case LimitTo(count) => FirstRows(EvalExpr(g, count, map[], map[]), rows)
  }

  ghost function RunList(g: Engine, list: SelectList, input: Relation): Relation {
    match list
    case Star => input
    case Columns(names) => Relation(names, NarrowRows(names, input.rows))
    case Replace(items) => Relation(input.columns, ReplaceRows(g, items, input.rows))
    case Aggregates(groups, items) =>
      Relation(groups + OutputNames(Signatures(items)),
               GroupRows(Signatures(items), groups, input.rows, ArgumentRows(g, items, input.rows)))
  }

  /** Runs a statement; a WITH name shadows a table of that name inside its body only. */
  ghost function Exec(g: Engine, db: Database, q: Query): Relation
    decreases q
  {
    match q
    case Base(table) => if table in db then db[table] else Relation([], [])
    case Select(list, from, suffix) =>
      var input := Exec(g, db, from);
      RunList(g, list, Relation(input.columns, RunSuffix(g, suffix, input.rows)))
    case JoinOn(leftOuter, left, right, on) =>
      var l := Exec(g, db, left);
      var r := Exec(g, db, right);
      Relation(l.columns + r.columns, JoinRows(g, leftOuter, on, l.rows, r))
    case With(name, definition, body) =>
      Exec(g, db[name := Exec(g, db, definition)], body)
  }
}
