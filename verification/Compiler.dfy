/** The plan compiler: one nested parameterised statement per plan, one fragment per operator. */
module Compiler {
  import opened Wrappers
  import opened Sql
  import opened Plan

  datatype CompileError =
    | UnknownDataset | NoTableBinding | NoScanAncestor | NoSpatialMetadata
    | MaskFieldMissing | HashNeedsString | NotACoordinatePair | UnsupportedSpatialJoin
    | RecordLineageUnavailable | NotExecutable | OutputMissing

  datatype Fragment = Fragment(sql: Query, parameters: seq<Slot>)

  type Compiled = Result<Fragment, CompileError>

  /** `corrected` selects the variant that pushes the parameters of a Mask or GeneralizeLocation before its
      input's, and looks for the unique scan among all scans; otherwise the compiler is as written. */
  datatype Config = Config(
    catalog: Catalog, bindings: map<string, string>, materializeAfter: Option<string>, corrected: bool)

  // ----- the scan a SpatialFilter takes its coordinate pair from -----

  datatype ScanRef = ScanRef(id: string, dataset: string)

  /** As written: inputs without a unique scan are dropped before the remaining ones are counted. */
  function Ancestor(t: Tree): Option<ScanRef> {
    match t
    case Scan(id, dataset) => Some(ScanRef(id, dataset))
    case Unary(_, _, input) => Ancestor(input)
    case Binary(_, _, left, right) =>
      var l, r := Ancestor(left), Ancestor(right);
      if l.None? then r
      else if r.None? then l
      else if l.value.id == r.value.id then r
      else None
  }

  /** An ambiguous input is dropped beside one that is not, or the one scan found below was found that way. */
  predicate Drops(t: Tree) {
    match t
    case Scan(_, _) => false
    case Unary(_, _, input) => Drops(input)
    case Binary(_, _, left, right) =>
      var l, r := Ancestor(left), Ancestor(right);
      || l.Some? != r.Some?
      || (l.Some? && r.Some? && l.value.id == r.value.id && (Drops(left) || Drops(right)))
  }

  ghost function FilterScan(cfg: Config, input: Tree): Option<string> {
    if cfg.corrected then UniqueScan(input)
    else
      var found := Ancestor(input);
      if found.Some? then Some(found.value.dataset) else None
  }

  // ----- expression templates and the parameters pushed for them -----

  function CompareExpr(owner: string, c: Comparison): Expr {
    var e := Apply(Compare(c.op), [Column(LeftRel, c.field), Placeholder(Slot(owner, c.literal))]);
    if c.negated then Apply(Not, [e]) else e
  }

  function CompareExprs(owner: string, cs: seq<Comparison>): seq<Expr> {
    if cs == [] then [] else [CompareExpr(owner, cs[0])] + CompareExprs(owner, cs[1..])
  }

  function FilterExpr(owner: string, p: Predicate): Expr {
    match p
    case One(c) => CompareExpr(owner, c)
    case Flat(isAnd, operands, negated) =>
      var e := Apply(if isAnd then And else Or, CompareExprs(owner, operands));
      if negated then Apply(Not, [e]) else e
  }

  function ComparisonParameters(owner: string, cs: seq<Comparison>): seq<Slot> {
    if cs == [] then [] else [Slot(owner, cs[0].literal)] + ComparisonParameters(owner, cs[1..])
  }

  function FilterParameters(owner: string, p: Predicate): seq<Slot> {
    match p
    case One(c) => [Slot(owner, c.literal)]
    case Flat(_, operands, _) => ComparisonParameters(owner, operands)
  }

  function FactorExprs(owner: string, fs: seq<Factor>): seq<Expr> {
    if fs == [] then []
    else
      var column := Column(LeftRel, fs[0].name);
      [match fs[0]
       case Field(_) => column
       case Affine(c, add, _) => Apply(if add then Plus else Minus, [Placeholder(Slot(owner, c)), column])]
      + FactorExprs(owner, fs[1..])
  }

  function FactorParameters(owner: string, fs: seq<Factor>): seq<Slot> {
    if fs == [] then []
    else (if fs[0].Affine? then [Slot(owner, fs[0].constant)] else []) + FactorParameters(owner, fs[1..])
  }

  function AggregateArgument(owner: string, a: Aggregation): Expr {
    if a.fn.Count? then Literal(Null)
    else match a.input
      case AllRows => Literal(Null)
      case Of(name) => Column(LeftRel, name)
      case Formula(factors) => Apply(Times, FactorExprs(owner, factors))
  }

  function AggregateItems(owner: string, aggregates: seq<Aggregation>): seq<AggregateItem> {
    if aggregates == [] then []
    else
      [AggregateItem(aggregates[0].fn, AggregateArgument(owner, aggregates[0]), aggregates[0].output)]
      + AggregateItems(owner, aggregates[1..])
  }

  function ArgumentParameters(owner: string, a: Aggregation): seq<Slot> {
    if !a.fn.Count? && a.input.Formula? then FactorParameters(owner, a.input.factors) else []
  }

  function AggregateParameters(owner: string, aggregates: seq<Aggregation>): seq<Slot> {
    if aggregates == [] then []
    else ArgumentParameters(owner, aggregates[0]) + AggregateParameters(owner, aggregates[1..])
  }

  function Redacted(): Value {
    Text("[REDACTED]")
  }

  function MaskExpr(owner: string, how: MaskMethod, field: string): Expr {
    match how
    case Redact => Apply(CastVarchar, [Placeholder(Slot(owner, Redacted()))])
    case Hash => Apply(Sha256, [Column(LeftRel, field)])
    case Nullify => Literal(Null)
  }

  function MaskItems(owner: string, how: MaskMethod, fields: seq<string>): seq<Replacement> {
    if fields == [] then []
    else [Replacement(MaskExpr(owner, how, fields[0]), fields[0])] + MaskItems(owner, how, fields[1..])
  }

  function MaskParameters(owner: string, how: MaskMethod, fields: seq<string>): seq<Slot> {
    if fields == [] || !how.Redact? then []
    else [Slot(owner, Redacted())] + MaskParameters(owner, how, fields[1..])
  }

  function MaskProblem(schema: Schema, how: MaskMethod, fields: seq<string>): Option<CompileError> {
    if fields == [] then None
    else
      var field := FindField(schema.fields, fields[0]);
      if field.None? then Some(MaskFieldMissing)
      else if how.Hash? && !field.value.isString then Some(HashNeedsString)
      else MaskProblem(schema, how, fields[1..])
  }

  function GridItem(owner: string, step: Value, field: string, anchor: real): Replacement {
    var p := Placeholder(Slot(owner, step));
    Replacement(Apply(Grid(anchor), [Column(LeftRel, field), p, p, p]), field)
  }

  // ----- one operator over its compiled input -----

  /** What a unary operator adds around its input, and the parameters it pushes for that. */
  datatype Template = Template(list: SelectList, suffix: Suffix, pushed: seq<Slot>)

  function UnaryTemplate(catalog: Catalog, owner: string, kind: Kind, schema: Schema, scan: Option<string>)
    : Result<Template, CompileError>
  {
    match kind
    case Project(fields) => Ok(Template(Columns(fields), NoSuffix, []))
    case Sort(keys) => Ok(Template(Star, OrderBy(keys), []))
    case Limit(n) =>
      var count := Slot(owner, Number(n as real));
      Ok(Template(Star, LimitTo(Placeholder(count)), [count]))
    case Filter(p) => Ok(Template(Star, Where(FilterExpr(owner, p)), FilterParameters(owner, p)))
    case TemporalFilter(field, start, end) =>
      var column := Column(LeftRel, field);
      var from, until := Slot(owner, Instant(start)), Slot(owner, Instant(end));
      Ok(Template(Star,
                  Where(Apply(And, [Apply(Compare(Ge), [column, Placeholder(from)]),
                                    Apply(Compare(Lt), [column, Placeholder(until)])])),
                  [from, until]))
    case SpatialFilter(latitude, longitude, radiusKm) =>
      if scan.None? then Error(NoScanAncestor)
      else if scan.value !in catalog || catalog[scan.value].spatial.None? then Error(NoSpatialMetadata)
      else
        var pair := catalog[scan.value].spatial.value;
        var lat, lon, radius := Slot(owner, Number(latitude)), Slot(owner, Number(longitude)), Slot(owner, Number(radiusKm));
        Ok(Template(Star,
                    Where(Apply(Compare(Le),
                                [Apply(PlanarKm, [Column(LeftRel, pair.latitude), Placeholder(lat),
                                                  Column(LeftRel, pair.longitude), Placeholder(lon), Placeholder(lat)]),
                                 Placeholder(radius)])),
                    [lat, lon, lat, radius]))
    case Aggregate(groupBy, aggregates) =>
      Ok(Template(Aggregates(groupBy, AggregateItems(owner, aggregates)), NoSuffix, AggregateParameters(owner, aggregates)))
    case Mask(masked, how) =>
      var problem := MaskProblem(schema, how, masked);
      if problem.Some? then Error(problem.value)
      else Ok(Template(Replace(MaskItems(owner, how, masked)), NoSuffix, MaskParameters(owner, how, masked)))
    case GeneralizeLocation(coordinates, precisionKm) =>
      var pair := GridPair(schema, coordinates);
      if pair.None? then Error(NotACoordinatePair)
      else
        var step := Number(GridStep(precisionKm));
        var slot := Slot(owner, step);
        Ok(Template(Replace([GridItem(owner, step, pair.value.latitude, 90.0),
                             GridItem(owner, step, pair.value.longitude, 180.0)]),
                    NoSuffix, [slot, slot, slot, slot, slot, slot]))
    case _ => Error(NotExecutable)
  }

  /** Whether the operator's own parameters go before its input's. */
  predicate PushesFirst(cfg: Config, kind: Kind) {
    kind.Aggregate? || (cfg.corrected && (kind.Mask? || kind.GeneralizeLocation?))
  }

  function BoundaryName(): string {
    "trustaero_boundary"
  }

  /** The explicit storage boundary placed after one operator. */
  function Boundary(cfg: Config, id: string, f: Fragment): Fragment {
    if cfg.materializeAfter == Some(id) then Fragment(With(BoundaryName(), f.sql, Base(BoundaryName())), f.parameters) else f
  }

  function BinaryOn(kind: Kind, owner: string): (on: Result<(Expr, seq<Slot>), CompileError>) {
    match kind
    case Join(leftField, rightField, _) =>
      Ok((Apply(Compare(Eq), [Column(LeftRel, leftField), Column(RightRel, rightField)]), []))
    case SpatialJoin(distanceWithin, leftLatitude, leftLongitude, rightLatitude, rightLongitude, distanceKm) =>
      if !distanceWithin || distanceKm.None? then Error(UnsupportedSpatialJoin)
      else
        var km := Slot(owner, Number(distanceKm.value));
        var a, b := Column(RightRel, rightLatitude), Column(LeftRel, leftLatitude);
        var c, d := Column(RightRel, rightLongitude), Column(LeftRel, leftLongitude);
        Ok((Apply(And, [Apply(Compare(Le), [Apply(LatitudeGap, [a, b]), Apply(DegreesOfKm, [Placeholder(km)])]),
                        Apply(Compare(Le), [Apply(HaversineKm, [a, b, c, d]), Placeholder(km)])]),
            [km, km]))
    case _ => Error(NotExecutable)
  }

  /** `schema` and `scan` describe the operator's input. */
  function CompileUnary(cfg: Config, id: string, kind: Kind, schema: Schema, scan: Option<string>, input: Fragment): Compiled
  {
    if kind.LineageCapture? then
      if kind.sourceLevel then Ok(input) else Error(RecordLineageUnavailable)
    else
      var template := UnaryTemplate(cfg.catalog, id, kind, schema, scan);
      if template.Error? then Error(template.error)
      else
        var Template(list, suffix, pushed) := template.value;
        Ok(Fragment(Select(list, input.sql, suffix),
                    if PushesFirst(cfg, kind) then pushed + input.parameters else input.parameters + pushed))
  }

  function CompileBinary(kind: Kind, owner: string, left: Fragment, right: Fragment): Compiled {
    var on := BinaryOn(kind, owner);
    if on.Error? then Error(on.error)
    else
      Ok(Fragment(JoinOn(kind.Join? && kind.leftOuter, left.sql, right.sql, on.value.0),
                  left.parameters + right.parameters + on.value.1))
  }

  function CompileScan(cfg: Config, dataset: string): Compiled {
    if dataset !in cfg.catalog then Error(UnknownDataset)
    else if dataset !in cfg.bindings then Error(NoTableBinding)
    else Ok(Fragment(Base(cfg.bindings[dataset]), []))
  }

  function Bounded(cfg: Config, id: string, c: Compiled): Compiled {
    if c.Error? then c else Ok(Boundary(cfg, id, c.value))
  }

  /** What is refused before the input is compiled. */
  function RefusedFirst(kind: Kind, scan: Option<string>): Option<CompileError> {
    match kind
    case SpatialFilter(_, _, _) => if scan.None? then Some(NoScanAncestor) else None
    case LineageCapture(sourceLevel) => if sourceLevel then None else Some(RecordLineageUnavailable)
    case MinGroupSize(_) => Some(NotExecutable)
    case _ => None
  }

  /** Plain recursion over the unfolded plan. */
  ghost function Compile(cfg: Config, t: Tree): Compiled {
    match t
    case Scan(id, dataset) => Bounded(cfg, id, CompileScan(cfg, dataset))
    case Unary(id, kind, input) =>
      var refused := RefusedFirst(kind, FilterScan(cfg, input));
      if refused.Some? then Error(refused.value)
      else
        var below := Compile(cfg, input);
        if below.Error? then below
        else Bounded(cfg, id, CompileUnary(cfg, id, kind, SchemaOf(cfg.catalog, input), FilterScan(cfg, input), below.value))
    case Binary(id, kind, left, right) =>
      var l := Compile(cfg, left);
      if l.Error? then l
      else
        var r := Compile(cfg, right);
        if r.Error? then r else Bounded(cfg, id, CompileBinary(kind, id, l.value, r.value))
  }
}
