/** Renaming the operators of a plan and shuffling its list: the compiled text and values do not change. */
module PlanRenaming {
  import opened Wrappers
  import opened Sql
  import opened SqlBinding
  import opened Plan
  import opened Compiler
  import opened ParameterOrder
  import opened Shuffling
  import opened Numerals

  type Renaming = map<string, string>

  ghost predicate Injective(m: Renaming) {
    forall a, b | a in m && b in m && m[a] == m[b] :: a == b
  }

  function RenameId(m: Renaming, id: string): string {
    if id in m then m[id] else id
  }

  function RenameTree(m: Renaming, t: Tree): Tree {
    match t
    case Scan(id, dataset) => Scan(RenameId(m, id), dataset)
    case Unary(id, kind, input) => Unary(RenameId(m, id), kind, RenameTree(m, input))
    case Binary(id, kind, left, right) => Binary(RenameId(m, id), kind, RenameTree(m, left), RenameTree(m, right))
  }

  // ----- what the compiler looks at does not depend on names -----

  lemma {:induction false} SchemaRenamed(catalog: Catalog, m: Renaming, t: Tree)
    ensures SchemaOf(catalog, RenameTree(m, t)) == SchemaOf(catalog, t)
  {
    match t
    case Scan(_, _) =>
    case Unary(_, _, input) => SchemaRenamed(catalog, m, input);
    case Binary(_, _, left, right) =>
      SchemaRenamed(catalog, m, left);
      SchemaRenamed(catalog, m, right);
  }

  lemma {:induction false} AncestorRenamed(m: Renaming, t: Tree)
    requires Injective(m) && Ids(t) <= m.Keys
    ensures Ancestor(t).Some? ==> Ancestor(t).value.id in Ids(t)
    ensures Ancestor(RenameTree(m, t))
            == if Ancestor(t).Some? then Some(ScanRef(m[Ancestor(t).value.id], Ancestor(t).value.dataset)) else None
  {
    match t
    case Scan(_, _) =>
    case Unary(_, _, input) => AncestorRenamed(m, input);
    case Binary(_, _, left, right) =>
      AncestorRenamed(m, left);
      AncestorRenamed(m, right);
  }

  // ----- templates print alike whoever owns them -----

  ghost predicate SameSlots(a: seq<Slot>, b: seq<Slot>) {
    Values(a) == Values(b)
  }

  lemma SameSlotsConcat(a: seq<Slot>, a': seq<Slot>, b: seq<Slot>, b': seq<Slot>)
    requires SameSlots(a, a') && SameSlots(b, b')
    ensures SameSlots(a + b, a' + b')
  {
    ValuesConcat(a, b);
    ValuesConcat(a', b');
  }

  lemma ValuesConcat(a: seq<Slot>, b: seq<Slot>)
    ensures Values(a + b) == Values(a) + Values(b)
  {}

  lemma CompareOwner(o: string, p: string, c: Comparison)
    ensures Render(CompareExpr(o, c)) == Render(CompareExpr(p, c))
  {
    RenderTwo(Compare(c.op), Column(LeftRel, c.field), Placeholder(Slot(o, c.literal)), Placeholder(Slot(p, c.literal)));
    var a := Apply(Compare(c.op), [Column(LeftRel, c.field), Placeholder(Slot(o, c.literal))]);
    var b := Apply(Compare(c.op), [Column(LeftRel, c.field), Placeholder(Slot(p, c.literal))]);
    RenderOne(Not, a, b);
  }

  lemma RenderOne(fn: Function, a: Expr, b: Expr)
    requires Render(a) == Render(b)
    ensures Render(Apply(fn, [a])) == Render(Apply(fn, [b]))
  {
    assert [a][1..] == [] && [b][1..] == [];
  }

  lemma RenderTwo(fn: Function, x: Expr, a: Expr, b: Expr)
    requires Render(a) == Render(b)
    ensures Render(Apply(fn, [x, a])) == Render(Apply(fn, [x, b]))
  {
    assert [x, a][1..] == [a] && [x, b][1..] == [b] && [a][1..] == [] && [b][1..] == [];
    assert RenderArgs(fn, [a], 1) == RenderArgs(fn, [b], 1);
  }

  /** Argument lists that print alike one by one print alike together. */
  lemma {:induction false} RenderAlike(fn: Function, a: seq<Expr>, b: seq<Expr>, k: nat)
    requires |a| == |b| && forall i | 0 <= i < |a| :: Render(a[i]) == Render(b[i])
    ensures RenderArgs(fn, a, k) == RenderArgs(fn, b, k)
  {
    if a != [] { RenderAlike(fn, a[1..], b[1..], k + 1); }
  }

  lemma {:induction false} ComparisonsOwner(o: string, p: string, cs: seq<Comparison>)
    ensures |CompareExprs(o, cs)| == |CompareExprs(p, cs)|
    ensures forall i | 0 <= i < |CompareExprs(o, cs)| :: Render(CompareExprs(o, cs)[i]) == Render(CompareExprs(p, cs)[i])
    ensures SameSlots(ComparisonParameters(o, cs), ComparisonParameters(p, cs))
  {
    if cs != [] {
      ComparisonsOwner(o, p, cs[1..]);
      CompareOwner(o, p, cs[0]);
      SameSlotsConcat([Slot(o, cs[0].literal)], [Slot(p, cs[0].literal)], ComparisonParameters(o, cs[1..]), ComparisonParameters(p, cs[1..]));
    }
  }

  lemma FilterOwner(o: string, p: string, condition: Predicate)
    ensures Render(FilterExpr(o, condition)) == Render(FilterExpr(p, condition))
    ensures SameSlots(FilterParameters(o, condition), FilterParameters(p, condition))
  {
    match condition
    case One(c) => CompareOwner(o, p, c);
    case Flat(isAnd, operands, negated) =>
      ComparisonsOwner(o, p, operands);
      var fn := if isAnd then And else Or;
      RenderAlike(fn, CompareExprs(o, operands), CompareExprs(p, operands), 0);
      RenderOne(Not, Apply(fn, CompareExprs(o, operands)), Apply(fn, CompareExprs(p, operands)));
  }

  lemma {:induction false} FactorsOwner(o: string, p: string, fs: seq<Factor>)
    ensures |FactorExprs(o, fs)| == |FactorExprs(p, fs)|
    ensures forall i | 0 <= i < |FactorExprs(o, fs)| :: Render(FactorExprs(o, fs)[i]) == Render(FactorExprs(p, fs)[i])
    ensures SameSlots(FactorParameters(o, fs), FactorParameters(p, fs))
  {
    if fs != [] {
      FactorsOwner(o, p, fs[1..]);
      var f, column := fs[0], Column(LeftRel, fs[0].name);
      var a := if f.Affine? then [Slot(o, f.constant)] else [];
      var b := if f.Affine? then [Slot(p, f.constant)] else [];
      SameSlotsConcat(a, b, FactorParameters(o, fs[1..]), FactorParameters(p, fs[1..]));
      if f.Affine? {
        RenderAlike(if f.add then Plus else Minus, [Placeholder(Slot(o, f.constant)), column], [Placeholder(Slot(p, f.constant)), column], 0);
      }
    }
  }

  lemma {:induction false} AggregatesOwner(o: string, p: string, aggregates: seq<Aggregation>)
    ensures RenderAggregates(AggregateItems(o, aggregates)) == RenderAggregates(AggregateItems(p, aggregates))
    ensures SameSlots(AggregateParameters(o, aggregates), AggregateParameters(p, aggregates))
  {
    if aggregates != [] {
      AggregatesOwner(o, p, aggregates[1..]);
      ArgumentOwner(o, p, aggregates[0]);
      hide AggregateArgument, ArgumentParameters, SameSlots;
      SameSlotsConcat(ArgumentParameters(o, aggregates[0]), ArgumentParameters(p, aggregates[0]),
                      AggregateParameters(o, aggregates[1..]), AggregateParameters(p, aggregates[1..]));
      assert AggregateItems(o, aggregates)[1..] == AggregateItems(o, aggregates[1..]);
      assert AggregateItems(p, aggregates)[1..] == AggregateItems(p, aggregates[1..]);
    }
  }

  lemma ArgumentOwner(o: string, p: string, a: Aggregation)
    ensures Render(AggregateArgument(o, a)) == Render(AggregateArgument(p, a))
    ensures SameSlots(ArgumentParameters(o, a), ArgumentParameters(p, a))
  {
    if a.input.Formula? {
      FactorsOwner(o, p, a.input.factors);
      RenderAlike(Times, FactorExprs(o, a.input.factors), FactorExprs(p, a.input.factors), 0);
    }
  }

  lemma {:induction false} MaskOwner(o: string, p: string, how: MaskMethod, fields: seq<string>)
    ensures RenderReplacements(MaskItems(o, how, fields)) == RenderReplacements(MaskItems(p, how, fields))
    ensures SameSlots(MaskParameters(o, how, fields), MaskParameters(p, how, fields))
  {
    if fields != [] {
      MaskOwner(o, p, how, fields[1..]);
      RenderOne(CastVarchar, Placeholder(Slot(o, Redacted())), Placeholder(Slot(p, Redacted())));
      SameSlotsConcat([Slot(o, Redacted())], [Slot(p, Redacted())], MaskParameters(o, how, fields[1..]), MaskParameters(p, how, fields[1..]));
      assert MaskItems(o, how, fields)[1..] == MaskItems(o, how, fields[1..]);
      assert MaskItems(p, how, fields)[1..] == MaskItems(p, how, fields[1..]);
    }
  }

  lemma GridOwner(o: string, p: string, step: Value, a: string, b: string)
    ensures RenderReplacements([GridItem(o, step, a, 90.0), GridItem(o, step, b, 180.0)])
            == RenderReplacements([GridItem(p, step, a, 90.0), GridItem(p, step, b, 180.0)])
  {
    var x, y := Placeholder(Slot(o, step)), Placeholder(Slot(p, step));
    RenderAlike(Grid(90.0), [Column(LeftRel, a), x, x, x], [Column(LeftRel, a), y, y, y], 0);
    RenderAlike(Grid(180.0), [Column(LeftRel, b), x, x, x], [Column(LeftRel, b), y, y, y], 0);
    var i, j := GridItem(o, step, b, 180.0), GridItem(p, step, b, 180.0);
    assert [GridItem(o, step, a, 90.0), i][1..] == [i] && [GridItem(p, step, a, 90.0), j][1..] == [j];
    assert [i][1..] == [] && [j][1..] == [];
    assert RenderReplacements([i]) == RenderReplacements([j]);
  }

  lemma SpatialFilterOwner(a: Expr, b: Expr, lat: Slot, lon: Slot, radius: Slot, lat': Slot, lon': Slot, radius': Slot)
    ensures Render(Apply(Compare(Le), [Apply(PlanarKm, [a, Placeholder(lat), b, Placeholder(lon), Placeholder(lat)]), Placeholder(radius)]))
            == Render(Apply(Compare(Le), [Apply(PlanarKm, [a, Placeholder(lat'), b, Placeholder(lon'), Placeholder(lat')]), Placeholder(radius')]))
  {
    var x := [a, Placeholder(lat), b, Placeholder(lon), Placeholder(lat)];
    var y := [a, Placeholder(lat'), b, Placeholder(lon'), Placeholder(lat')];
    RenderAlike(PlanarKm, x, y, 0);
    RenderAlike(Compare(Le), [Apply(PlanarKm, x), Placeholder(radius)], [Apply(PlanarKm, y), Placeholder(radius')], 0);
  }

  lemma TemporalOwner(column: Expr, from: Slot, until: Slot, from': Slot, until': Slot)
    ensures Render(Apply(And, [Apply(Compare(Ge), [column, Placeholder(from)]), Apply(Compare(Lt), [column, Placeholder(until)])]))
            == Render(Apply(And, [Apply(Compare(Ge), [column, Placeholder(from')]), Apply(Compare(Lt), [column, Placeholder(until')])]))
  {
    RenderTwo(Compare(Ge), column, Placeholder(from), Placeholder(from'));
    RenderTwo(Compare(Lt), column, Placeholder(until), Placeholder(until'));
    RenderAlike(And, [Apply(Compare(Ge), [column, Placeholder(from)]), Apply(Compare(Lt), [column, Placeholder(until)])],
                [Apply(Compare(Ge), [column, Placeholder(from')]), Apply(Compare(Lt), [column, Placeholder(until')])], 0);
  }

  ghost predicate SameTemplate(a: Result<Template, CompileError>, b: Result<Template, CompileError>) {
    if a.Error? then a == b
    else
      && b.Ok? && RenderList(a.value.list) == RenderList(b.value.list)
      && RenderSuffix(a.value.list, a.value.suffix) == RenderSuffix(b.value.list, b.value.suffix)
      && SameSlots(a.value.pushed, b.value.pushed)
  }

  lemma TemplateOwner(catalog: Catalog, o: string, p: string, kind: Kind, schema: Schema, scan: Option<string>)
    ensures SameTemplate(UnaryTemplate(catalog, o, kind, schema, scan), UnaryTemplate(catalog, p, kind, schema, scan))
  {
    hide FilterExpr, FilterParameters, AggregateItems, AggregateParameters, MaskItems, MaskParameters, GridItem, Render, GridPair, MaskProblem;
    match kind
    case Filter(condition) => FilterOwner(o, p, condition);
    case TemporalFilter(field, start, end) =>
      TemporalOwner(Column(LeftRel, field), Slot(o, Instant(start)), Slot(o, Instant(end)), Slot(p, Instant(start)), Slot(p, Instant(end)));
    case SpatialFilter(latitude, longitude, radiusKm) =>
      if UnaryTemplate(catalog, o, kind, schema, scan).Ok? {
        var pair := catalog[scan.value].spatial.value;
        SpatialFilterOwner(Column(LeftRel, pair.latitude), Column(LeftRel, pair.longitude),
                           Slot(o, Number(latitude)), Slot(o, Number(longitude)), Slot(o, Number(radiusKm)),
                           Slot(p, Number(latitude)), Slot(p, Number(longitude)), Slot(p, Number(radiusKm)));
      }
    case Limit(n) => LimitOwner(Slot(o, Number(n as real)), Slot(p, Number(n as real)));
    case Aggregate(_, aggregates) => AggregatesOwner(o, p, aggregates);
    case Mask(masked, how) => MaskOwner(o, p, how, masked);
    case GeneralizeLocation(coordinates, precisionKm) =>
      if GridPair(schema, coordinates).Some? {
        var pair := GridPair(schema, coordinates).value;
        GridOwner(o, p, Number(GridStep(precisionKm)), pair.latitude, pair.longitude);
      }
    case _ =>
  }

  lemma LimitOwner(a: Slot, b: Slot)
    ensures Render(Placeholder(a)) == Render(Placeholder(b))
  {}

  lemma JoinOwner(kind: Kind, o: string, p: string)
    ensures BinaryOn(kind, o).Error? ==> BinaryOn(kind, p) == BinaryOn(kind, o)
    ensures BinaryOn(kind, o).Ok? ==>
              && BinaryOn(kind, p).Ok? && Render(BinaryOn(kind, o).value.0) == Render(BinaryOn(kind, p).value.0)
              && SameSlots(BinaryOn(kind, o).value.1, BinaryOn(kind, p).value.1)
  {
    if kind.SpatialJoin? && kind.distanceWithin && kind.distanceKm.Some? {
      var x, y := Placeholder(Slot(o, Number(kind.distanceKm.value))), Placeholder(Slot(p, Number(kind.distanceKm.value)));
      var a, b := Column(RightRel, kind.rightLatitude), Column(LeftRel, kind.leftLatitude);
      var c, d := Column(RightRel, kind.rightLongitude), Column(LeftRel, kind.leftLongitude);
      var gap, far := Apply(LatitudeGap, [a, b]), Apply(HaversineKm, [a, b, c, d]);
      RenderOne(DegreesOfKm, x, y);
      RenderTwo(Compare(Le), gap, Apply(DegreesOfKm, [x]), Apply(DegreesOfKm, [y]));
      RenderTwo(Compare(Le), far, x, y);
      RenderAlike(And, [Apply(Compare(Le), [gap, Apply(DegreesOfKm, [x])]), Apply(Compare(Le), [far, x])],
                  [Apply(Compare(Le), [gap, Apply(DegreesOfKm, [y])]), Apply(Compare(Le), [far, y])], 0);
    }
  }

  // ----- the whole tree -----

  /** Same error, or the same text and the same parameter values. */
  ghost predicate SameOutput(a: Compiled, b: Compiled) {
    if a.Error? then a == b
    else b.Ok? && RenderQuery(a.value.sql) == RenderQuery(b.value.sql) && SameSlots(a.value.parameters, b.value.parameters)
  }

  function RenameConfig(m: Renaming, cfg: Config): Config {
    cfg.(materializeAfter := if cfg.materializeAfter.Some? then Some(RenameId(m, cfg.materializeAfter.value)) else None)
  }

  lemma BoundaryRenamed(m: Renaming, cfg: Config, id: string, a: Compiled, b: Compiled)
    requires Injective(m) && id in m && (cfg.materializeAfter.Some? ==> cfg.materializeAfter.value in m)
    requires SameOutput(a, b)
    ensures SameOutput(Bounded(cfg, id, a), Bounded(RenameConfig(m, cfg), m[id], b))
  {
    hide BoundaryName, SameSlots;
  }

  lemma UnaryRenamed(cfg: Config, cfg': Config, o: string, p: string, kind: Kind, schema: Schema, scan: Option<string>, a: Fragment, b: Fragment)
    requires cfg'.catalog == cfg.catalog && cfg'.corrected == cfg.corrected
    requires SameOutput(Ok(a), Ok(b))
    ensures SameOutput(CompileUnary(cfg, o, kind, schema, scan, a), CompileUnary(cfg', p, kind, schema, scan, b))
  {
    hide UnaryTemplate, RenderList, RenderSuffix, SameSlots;
    TemplateOwner(cfg.catalog, o, p, kind, schema, scan);
    var t, u := UnaryTemplate(cfg.catalog, o, kind, schema, scan), UnaryTemplate(cfg.catalog, p, kind, schema, scan);
    if t.Ok? {
      SameSlotsConcat(t.value.pushed, u.value.pushed, a.parameters, b.parameters);
      SameSlotsConcat(a.parameters, b.parameters, t.value.pushed, u.value.pushed);
    }
  }

  lemma BinaryRenamed(kind: Kind, o: string, p: string, l: Fragment, l': Fragment, r: Fragment, r': Fragment)
    requires SameOutput(Ok(l), Ok(l')) && SameOutput(Ok(r), Ok(r'))
    ensures SameOutput(CompileBinary(kind, o, l, r), CompileBinary(kind, p, l', r'))
  {
    hide BinaryOn, Render, SameSlots;
    JoinOwner(kind, o, p);
    if BinaryOn(kind, o).Ok? {
      var x, y := BinaryOn(kind, o).value.1, BinaryOn(kind, p).value.1;
      SameSlotsConcat(l.parameters, l'.parameters, r.parameters, r'.parameters);
      SameSlotsConcat(l.parameters + r.parameters, l'.parameters + r'.parameters, x, y);
    }
  }

  lemma SameScan(cfg: Config, cfg': Config, dataset: string)
    requires cfg'.catalog == cfg.catalog && cfg'.bindings == cfg.bindings
    ensures SameOutput(CompileScan(cfg, dataset), CompileScan(cfg', dataset))
  {}

  /** An injective renaming of the operators leaves the statement text and the parameter values alone. */
  lemma {:induction false} RenamedCompilesSame(m: Renaming, cfg: Config, t: Tree)
    requires Injective(m) && Ids(t) <= m.Keys && !cfg.corrected
    requires cfg.materializeAfter.Some? ==> cfg.materializeAfter.value in m
    ensures SameOutput(Compile(cfg, t), Compile(RenameConfig(m, cfg), RenameTree(m, t)))
  {
    var cfg' := RenameConfig(m, cfg);
    hide CompileUnary, CompileBinary, Bounded, SchemaOf, Ancestor, SameSlots, RenderQuery;
    match t
    case Scan(id, dataset) =>
      SameScan(cfg, cfg', dataset);
      BoundaryRenamed(m, cfg, id, CompileScan(cfg, dataset), CompileScan(cfg', dataset));
    case Unary(id, kind, input) =>
      RenamedCompilesSame(m, cfg, input);
      SchemaRenamed(cfg.catalog, m, input);
      AncestorRenamed(m, input);
      var a, b := Compile(cfg, input), Compile(cfg', RenameTree(m, input));
      if a.Ok? {
        var schema, scan := SchemaOf(cfg.catalog, input), FilterScan(cfg, input);
        UnaryRenamed(cfg, cfg', id, m[id], kind, schema, scan, a.value, b.value);
        BoundaryRenamed(m, cfg, id, CompileUnary(cfg, id, kind, schema, scan, a.value), CompileUnary(cfg', m[id], kind, schema, scan, b.value));
      }
    case Binary(id, kind, left, right) =>
      RenamedCompilesSame(m, cfg, left);
      RenamedCompilesSame(m, cfg, right);
      var l, l' := Compile(cfg, left), Compile(cfg', RenameTree(m, left));
      var r, r' := Compile(cfg, right), Compile(cfg', RenameTree(m, right));
      if l.Ok? && r.Ok? {
        BinaryRenamed(kind, id, m[id], l.value, l'.value, r.value, r'.value);
        BoundaryRenamed(m, cfg, id, CompileBinary(kind, id, l.value, r.value), CompileBinary(kind, m[id], l'.value, r'.value));
      }
  }

  // ----- operator lists -----

  datatype Named = Named(id: string, operator: Operator)

  ghost predicate DistinctIds(ops: seq<Named>) {
    forall i, j | 0 <= i < j < |ops| :: ops[i].id != ops[j].id
  }

  /** `{operator.operator_id: operator for operator in plan.operators}` */
  function ByIds(ops: seq<Named>): Graph {
    if ops == [] then map[] else ByIds(ops[..|ops| - 1])[ops[|ops| - 1].id := ops[|ops| - 1].operator]
  }

  lemma {:induction false} ByIdsHolds(ops: seq<Named>)
    requires DistinctIds(ops)
    ensures forall id :: id in ByIds(ops) <==> exists n | n in ops :: n.id == id
    ensures forall n | n in ops :: n.id in ByIds(ops) && ByIds(ops)[n.id] == n.operator
  {
    if ops != [] {
      var init, last := ops[..|ops| - 1], ops[|ops| - 1];
      ByIdsHolds(init);
      assert forall n :: n in ops <==> n in init || n == last;
      forall n | n in init ensures n.id != last.id {
        var i :| 0 <= i < |init| && init[i] == n;
        assert ops[i] == n;
      }
    }
  }

  /** With distinct ids the order of the list does not matter. */
  lemma ListOrderIrrelevant(a: seq<Named>, b: seq<Named>)
    requires DistinctIds(a) && DistinctIds(b) && multiset(a) == multiset(b)
    ensures ByIds(a) == ByIds(b)
  {
    ByIdsHolds(a);
    ByIdsHolds(b);
    SameElements(a, b);
    forall id | id in ByIds(a) ensures id in ByIds(b) && ByIds(b)[id] == ByIds(a)[id] {
      var n :| n in a && n.id == id;
      assert n in b;
    }
    forall id | id in ByIds(b) ensures id in ByIds(a) {
      var n :| n in b && n.id == id;
      assert n in a;
    }
  }

  function RenameInputs(m: Renaming, inputs: seq<string>): seq<string> {
    seq(|inputs|, i requires 0 <= i < |inputs| => RenameId(m, inputs[i]))
  }

  function RenameNamed(m: Renaming, n: Named): Named {
    Named(RenameId(m, n.id), Operator(n.operator.kind, RenameInputs(m, n.operator.inputs)))
  }

  function RenameAll(m: Renaming, ops: seq<Named>): seq<Named> {
    seq(|ops|, i requires 0 <= i < |ops| => RenameNamed(m, ops[i]))
  }

  /** The renamed graph is the graph under the renaming. */
  ghost predicate RenamedGraph(m: Renaming, plan: Graph, plan': Graph) {
    && (forall id | id in plan :: id in m && m[id] in plan'
          && plan'[m[id]] == Operator(plan[id].kind, RenameInputs(m, plan[id].inputs)))
    && (forall id | id in plan' :: exists former | former in plan && former in m :: m[former] == id)
  }

  lemma RenameAllDistinct(m: Renaming, ops: seq<Named>)
    requires Injective(m) && DistinctIds(ops) && forall n | n in ops :: n.id in m
    ensures DistinctIds(RenameAll(m, ops))
  {
    var renamed := RenameAll(m, ops);
    forall i, j | 0 <= i < j < |ops| ensures renamed[i].id != renamed[j].id {
      assert ops[i] in ops && ops[j] in ops;
    }
  }

  lemma RenameAllGraph(m: Renaming, ops: seq<Named>)
    requires Injective(m) && DistinctIds(ops) && forall n | n in ops :: n.id in m
    ensures DistinctIds(RenameAll(m, ops)) && RenamedGraph(m, ByIds(ops), ByIds(RenameAll(m, ops)))
  {
    var renamed := RenameAll(m, ops);
    RenameAllDistinct(m, ops);
    ByIdsHolds(ops);
    ByIdsHolds(renamed);
    hide ByIds, DistinctIds, RenameInputs;
    forall id | id in ByIds(ops)
      ensures id in m && m[id] in ByIds(renamed)
              && ByIds(renamed)[m[id]] == Operator(ByIds(ops)[id].kind, RenameInputs(m, ByIds(ops)[id].inputs))
    {
      var n :| n in ops && n.id == id;
      var i :| 0 <= i < |ops| && ops[i] == n;
      assert renamed[i] in renamed;
    }
    forall id | id in ByIds(renamed) ensures exists former | former in ByIds(ops) && former in m :: m[former] == id {
      var n :| n in renamed && n.id == id;
      var i :| 0 <= i < |renamed| && renamed[i] == n;
      assert ops[i] in ops && m[ops[i].id] == id;
    }
  }

  /** Unfolding the renamed graph renames the unfolded tree, whichever ranks witness acyclicity. */
  lemma {:induction false} UnfoldRenamed(m: Renaming, plan: Graph, rank: map<string, nat>, plan': Graph, rank': map<string, nat>, id: string)
    requires Acyclic(plan, rank) && Acyclic(plan', rank') && RenamedGraph(m, plan, plan') && id in plan
    ensures Unfold(plan', rank', m[id]) == RenameTree(m, Unfold(plan, rank, id))
    decreases rank[id]
  {
    var Operator(kind, inputs) := plan[id];
    if !kind.ScanSource? {
      UnfoldRenamed(m, plan, rank, plan', rank', inputs[0]);
      if IsBinary(kind) { UnfoldRenamed(m, plan, rank, plan', rank', inputs[1]); }
    }
  }

  /** Acyclicity survives the renaming. */
  lemma RenamedAcyclic(m: Renaming, plan: Graph, rank: map<string, nat>, plan': Graph)
    requires Injective(m) && Acyclic(plan, rank) && RenamedGraph(m, plan, plan')
    ensures exists rank' :: Acyclic(plan', rank')
  {
    var back := map id | id in plan :: m[id] := rank[id];
    assert plan'.Keys <= back.Keys by {
      forall id | id in plan' ensures id in back.Keys {
        var former :| former in plan && former in m && m[former] == id;
      }
    }
    forall id | id in plan' ensures |plan'[id].inputs| == Arity(plan'[id].kind) {
      var former :| former in plan && former in m && m[former] == id;
    }
    forall id, k | id in plan' && 0 <= k < |plan'[id].inputs|
      ensures plan'[id].inputs[k] in plan' && back[plan'[id].inputs[k]] < back[id]
    {
      var former :| former in plan && former in m && m[former] == id;
      assert plan[former].inputs[k] in plan && plan'[id].inputs[k] == m[plan[former].inputs[k]];
    }
    assert Acyclic(plan', back);
  }

  /** Any list holding the renamed operators, in any order, compiles to the same text and values. */
  lemma RenamedListCompilesSame(m: Renaming, cfg: Config, ops: seq<Named>, ops': seq<Named>,
                                rank: map<string, nat>, rank': map<string, nat>, output: string)
    requires Injective(m) && DistinctIds(ops) && (forall n | n in ops :: n.id in m)
    requires multiset(ops') == multiset(RenameAll(m, ops)) && DistinctIds(ops')
    requires Acyclic(ByIds(ops), rank) && Acyclic(ByIds(ops'), rank') && output in ByIds(ops)
    requires !cfg.corrected && (cfg.materializeAfter.Some? ==> cfg.materializeAfter.value in m)
    ensures output in m && m[output] in ByIds(ops')
    ensures SameOutput(Compile(cfg, Unfold(ByIds(ops), rank, output)),
                       Compile(RenameConfig(m, cfg), Unfold(ByIds(ops'), rank', m[output])))
  {
    RenameAllGraph(m, ops);
    ListOrderIrrelevant(ops', RenameAll(m, ops));
    UnfoldRenamed(m, ByIds(ops), rank, ByIds(ops'), rank', output);
    UnfoldProper(ByIds(ops), rank, output);
    var t := Unfold(ByIds(ops), rank, output);
    assert Ids(t) <= m.Keys by {
      forall id | id in Ids(t) ensures id in m { assert id in ByIds(ops); }
    }
    RenamedCompilesSame(m, cfg, t);
  }

  // ----- the renaming itself -----

  /** `f"bb{index:04d}-n{position:02d}"` */
  function Label(index: nat, position: nat): string {
    LabelStem(index) + Padded(position, 2)
  }

  function LabelStem(index: nat): string {
    "bb" + Padded(index, 4) + "-n"
  }

  lemma LabelsDiffer(index: nat, i: nat, j: nat)
    requires Label(index, i) == Label(index, j)
    ensures i == j
  {
    hide LabelStem, Padded;
    assert Label(index, i)[|LabelStem(index)|..] == Padded(i, 2);
    assert Label(index, j)[|LabelStem(index)|..] == Padded(j, 2);
    PaddedReads(i, 2);
    PaddedReads(j, 2);
  }

  /** Each id maps to the label of its last position in the list. */
  function Labels(ops: seq<Named>, index: nat): Renaming {
    if ops == [] then map[] else Labels(ops[..|ops| - 1], index)[ops[|ops| - 1].id := Label(index, |ops| - 1)]
  }

  lemma {:induction false} LabelsInjective(ops: seq<Named>, index: nat)
    ensures forall id :: id in Labels(ops, index) <==> exists n | n in ops :: n.id == id
    ensures forall id | id in Labels(ops, index) :: exists i | 0 <= i < |ops| :: Labels(ops, index)[id] == Label(index, i)
    ensures Injective(Labels(ops, index))
  {
    if ops != [] {
      hide Label;
      var init, last := ops[..|ops| - 1], ops[|ops| - 1];
      LabelsInjective(init, index);
      assert forall n :: n in ops <==> n in init || n == last;
      var m, longer := Labels(init, index), Labels(ops, index);
      forall id | id in m ensures m[id] != Label(index, |ops| - 1) {
        var i :| 0 <= i < |init| && m[id] == Label(index, i);
        if m[id] == Label(index, |ops| - 1) { LabelsDiffer(index, i, |ops| - 1); }
      }
    }
  }

  /** A list with the elements of one with distinct ids has distinct ids. */
  lemma ShuffledDistinct(ops: seq<Named>, shuffled: seq<Named>)
    requires DistinctIds(ops) && multiset(shuffled) == multiset(ops)
    ensures DistinctIds(shuffled)
  {
    forall i, j | 0 <= i < j < |shuffled| ensures shuffled[i].id != shuffled[j].id {
      if shuffled[i].id == shuffled[j].id {
        var p := Counterpart(shuffled, ops, i);
        var q := Counterpart(shuffled, ops, j);
        assert p == q;
        CountedTwice(shuffled, i, j);
        CountedOnce(ops, shuffled[i]);
      }
    }
  }

  /** The shuffled plan is a plan, and under any rank that witnesses it compiles to the same text and values. */
  ghost predicate CompilesAlike(ops: seq<Named>, output: string, shuffled: seq<Named>, output': string, m: Renaming,
                                rank: map<string, nat>, cfg: Config)
    requires Acyclic(ByIds(ops), rank) && output in ByIds(ops)
  {
    && (exists rank' :: Acyclic(ByIds(shuffled), rank'))
    && output' in ByIds(shuffled)
    && forall rank' | Acyclic(ByIds(shuffled), rank') ::
         SameOutput(Compile(cfg, Unfold(ByIds(ops), rank, output)), Compile(RenameConfig(m, cfg), Unfold(ByIds(shuffled), rank', output')))
  }

  /** Renaming every operator to its label and shuffling the list changes nothing the compiler makes of the plan. */
  lemma ShuffledCompilesAlike(ops: seq<Named>, output: string, index: nat, shuffled: seq<Named>, rank: map<string, nat>, cfg: Config)
    requires DistinctIds(ops) && Acyclic(ByIds(ops), rank) && output in ByIds(ops)
    requires multiset(shuffled) == multiset(RenameAll(Labels(ops, index), ops))
    requires !cfg.corrected && (cfg.materializeAfter.Some? ==> cfg.materializeAfter.value in ByIds(ops))
    ensures output in Labels(ops, index)
    ensures CompilesAlike(ops, output, shuffled, Labels(ops, index)[output], Labels(ops, index), rank, cfg)
  {
    var m := Labels(ops, index);
    LabelsInjective(ops, index);
    ByIdsHolds(ops);
    RenameAllGraph(m, ops);
    hide ByIds, Labels, Injective, DistinctIds, RenameAll, SameOutput, RenameConfig, Unfold, Acyclic;
    ShuffledDistinct(RenameAll(m, ops), shuffled);
    ListOrderIrrelevant(shuffled, RenameAll(m, ops));
    RenamedAcyclic(m, ByIds(ops), rank, ByIds(shuffled));
    forall rank' | Acyclic(ByIds(shuffled), rank')
      ensures m[output] in ByIds(shuffled)
      ensures SameOutput(Compile(cfg, Unfold(ByIds(ops), rank, output)), Compile(RenameConfig(m, cfg), Unfold(ByIds(shuffled), rank', m[output])))
    {
      RenamedListCompilesSame(m, cfg, ops, shuffled, rank, rank', output);
    }
  }

  /** A plan that validation lets through names only operators it has. */
  lemma NoneMissing(ops: seq<Named>, rank: map<string, nat>, index: nat)
    requires DistinctIds(ops) && Acyclic(ByIds(ops), rank)
    ensures forall n | n in ops :: Elements(n.operator.inputs) <= Labels(ops, index).Keys
    ensures ByIds(ops).Keys == Labels(ops, index).Keys
  {
    LabelsInjective(ops, index);
    ByIdsHolds(ops);
    hide ByIds, Labels;
    forall n, input | n in ops && input in n.operator.inputs ensures input in Labels(ops, index) {
      var k :| 0 <= k < |n.operator.inputs| && n.operator.inputs[k] == input;
      assert ByIds(ops)[n.id] == n.operator;
    }
  }

  /** What a validated plan gets back: never an error, and a plan that compiles alike. */
  ghost predicate ServesValid(ops: seq<Named>, output: string, index: nat, r: Result<(seq<Named>, string), string>) {
    forall rank | DistinctIds(ops) && Acyclic(ByIds(ops), rank) && output in ByIds(ops) ::
      r.Ok? && forall cfg: Config | !cfg.corrected && (cfg.materializeAfter.Some? ==> cfg.materializeAfter.value in ByIds(ops)) ::
                 CompilesAlike(ops, output, r.value.0, r.value.1, Labels(ops, index), rank, cfg)
  }

  lemma ValidIsServed(ops: seq<Named>, output: string, index: nat, r: Result<(seq<Named>, string), string>)
    requires r.Ok? <==> output in Labels(ops, index) && forall n | n in ops :: Elements(n.operator.inputs) <= Labels(ops, index).Keys
    requires r.Ok? ==> multiset(r.value.0) == multiset(RenameAll(Labels(ops, index), ops))
    requires r.Ok? ==> output in Labels(ops, index) && r.value.1 == Labels(ops, index)[output]
    ensures ServesValid(ops, output, index, r)
  {
    hide ByIds, Labels, DistinctIds, RenameAll, Acyclic, Elements, CompilesAlike;
    forall rank | DistinctIds(ops) && Acyclic(ByIds(ops), rank) && output in ByIds(ops) ensures r.Ok? {
      NoneMissing(ops, rank, index);
    }
    forall rank, cfg: Config | DistinctIds(ops) && Acyclic(ByIds(ops), rank) && output in ByIds(ops)
                               && !cfg.corrected && (cfg.materializeAfter.Some? ==> cfg.materializeAfter.value in ByIds(ops))
      ensures CompilesAlike(ops, output, r.value.0, r.value.1, Labels(ops, index), rank, cfg)
    {
      ShuffledCompilesAlike(ops, output, index, r.value.0, rank, cfg);
    }
  }

  /** `_rename_and_shuffle`: every operator and input renamed, in some order; a missing name raises. A plan that
      validation lets through never raises, and what comes back compiles to the same text and values. */
  method RenameAndShuffle(ops: seq<Named>, output: string, index: nat) returns (r: Result<(seq<Named>, string), string>)
    ensures r.Ok? <==> output in Labels(ops, index) && forall n | n in ops :: Elements(n.operator.inputs) <= Labels(ops, index).Keys
    ensures r.Ok? ==> multiset(r.value.0) == multiset(RenameAll(Labels(ops, index), ops))
    ensures r.Ok? ==> output in Labels(ops, index) && r.value.1 == Labels(ops, index)[output]
    ensures ServesValid(ops, output, index, r)
  {
    var mapping: Renaming := map[];
    for position := 0 to |ops|
      invariant mapping == Labels(ops[..position], index)
    {
      assert ops[..position + 1][..position] == ops[..position];
      mapping := mapping[ops[position].id := Label(index, position)];
    }
    assert ops[..|ops|] == ops;
    hide Labels, Elements, ServesValid, RenameAll;
    var result := new Named[|ops|](i requires 0 <= i < |ops| => ops[i]);
    assert result[..] == ops;
    var missing := RenameInPlace(result, mapping);
    if missing.Some? {
      r := Error(missing.value);
    } else if output !in mapping {
      r := Error(output);
    } else {
      Shuffle(result);
      r := Ok((result[..], mapping[output]));
    }
    ValidIsServed(ops, output, index, r);
  }

  /** Rewrites the ids and inputs of the copied operators, stopping at the first unknown input. */
  method RenameInPlace(list: array<Named>, mapping: Renaming) returns (missing: Option<string>)
    modifies list
    ensures missing.None? <==> forall n | n in old(list[..]) :: Elements(n.operator.inputs) <= mapping.Keys
    ensures missing.None? ==> list[..] == RenameAll(mapping, old(list[..]))
  {
    hide Elements, RenameNamed;
    ghost var ops := list[..];
    for i := 0 to list.Length
      invariant forall k | 0 <= k < i :: Elements(ops[k].operator.inputs) <= mapping.Keys
      invariant forall k | 0 <= k < i :: list[k] == RenameNamed(mapping, ops[k])
      invariant forall k | i <= k < list.Length :: list[k] == ops[k]
    {
      assert list[i] == ops[i] && ops[i] in ops;
      missing := Missing(list[i].operator.inputs, mapping);
      if missing.Some? { return; }
      list[i] := RenameNamed(mapping, list[i]);
    }
    assert list[..] == RenameAll(mapping, ops);
    missing := None;
  }

  method Missing(inputs: seq<string>, mapping: Renaming) returns (missing: Option<string>)
    ensures missing.None? <==> Elements(inputs) <= mapping.Keys
  {
    for i := 0 to |inputs|
      invariant forall k | 0 <= k < i :: inputs[k] in mapping
    {
      if inputs[i] !in mapping { return Some(inputs[i]); }
    }
    missing := None;
  }
}
