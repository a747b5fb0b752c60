/** When the parameter list of a compiled plan, read left to right, is what its placeholders were meant for. */
module ParameterOrder {
  import opened Wrappers
  import opened Sql
  import opened SqlBinding
  import opened Plan
  import opened Compiler

  // ----- which operators push parameters -----

  predicate HasConstant(fs: seq<Factor>) {
    exists f | f in fs :: f.Affine?
  }

  predicate UsesConstant(a: Aggregation) {
    !a.fn.Count? && a.input.Formula? && HasConstant(a.input.factors)
  }

  predicate HasConstants(aggregates: seq<Aggregation>) {
    exists a | a in aggregates :: UsesConstant(a)
  }

  predicate Pushes(kind: Kind) {
    match kind
    case Filter(p) => p.One? || p.operands != []
    case TemporalFilter(_, _, _) => true
    case SpatialFilter(_, _, _) => true
    case Limit(_) => true
    case Aggregate(_, aggregates) => HasConstants(aggregates)
    case Mask(masked, how) => how.Redact? && masked != []
    case GeneralizeLocation(_, _) => true
    case SpatialJoin(_, _, _, _, _, _) => true
    case _ => false
  }

  /** Some operator of the tree pushes a parameter. */
  predicate Parameterised(t: Tree) {
    match t
    case Scan(_, _) => false
    case Unary(_, kind, input) => Pushes(kind) || Parameterised(input)
    case Binary(_, kind, left, right) => Pushes(kind) || Parameterised(left) || Parameterised(right)
  }

  /** No redacting Mask or GeneralizeLocation sits above a parameterised input. */
  predicate Aligned(t: Tree) {
    match t
    case Scan(_, _) => true
    case Unary(_, kind, input) =>
      Aligned(input) && ((kind.Mask? || kind.GeneralizeLocation?) && Pushes(kind) ==> !Parameterised(input))
    case Binary(_, _, left, right) => Aligned(left) && Aligned(right)
  }

  // ----- every operator pushes its own parameters in the order of its own placeholders -----

  lemma {:induction false} ComparisonsIntended(owner: string, cs: seq<Comparison>)
    ensures IntendedAll(CompareExprs(owner, cs)) == ComparisonParameters(owner, cs)
    ensures ComparisonParameters(owner, cs) != [] <==> cs != []
  {
    if cs != [] {
      CompareIntended(owner, cs[0]);
      ComparisonsIntended(owner, cs[1..]);
    }
  }

  lemma ArgumentsIntended(a: Expr, b: Expr)
    ensures IntendedAll([a]) == Intended(a)
    ensures IntendedAll([a, b]) == Intended(a) + Intended(b)
  {
    assert [a][1..] == [] && [a, b][1..] == [b] && [b][1..] == [];
    assert IntendedAll([a]) == Intended(a) + [];
    assert IntendedAll([b]) == Intended(b) + [];
  }

  lemma ArgumentFirst(a: Expr, rest: seq<Expr>)
    ensures IntendedAll([a] + rest) == Intended(a) + IntendedAll(rest)
  {
    assert ([a] + rest)[1..] == rest;
  }

  lemma CompareIntended(owner: string, c: Comparison)
    ensures Intended(CompareExpr(owner, c)) == [Slot(owner, c.literal)]
  {
    var column, mark := Column(LeftRel, c.field), Placeholder(Slot(owner, c.literal));
    ArgumentsIntended(column, mark);
    ArgumentsIntended(Apply(Compare(c.op), [column, mark]), mark);
  }

  lemma {:induction false} FactorsIntended(owner: string, fs: seq<Factor>)
    ensures IntendedAll(FactorExprs(owner, fs)) == FactorParameters(owner, fs)
    ensures FactorParameters(owner, fs) != [] <==> HasConstant(fs)
  {
    if fs != [] {
      FactorsIntended(owner, fs[1..]);
      var column := Column(LeftRel, fs[0].name);
      if fs[0].Affine? { ArgumentsIntended(Placeholder(Slot(owner, fs[0].constant)), column); }
      assert forall f | f in fs :: f == fs[0] || f in fs[1..];
    }
  }

  lemma ArgumentIntended(owner: string, a: Aggregation)
    ensures Intended(AggregateArgument(owner, a)) == ArgumentParameters(owner, a)
    ensures ArgumentParameters(owner, a) != [] <==> UsesConstant(a)
  {
    if a.input.Formula? { FactorsIntended(owner, a.input.factors); }
  }

  lemma {:induction false} AggregatesIntended(owner: string, aggregates: seq<Aggregation>)
    ensures IntendedAggregates(AggregateItems(owner, aggregates)) == AggregateParameters(owner, aggregates)
    ensures AggregateParameters(owner, aggregates) != [] <==> HasConstants(aggregates)
  {
    if aggregates != [] {
      hide AggregateArgument, ArgumentParameters, UsesConstant;
      AggregatesIntended(owner, aggregates[1..]);
      ArgumentIntended(owner, aggregates[0]);
      assert forall a | a in aggregates :: a == aggregates[0] || a in aggregates[1..];
    }
  }

  lemma {:induction false} MaskIntended(owner: string, how: MaskMethod, fields: seq<string>)
    ensures IntendedReplacements(MaskItems(owner, how, fields)) == MaskParameters(owner, how, fields)
    ensures MaskParameters(owner, how, fields) != [] <==> how.Redact? && fields != []
  {
    if fields != [] {
      MaskIntended(owner, how, fields[1..]);
      var mark := Placeholder(Slot(owner, Redacted()));
      ArgumentsIntended(mark, mark);
      ArgumentsIntended(Column(LeftRel, fields[0]), mark);
    }
  }

  lemma GridItemIntended(owner: string, step: Value, name: string, anchor: real)
    ensures var slot := Slot(owner, step); Intended(GridItem(owner, step, name, anchor).expr) == [slot, slot, slot]
  {
    var p := Placeholder(Slot(owner, step));
    ArgumentsIntended(p, p);
    ArgumentFirst(p, [p, p]);
    ArgumentFirst(Column(LeftRel, name), [p] + [p, p]);
    assert [Column(LeftRel, name)] + ([p] + [p, p]) == [Column(LeftRel, name), p, p, p];
  }

  lemma GridIntended(owner: string, step: Value, a: string, b: string)
    ensures var slot := Slot(owner, step);
            IntendedReplacements([GridItem(owner, step, a, 90.0), GridItem(owner, step, b, 180.0)])
            == [slot, slot, slot, slot, slot, slot]
  {
    var items := [GridItem(owner, step, a, 90.0), GridItem(owner, step, b, 180.0)];
    GridItemIntended(owner, step, a, 90.0);
    GridItemIntended(owner, step, b, 180.0);
    assert items[1..] == [items[1]] && items[1..][1..] == [];
    assert IntendedReplacements(items[1..]) == Intended(items[1].expr) + [];
  }

  lemma SpatialFilterIntended(a: Expr, b: Expr, lat: Slot, lon: Slot, radius: Slot)
    requires a.Column? && b.Column?
    ensures Intended(Apply(Compare(Le), [Apply(PlanarKm, [a, Placeholder(lat), b, Placeholder(lon), Placeholder(lat)]),
                                         Placeholder(radius)])) == [lat, lon, lat, radius]
  {
    var tail := [Placeholder(lon), Placeholder(lat)];
    ArgumentsIntended(Placeholder(lon), Placeholder(lat));
    ArgumentFirst(b, tail);
    ArgumentFirst(Placeholder(lat), [b] + tail);
    ArgumentFirst(a, [Placeholder(lat)] + ([b] + tail));
    var args := [a, Placeholder(lat), b, Placeholder(lon), Placeholder(lat)];
    assert [a] + ([Placeholder(lat)] + ([b] + tail)) == args;
    ArgumentsIntended(Apply(PlanarKm, args), Placeholder(radius));
  }

  predicate OwnPlaceholdersFirst(kind: Kind) {
    kind.Aggregate? || kind.Mask? || kind.GeneralizeLocation?
  }

  /** Own placeholders first to last are the parameters pushed; all of them come before the input, or all after. */
  ghost predicate WellPushed(kind: Kind, t: Template) {
    && IntendedList(t.list) == (if OwnPlaceholdersFirst(kind) then t.pushed else [])
    && IntendedSuffix(t.suffix) == (if OwnPlaceholdersFirst(kind) then [] else t.pushed)
    && (t.pushed != [] <==> Pushes(kind))
  }

  lemma FilterIntended(owner: string, p: Predicate)
    ensures Intended(FilterExpr(owner, p)) == FilterParameters(owner, p)
    ensures FilterParameters(owner, p) != [] <==> Pushes(Filter(p))
  {
    if p.One? {
      CompareIntended(owner, p.comparison);
    } else {
      ComparisonsIntended(owner, p.operands);
      var e := Apply(if p.isAnd then And else Or, CompareExprs(owner, p.operands));
      ArgumentsIntended(e, e);
    }
  }

  lemma TemporalIntended(column: Expr, from: Slot, until: Slot)
    requires column.Column?
    ensures Intended(Apply(And, [Apply(Compare(Ge), [column, Placeholder(from)]), Apply(Compare(Lt), [column, Placeholder(until)])]))
            == [from, until]
  {
    ArgumentsIntended(column, Placeholder(from));
    ArgumentsIntended(column, Placeholder(until));
    ArgumentsIntended(Apply(Compare(Ge), [column, Placeholder(from)]), Apply(Compare(Lt), [column, Placeholder(until)]));
  }

  lemma TemplateIntended(catalog: Catalog, owner: string, kind: Kind, schema: Schema, scan: Option<string>)
    requires UnaryTemplate(catalog, owner, kind, schema, scan).Ok?
    ensures WellPushed(kind, UnaryTemplate(catalog, owner, kind, schema, scan).value)
  {
    hide FilterExpr, FilterParameters, AggregateItems, AggregateParameters, MaskItems, MaskParameters, GridItem, Intended, GridPair, MaskProblem;
    match kind
    case Filter(p) => FilterIntended(owner, p);
    case TemporalFilter(field, start, end) =>
      TemporalIntended(Column(LeftRel, field), Slot(owner, Instant(start)), Slot(owner, Instant(end)));
    case SpatialFilter(latitude, longitude, radiusKm) =>
      var pair := catalog[scan.value].spatial.value;
      SpatialFilterIntended(Column(LeftRel, pair.latitude), Column(LeftRel, pair.longitude),
                            Slot(owner, Number(latitude)), Slot(owner, Number(longitude)), Slot(owner, Number(radiusKm)));
    case Limit(n) => PlaceholderIntended(Slot(owner, Number(n as real)));
    case Aggregate(groupBy, aggregates) => AggregatesIntended(owner, aggregates);
    case Mask(masked, how) => MaskIntended(owner, how, masked);
    case GeneralizeLocation(coordinates, precisionKm) =>
      var pair := GridPair(schema, coordinates).value;
      GridIntended(owner, Number(GridStep(precisionKm)), pair.latitude, pair.longitude);
    case _ =>
  }

  lemma PlaceholderIntended(slot: Slot)
    ensures Intended(Placeholder(slot)) == [slot]
  {}

  ghost predicate OwnedBelow(ps: seq<Slot>, ids: set<string>) {
    forall p | p in ps :: p.owner in ids
  }

  lemma JoinIntended(kind: Kind, owner: string)
    requires BinaryOn(kind, owner).Ok?
    ensures var (on, pushed) := BinaryOn(kind, owner).value;
            Intended(on) == pushed && (pushed != [] <==> Pushes(kind)) && OwnedBelow(pushed, {owner})
  {
    if kind.SpatialJoin? {
      var km := Placeholder(Slot(owner, Number(kind.distanceKm.value)));
      var a, b := Column(RightRel, kind.rightLatitude), Column(LeftRel, kind.leftLatitude);
      var c, d := Column(RightRel, kind.rightLongitude), Column(LeftRel, kind.leftLongitude);
      ArgumentsIntended(a, b);
      ArgumentsIntended(c, d);
      ArgumentFirst(b, [c, d]);
      ArgumentFirst(a, [b] + [c, d]);
      assert [a] + ([b] + [c, d]) == [a, b, c, d];
      var gap, far := Apply(LatitudeGap, [a, b]), Apply(HaversineKm, [a, b, c, d]);
      ArgumentsIntended(km, km);
      ArgumentsIntended(gap, Apply(DegreesOfKm, [km]));
      ArgumentsIntended(far, km);
      ArgumentsIntended(Apply(Compare(Le), [gap, Apply(DegreesOfKm, [km])]), Apply(Compare(Le), [far, km]));
    } else {
      ArgumentsIntended(Column(LeftRel, kind.leftField), Column(RightRel, kind.rightField));
    }
  }

  // ----- the whole plan -----

  lemma TemplateOwned(catalog: Catalog, owner: string, kind: Kind, schema: Schema, scan: Option<string>)
    requires UnaryTemplate(catalog, owner, kind, schema, scan).Ok?
    ensures OwnedBelow(UnaryTemplate(catalog, owner, kind, schema, scan).value.pushed, {owner})
  {
    match kind
    case Filter(p) => if p.Flat? { ComparisonsOwned(owner, p.operands); }
    case Aggregate(_, aggregates) => AggregatesOwned(owner, aggregates);
    case Mask(masked, how) => MaskOwned(owner, how, masked);
    case _ =>
  }

  lemma ComparisonsOwned(owner: string, cs: seq<Comparison>)
    ensures OwnedBelow(ComparisonParameters(owner, cs), {owner})
  {}

  lemma FactorsOwned(owner: string, fs: seq<Factor>)
    ensures OwnedBelow(FactorParameters(owner, fs), {owner})
  {}

  lemma {:induction false} AggregatesOwned(owner: string, aggregates: seq<Aggregation>)
    ensures OwnedBelow(AggregateParameters(owner, aggregates), {owner})
  {
    if aggregates != [] {
      AggregatesOwned(owner, aggregates[1..]);
      if aggregates[0].input.Formula? { FactorsOwned(owner, aggregates[0].input.factors); }
    }
  }

  lemma MaskOwned(owner: string, how: MaskMethod, fields: seq<string>)
    ensures OwnedBelow(MaskParameters(owner, how, fields), {owner})
  {}

  ghost function TemplateOf(cfg: Config, id: string, kind: Kind, input: Tree): Result<Template, CompileError> {
    UnaryTemplate(cfg.catalog, id, kind, SchemaOf(cfg.catalog, input), FilterScan(cfg, input))
  }

  lemma BoundaryKeepsOrder(cfg: Config, id: string, f: Fragment)
    ensures Boundary(cfg, id, f).parameters == f.parameters
    ensures IntendedQuery(Boundary(cfg, id, f).sql) == IntendedQuery(f.sql)
  {
    hide BoundaryName;
    assert IntendedQuery(f.sql) + [] == IntendedQuery(f.sql);
  }

  /** How one operator extends its input's parameters and its input's placeholders. */
  lemma UnaryShape(cfg: Config, id: string, kind: Kind, input: Tree)
    requires !kind.LineageCapture? && Compile(cfg, Unary(id, kind, input)).Ok?
    ensures Compile(cfg, input).Ok? && TemplateOf(cfg, id, kind, input).Ok?
    ensures var own := TemplateOf(cfg, id, kind, input).value.pushed;
            var below, f := Compile(cfg, input).value, Compile(cfg, Unary(id, kind, input)).value;
            && f.parameters == (if PushesFirst(cfg, kind) then own + below.parameters else below.parameters + own)
            && IntendedQuery(f.sql)
               == (if OwnPlaceholdersFirst(kind) then own + IntendedQuery(below.sql) else IntendedQuery(below.sql) + own)
            && OwnedBelow(own, {id}) && (own != [] <==> Pushes(kind))
  {
    hide UnaryTemplate, SchemaOf, FilterScan, IntendedList, IntendedSuffix, Pushes, Boundary, OwnedBelow;
    var below := Compile(cfg, input).value;
    BoundaryKeepsOrder(cfg, id, CompileUnary(cfg, id, kind, SchemaOf(cfg.catalog, input), FilterScan(cfg, input), below).value);
    TemplateIntended(cfg.catalog, id, kind, SchemaOf(cfg.catalog, input), FilterScan(cfg, input));
    TemplateOwned(cfg.catalog, id, kind, SchemaOf(cfg.catalog, input), FilterScan(cfg, input));
  }

  lemma BinaryShape(cfg: Config, id: string, kind: Kind, left: Tree, right: Tree)
    requires Compile(cfg, Binary(id, kind, left, right)).Ok?
    ensures Compile(cfg, left).Ok? && Compile(cfg, right).Ok? && BinaryOn(kind, id).Ok?
    ensures var own := BinaryOn(kind, id).value.1;
            var l, r, f := Compile(cfg, left).value, Compile(cfg, right).value, Compile(cfg, Binary(id, kind, left, right)).value;
            && f.parameters == l.parameters + r.parameters + own
            && IntendedQuery(f.sql) == IntendedQuery(l.sql) + IntendedQuery(r.sql) + own
            && OwnedBelow(own, {id}) && (own != [] <==> Pushes(kind))
  {
    hide BinaryOn, Intended, Pushes, Boundary;
    BoundaryKeepsOrder(cfg, id, CompileBinary(kind, id, Compile(cfg, left).value, Compile(cfg, right).value).value);
    JoinIntended(kind, id);
  }

  /** As many parameters as placeholders, pushed by operators of the tree; none exactly when nothing pushes. */
  ghost predicate Counted(t: Tree, f: Fragment) {
    && Accepts(f.sql, f.parameters)
    && OwnedBelow(f.parameters, Ids(t))
    && (f.parameters != [] <==> Parameterised(t))
  }

  lemma UnaryCounted(cfg: Config, id: string, kind: Kind, input: Tree)
    requires !kind.LineageCapture? && Compile(cfg, Unary(id, kind, input)).Ok?
    requires Compile(cfg, input).Ok? && Counted(input, Compile(cfg, input).value)
    ensures Counted(Unary(id, kind, input), Compile(cfg, Unary(id, kind, input)).value)
  {
    hide Compile, TemplateOf, Pushes, IntendedQuery;
    UnaryShape(cfg, id, kind, input);
  }

  lemma BinaryCounted(cfg: Config, id: string, kind: Kind, left: Tree, right: Tree)
    requires Compile(cfg, Binary(id, kind, left, right)).Ok?
    requires Compile(cfg, left).Ok? && Counted(left, Compile(cfg, left).value)
    requires Compile(cfg, right).Ok? && Counted(right, Compile(cfg, right).value)
    ensures Counted(Binary(id, kind, left, right), Compile(cfg, Binary(id, kind, left, right)).value)
  {
    hide Compile, BinaryOn, Pushes, IntendedQuery;
    BinaryShape(cfg, id, kind, left, right);
  }

  lemma {:induction false} ParametersCounted(cfg: Config, t: Tree)
    requires Compile(cfg, t).Ok?
    ensures Counted(t, Compile(cfg, t).value)
  {
    match t
    case Scan(_, _) =>
    case Unary(id, kind, input) =>
      ParametersCounted(cfg, input);
      if !kind.LineageCapture? { UnaryCounted(cfg, id, kind, input); }
    case Binary(id, kind, left, right) =>
      ParametersCounted(cfg, left);
      ParametersCounted(cfg, right);
      BinaryCounted(cfg, id, kind, left, right);
  }

  lemma HeadsDiffer(a: seq<Slot>, b: seq<Slot>, c: seq<Slot>, owner: string, ids: set<string>)
    requires a != [] && OwnedBelow(a, ids) && owner !in ids
    requires b != [] && OwnedBelow(b, {owner})
    ensures a + b != b + c
  {
    assert (a + b)[0] == a[0] && (b + c)[0] == b[0];
    assert a[0] in a && b[0] in b;
  }

  /** As written, every placeholder receives the parameter its own operator pushed for it exactly when no
      redacting Mask or GeneralizeLocation sits above a parameterised input. */
  lemma {:induction false} ParameterOrderExact(cfg: Config, t: Tree)
    requires !cfg.corrected && ProperTree(t) && Compile(cfg, t).Ok?
    ensures Compile(cfg, t).value.parameters == IntendedQuery(Compile(cfg, t).value.sql) <==> Aligned(t)
  {
    match t
    case Scan(_, _) =>
    case Unary(id, kind, input) =>
      ParameterOrderExact(cfg, input);
      if !kind.LineageCapture? { UnaryOrder(cfg, id, kind, input); }
    case Binary(id, kind, left, right) =>
      ParameterOrderExact(cfg, left);
      ParameterOrderExact(cfg, right);
      BinaryOrder(cfg, id, kind, left, right);
  }

  lemma UnaryOrder(cfg: Config, id: string, kind: Kind, input: Tree)
    requires !kind.LineageCapture? && Compile(cfg, Unary(id, kind, input)).Ok? && id !in Ids(input)
    ensures Compile(cfg, input).Ok?
    ensures var f, below := Compile(cfg, Unary(id, kind, input)).value, Compile(cfg, input).value;
            var early := (kind.Mask? || kind.GeneralizeLocation?) && !cfg.corrected && Pushes(kind) && Parameterised(input);
            f.parameters == IntendedQuery(f.sql) <==> below.parameters == IntendedQuery(below.sql) && !early
  {
    hide Compile, TemplateOf, Pushes, IntendedQuery, Parameterised;
    UnaryShape(cfg, id, kind, input);
    ParametersCounted(cfg, input);
    var below := Compile(cfg, input).value;
    var own := TemplateOf(cfg, id, kind, input).value.pushed;
    var a, b := below.parameters, IntendedQuery(below.sql);
    if !OwnPlaceholdersFirst(kind) {
      SameHead(a, b, own);
    } else if PushesFirst(cfg, kind) {
      SameTail(own, a, b);
    } else if a != [] && own != [] {
      HeadsDiffer(a, own, b, id, Ids(input));
    } else {
      assert a + own == own + a;
      SameTail(own, a, b);
    }
  }

  lemma SameTail(own: seq<Slot>, a: seq<Slot>, b: seq<Slot>)
    requires |a| == |b|
    ensures own + a == own + b <==> a == b
  {
    assert (own + a)[|own|..] == a && (own + b)[|own|..] == b;
  }

  lemma SameHead(a: seq<Slot>, b: seq<Slot>, own: seq<Slot>)
    requires |a| == |b|
    ensures a + own == b + own <==> a == b
  {
    assert (a + own)[..|a|] == a && (b + own)[..|b|] == b;
  }

  lemma BinaryOrder(cfg: Config, id: string, kind: Kind, left: Tree, right: Tree)
    requires Compile(cfg, Binary(id, kind, left, right)).Ok?
    ensures Compile(cfg, left).Ok? && Compile(cfg, right).Ok?
    ensures var f, l, r := Compile(cfg, Binary(id, kind, left, right)).value, Compile(cfg, left).value, Compile(cfg, right).value;
            f.parameters == IntendedQuery(f.sql)
            <==> l.parameters == IntendedQuery(l.sql) && r.parameters == IntendedQuery(r.sql)
  {
    hide Compile, BinaryOn, IntendedQuery, Parameterised;
    BinaryShape(cfg, id, kind, left, right);
    ParametersCounted(cfg, left);
    ParametersCounted(cfg, right);
    var l, r := Compile(cfg, left).value, Compile(cfg, right).value;
    var a, b, c, d := l.parameters, IntendedQuery(l.sql), r.parameters, IntendedQuery(r.sql);
    SameHead(a + c, b + d, BinaryOn(kind, id).value.1);
    assert (a + c)[..|a|] == a && (b + d)[..|b|] == b && (a + c)[|a|..] == c && (b + d)[|b|..] == d;
  }

  /** Pushing a Mask's or GeneralizeLocation's parameters first is right for every plan. */
  lemma {:induction false} CorrectedParameterOrder(cfg: Config, t: Tree)
    requires cfg.corrected && ProperTree(t) && Compile(cfg, t).Ok?
    ensures Compile(cfg, t).value.parameters == IntendedQuery(Compile(cfg, t).value.sql)
  {
    match t
    case Scan(_, _) =>
    case Unary(id, kind, input) =>
      CorrectedParameterOrder(cfg, input);
      if !kind.LineageCapture? { UnaryOrder(cfg, id, kind, input); }
    case Binary(id, kind, left, right) =>
      CorrectedParameterOrder(cfg, left);
      CorrectedParameterOrder(cfg, right);
      BinaryOrder(cfg, id, kind, left, right);
  }
}
