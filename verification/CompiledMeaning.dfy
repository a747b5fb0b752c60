/** Running a compiled plan gives the rows of the direct evaluator. */
module CompiledMeaning {
  import opened Wrappers
  import opened Sql
  import opened SqlBinding
  import opened Plan
  import opened Compiler
  import opened ScanAncestor
  import ParameterOrder

  // ----- a statement with every placeholder filled by the slot it was meant for -----

  function Resolve(e: Expr): Expr
    decreases e
  {
    match e
    case Placeholder(slot) => Literal(slot.value)
    case Apply(fn, args) => Apply(fn, ResolveAll(args))
    case _ => e
  }

  function ResolveAll(es: seq<Expr>): seq<Expr>
    decreases es
  {
    if es == [] then [] else [Resolve(es[0])] + ResolveAll(es[1..])
  }

  function ResolveReplacements(items: seq<Replacement>): seq<Replacement> {
    if items == [] then []
    else [Replacement(Resolve(items[0].expr), items[0].column)] + ResolveReplacements(items[1..])
  }

  function ResolveAggregates(items: seq<AggregateItem>): seq<AggregateItem> {
    if items == [] then []
    else [AggregateItem(items[0].fn, Resolve(items[0].argument), items[0].output)] + ResolveAggregates(items[1..])
  }

  function ResolveList(list: SelectList): SelectList {
    match list
    case Replace(items) => Replace(ResolveReplacements(items))
    case Aggregates(groups, items) => Aggregates(groups, ResolveAggregates(items))
    case _ => list
  }

  function ResolveSuffix(suffix: Suffix): Suffix {
    match suffix
    case Where(condition) => Where(Resolve(condition))
    case LimitTo(count) => LimitTo(Resolve(count))
    case _ => suffix
  }

  function ResolveQuery(q: Query): Query {
    match q
    case Base(_) => q
    case Select(list, from, suffix) => Select(ResolveList(list), ResolveQuery(from), ResolveSuffix(suffix))
    case JoinOn(outer, left, right, on) => JoinOn(outer, ResolveQuery(left), ResolveQuery(right), Resolve(on))
    case With(name, definition, body) => With(name, ResolveQuery(definition), ResolveQuery(body))
  }

  lemma {:induction false} BindIntended(e: Expr)
    ensures Bind(e, Intended(e)) == Resolve(e)
    decreases e
  {
    if e.Apply? { BindAllIntended(e.args); }
  }

  lemma {:induction false} BindAllIntended(es: seq<Expr>)
    ensures BindAll(es, IntendedAll(es)) == ResolveAll(es)
    decreases es
  {
    if es != [] {
      BindIntended(es[0]);
      BindAllIntended(es[1..]);
      Split(Intended(es[0]), IntendedAll(es[1..]));
    }
  }

  lemma Split<T>(a: seq<T>, b: seq<T>)
    ensures (a + b)[..|a|] == a && (a + b)[|a|..] == b
  {}

  lemma {:induction false} BindReplacementsIntended(items: seq<Replacement>)
    ensures BindReplacements(items, IntendedReplacements(items)) == ResolveReplacements(items)
  {
    if items != [] {
      BindIntended(items[0].expr);
      BindReplacementsIntended(items[1..]);
      Split(Intended(items[0].expr), IntendedReplacements(items[1..]));
    }
  }

  lemma {:induction false} BindAggregatesIntended(items: seq<AggregateItem>)
    ensures BindAggregates(items, IntendedAggregates(items)) == ResolveAggregates(items)
  {
    if items != [] {
      BindIntended(items[0].argument);
      BindAggregatesIntended(items[1..]);
      Split(Intended(items[0].argument), IntendedAggregates(items[1..]));
    }
  }

  lemma BindListIntended(list: SelectList)
    ensures BindList(list, IntendedList(list)) == ResolveList(list)
  {
    if list.Replace? { BindReplacementsIntended(list.items); }
    if list.Aggregates? { BindAggregatesIntended(list.aggregates); }
  }

  lemma BindSuffixIntended(suffix: Suffix)
    ensures BindSuffix(suffix, IntendedSuffix(suffix)) == ResolveSuffix(suffix)
  {
    if suffix.Where? { BindIntended(suffix.condition); }
    if suffix.LimitTo? { BindIntended(suffix.count); }
  }

  lemma SplitThree<T>(a: seq<T>, b: seq<T>, c: seq<T>)
    ensures var s := a + b + c;
            s[..|a|] == a && s[|a|..|a| + |b|] == b && s[|a| + |b|..] == c
  {}

  /** Binding the intended slots, left to right, fills every placeholder with its own slot. */
  lemma {:induction false} BindQueryIntended(q: Query)
    ensures BindQuery(q, IntendedQuery(q)) == ResolveQuery(q)
  {
    hide BindList, BindSuffix, IntendedList, IntendedSuffix, ResolveList, ResolveSuffix, Bind, Intended, Resolve;
    match q
    case Base(_) =>
    case Select(list, from, suffix) =>
      BindListIntended(list);
      BindQueryIntended(from);
      BindSuffixIntended(suffix);
      SplitThree(IntendedList(list), IntendedQuery(from), IntendedSuffix(suffix));
    case JoinOn(_, left, right, on) =>
      BindQueryIntended(left);
      BindQueryIntended(right);
      BindIntended(on);
      SplitThree(IntendedQuery(left), IntendedQuery(right), Intended(on));
    case With(_, definition, body) =>
      BindQueryIntended(definition);
      BindQueryIntended(body);
      Split(IntendedQuery(definition), IntendedQuery(body));
  }

  // ----- filters: SQL's three-valued logic against the definite reading -----

  lemma EvalTwo(g: Engine, a: Expr, b: Expr, l: Row, r: Row)
    ensures EvalAll(g, [a, b], l, r) == [EvalExpr(g, a, l, r), EvalExpr(g, b, l, r)]
    ensures ResolveAll([a, b]) == [Resolve(a), Resolve(b)]
    ensures EvalAll(g, [a], l, r) == [EvalExpr(g, a, l, r)]
    ensures ResolveAll([a]) == [Resolve(a)]
  {
    assert [a, b][1..] == [b] && [b][1..] == [] && [a][1..] == [];
    assert ResolveAll([b]) == [Resolve(b)] + ResolveAll([]);
    assert ResolveAll([a]) == [Resolve(a)] + ResolveAll([]);
  }

  lemma CompareMeaning(g: Engine, owner: string, c: Comparison, row: Row)
    ensures var v := EvalExpr(g, Resolve(CompareExpr(owner, c)), row, map[]);
            (v == Bool(true) <==> Decides(c, row, true)) && (v == Bool(false) <==> Decides(c, row, false))
  {
    var column, mark := Column(LeftRel, c.field), Placeholder(Slot(owner, c.literal));
    var e := Apply(Compare(c.op), [column, mark]);
    EvalTwo(g, column, mark, row, map[]);
    EvalTwo(g, column, Literal(c.literal), row, map[]);
    EvalTwo(g, e, e, row, map[]);
    EvalTwo(g, Resolve(e), Resolve(e), row, map[]);
    assert EvalExpr(g, Resolve(e), row, map[]) == CompareValues(c.op, Get(row, c.field), c.literal);
  }

  lemma {:induction false} FlatMeaning(g: Engine, owner: string, cs: seq<Comparison>, row: Row)
    ensures var vs := EvalAll(g, ResolveAll(CompareExprs(owner, cs)), row, map[]);
            && (Conjunction(vs) == Bool(true) <==> forall c | c in cs :: Decides(c, row, true))
            && (Conjunction(vs) == Bool(false) <==> exists c | c in cs :: Decides(c, row, false))
            && (Disjunction(vs) == Bool(true) <==> exists c | c in cs :: Decides(c, row, true))
            && (Disjunction(vs) == Bool(false) <==> forall c | c in cs :: Decides(c, row, false))
  {
    if cs != [] {
      FlatMeaning(g, owner, cs[1..], row);
      CompareMeaning(g, owner, cs[0], row);
      hide CompareExpr, Resolve, Decides, EvalExpr;
      var vs := EvalAll(g, ResolveAll(CompareExprs(owner, cs)), row, map[]);
      assert vs[0] == EvalExpr(g, Resolve(CompareExpr(owner, cs[0])), row, map[]);
      assert vs[1..] == EvalAll(g, ResolveAll(CompareExprs(owner, cs[1..])), row, map[]);
      assert forall c | c in cs :: c == cs[0] || c in cs[1..];
      assert forall c | c in cs[1..] :: c in cs;
    }
  }

  lemma FilterMeaning(g: Engine, owner: string, p: Predicate, row: Row)
    ensures EvalExpr(g, Resolve(FilterExpr(owner, p)), row, map[]) == Bool(true) <==> Satisfies(p, row)
  {
    match p
    case One(c) => CompareMeaning(g, owner, c, row);
    case Flat(isAnd, operands, negated) =>
      FlatMeaning(g, owner, operands, row);
      hide Decides, CompareExprs, Conjunction, Disjunction;
      var e := Apply(if isAnd then And else Or, CompareExprs(owner, operands));
      EvalTwo(g, e, e, row, map[]);
      EvalTwo(g, Resolve(e), Resolve(e), row, map[]);
  }

  lemma TemporalMeaning(g: Engine, owner: string, field: string, start: int, end: int, row: Row)
    ensures var column := Column(LeftRel, field);
            var e := Apply(And, [Apply(Compare(Ge), [column, Placeholder(Slot(owner, Instant(start)))]),
                                 Apply(Compare(Lt), [column, Placeholder(Slot(owner, Instant(end)))])]);
            EvalExpr(g, Resolve(e), row, map[]) == Bool(true) <==> Get(row, field).Instant? && start <= Get(row, field).t < end
  {
    var column, a, b := Column(LeftRel, field), Placeholder(Slot(owner, Instant(start))), Placeholder(Slot(owner, Instant(end)));
    EvalTwo(g, column, a, row, map[]);
    EvalTwo(g, column, b, row, map[]);
    EvalTwo(g, column, Literal(Instant(start)), row, map[]);
    EvalTwo(g, column, Literal(Instant(end)), row, map[]);
    var x, y := Apply(Compare(Ge), [column, a]), Apply(Compare(Lt), [column, b]);
    EvalTwo(g, x, y, row, map[]);
    EvalTwo(g, Resolve(x), Resolve(y), row, map[]);
    var v, w := EvalExpr(g, Resolve(x), row, map[]), EvalExpr(g, Resolve(y), row, map[]);
    assert [v, w][1..] == [w] && [w][1..] == [];
    assert Conjunction([w]) == (if w == Bool(false) then Bool(false) else if w == Bool(true) then Bool(true) else Null);
  }

  lemma PlanarMeaning(g: Engine, a: Expr, b: Expr, lat: Slot, lon: Slot, row: Row)
    requires a.Column? && a.side.LeftRel? && b.Column? && b.side.LeftRel? && lat.value.Number? && lon.value.Number?
    ensures var x, y := Get(row, a.name), Get(row, b.name);
            EvalExpr(g, Resolve(Apply(PlanarKm, [a, Placeholder(lat), b, Placeholder(lon), Placeholder(lat)])), row, map[])
            == if x.Number? && y.Number? then Number(g.planar(x.n, lat.value.n, y.n, lon.value.n, lat.value.n)) else Null
  {
    var args := [a, Placeholder(lat), b, Placeholder(lon), Placeholder(lat)];
    var vs := [Get(row, a.name), lat.value, Get(row, b.name), lon.value, lat.value];
    FiveValues(g, args, vs, row);
    assert EvalExpr(g, Resolve(Apply(PlanarKm, args)), row, map[]) == Interpret(g, PlanarKm, vs);
    assert AllNumbers(vs) <==> vs[0].Number? && vs[2].Number? by {
      assert vs[0] in vs && vs[2] in vs;
    }
  }

  lemma SpatialFilterMeaning(g: Engine, a: Expr, b: Expr, lat: Slot, lon: Slot, radius: Slot, row: Row)
    requires a.Column? && a.side.LeftRel? && b.Column? && b.side.LeftRel?
    requires lat.value.Number? && lon.value.Number? && radius.value.Number?
    ensures var e := Apply(Compare(Le), [Apply(PlanarKm, [a, Placeholder(lat), b, Placeholder(lon), Placeholder(lat)]), Placeholder(radius)]);
            var x, y := Get(row, a.name), Get(row, b.name);
            EvalExpr(g, Resolve(e), row, map[]) == Bool(true)
            <==> x.Number? && y.Number? && g.planar(x.n, lat.value.n, y.n, lon.value.n, lat.value.n) <= radius.value.n
  {
    var planar := Apply(PlanarKm, [a, Placeholder(lat), b, Placeholder(lon), Placeholder(lat)]);
    PlanarMeaning(g, a, b, lat, lon, row);
    EvalTwo(g, planar, Placeholder(radius), row, map[]);
    EvalTwo(g, Resolve(planar), Literal(radius.value), row, map[]);
  }

  lemma FiveValues(g: Engine, args: seq<Expr>, vs: seq<Value>, row: Row)
    requires |args| == 5 && |vs| == 5
    requires forall i | 0 <= i < 5 :: EvalExpr(g, Resolve(args[i]), row, map[]) == vs[i]
    ensures EvalAll(g, ResolveAll(args), row, map[]) == vs
  {
    EvalResolved(g, args, row, map[]);
  }

  lemma {:induction false} EvalResolved(g: Engine, es: seq<Expr>, l: Row, r: Row)
    ensures |EvalAll(g, ResolveAll(es), l, r)| == |es|
    ensures forall i | 0 <= i < |es| :: EvalAll(g, ResolveAll(es), l, r)[i] == EvalExpr(g, Resolve(es[i]), l, r)
  {
    if es != [] {
      EvalResolved(g, es[1..], l, r);
      assert ResolveAll(es)[1..] == ResolveAll(es[1..]);
    }
  }

  ghost predicate Filters(g: Engine, e: Expr, kind: Kind, pair: (string, string)) {
    forall row: Row :: EvalExpr(g, e, row, map[]) == Bool(true) <==> Keeps(g, kind, pair, row)
  }

  lemma {:induction false} WhereMeaning(g: Engine, e: Expr, kind: Kind, pair: (string, string), rows: seq<Row>)
    requires Filters(g, e, kind, pair)
    ensures WhereRows(g, e, rows) == KeepRows(g, kind, pair, rows)
  {
    if rows != [] {
      WhereMeaning(g, e, kind, pair, rows[1..]);
      assert EvalExpr(g, e, rows[0], map[]) == Bool(true) <==> Keeps(g, kind, pair, rows[0]);
    }
  }

  // ----- row rewriting -----

  lemma MaskExprMeaning(g: Engine, owner: string, how: MaskMethod, field: string, source: Row)
    ensures EvalExpr(g, Resolve(MaskExpr(owner, how, field)), source, map[]) == MaskValue(g, how, Get(source, field))
  {
    var mark := Placeholder(Slot(owner, Redacted()));
    EvalTwo(g, mark, mark, source, map[]);
    EvalTwo(g, Literal(Redacted()), mark, source, map[]);
    EvalTwo(g, Column(LeftRel, field), mark, source, map[]);
  }

  ghost function Masked(g: Engine, how: MaskMethod, fields: seq<string>, source: Row): Row {
    map f | f in fields :: MaskValue(g, how, Get(source, f))
  }

  lemma MaskedFirst(g: Engine, how: MaskMethod, fields: seq<string>, source: Row, row: Row)
    requires fields != []
    ensures row[fields[0] := MaskValue(g, how, Get(source, fields[0]))] + Masked(g, how, fields[1..], source)
            == row + Masked(g, how, fields, source)
  {
    hide MaskValue;
    assert forall f | f in fields :: f == fields[0] || f in fields[1..];
  }

  lemma {:induction false} MaskMeaning(g: Engine, owner: string, how: MaskMethod, fields: seq<string>, source: Row, row: Row)
    ensures ReplaceRow(g, ResolveReplacements(MaskItems(owner, how, fields)), source, row) == row + Masked(g, how, fields, source)
  {
    if fields == [] {
      assert row + Masked(g, how, fields, source) == row;
    } else {
      MaskExprMeaning(g, owner, how, fields[0], source);
      hide MaskExpr, MaskValue, Resolve, Masked, EvalExpr;
      var value := MaskValue(g, how, Get(source, fields[0]));
      MaskMeaning(g, owner, how, fields[1..], source, row[fields[0] := value]);
      MaskedFirst(g, how, fields, source, row);
      assert MaskItems(owner, how, fields)[1..] == MaskItems(owner, how, fields[1..]);
      assert ResolveReplacements(MaskItems(owner, how, fields))[1..] == ResolveReplacements(MaskItems(owner, how, fields[1..]));
    }
  }

  lemma CellMeaning(g: Engine, v: Value, anchor: real, step: real)
    ensures Interpret(g, Grid(anchor), [v, Number(step), Number(step), Number(step)]) == CellCentre(v, anchor, step)
  {
    var vs := [v, Number(step), Number(step), Number(step)];
    assert vs[0] in vs;
    if v.Number? {
      assert AllNumbers(vs);
      assert Interpret(g, Grid(anchor), vs) == GridCell(v.n, anchor, step, step, step);
    } else {
      assert !AllNumbers(vs);
    }
  }

  lemma GridMeaning(g: Engine, owner: string, step: real, field: string, anchor: real, source: Row)
    ensures EvalExpr(g, Resolve(GridItem(owner, Number(step), field, anchor).expr), source, map[])
            == CellCentre(Get(source, field), anchor, step)
  {
    hide Interpret, CellCentre;
    var p := Placeholder(Slot(owner, Number(step)));
    var args := [Column(LeftRel, field), p, p, p];
    var vs := [Get(source, field), Number(step), Number(step), Number(step)];
    EvalResolved(g, args, source, map[]);
    assert EvalAll(g, ResolveAll(args), source, map[]) == vs;
    CellMeaning(g, Get(source, field), anchor, step);
  }

  lemma ReplaceTwo(g: Engine, a: Replacement, b: Replacement, source: Row, row: Row)
    ensures ReplaceRow(g, ResolveReplacements([a, b]), source, row)
            == row[a.column := EvalExpr(g, Resolve(a.expr), source, map[])][b.column := EvalExpr(g, Resolve(b.expr), source, map[])]
  {
    hide Resolve, EvalExpr;
    assert [a, b][1..] == [b] && [b][1..] == [];
    var x, y := Replacement(Resolve(a.expr), a.column), Replacement(Resolve(b.expr), b.column);
    assert ResolveReplacements([b]) == [y] + ResolveReplacements([]);
    assert ResolveReplacements([a, b]) == [x, y];
    assert [x, y][1..] == [y] && [y][1..] == [];
    var first := row[a.column := EvalExpr(g, x.expr, source, map[])];
    assert ReplaceRow(g, [y], source, first) == ReplaceRow(g, [], source, first[b.column := EvalExpr(g, y.expr, source, map[])]);
  }

  lemma GridRowMeaning(g: Engine, owner: string, km: real, pair: SpatialDescriptor, coordinates: seq<string>, row: Row)
    ensures var step := Number(GridStep(km));
            ReplaceRow(g, ResolveReplacements([GridItem(owner, step, pair.latitude, 90.0), GridItem(owner, step, pair.longitude, 180.0)]), row, row)
            == RewriteRow(g, GeneralizeLocation(coordinates, km), (pair.latitude, pair.longitude), row)
  {
    var step := GridStep(km);
    GridMeaning(g, owner, step, pair.latitude, 90.0, row);
    GridMeaning(g, owner, step, pair.longitude, 180.0, row);
    ReplaceTwo(g, GridItem(owner, Number(step), pair.latitude, 90.0), GridItem(owner, Number(step), pair.longitude, 180.0), row, row);
  }

  ghost predicate Rewrites(g: Engine, items: seq<Replacement>, kind: Kind, pair: (string, string)) {
    forall row: Row :: ReplaceRow(g, items, row, row) == RewriteRow(g, kind, pair, row)
  }

  lemma {:induction false} ReplaceMeaning(g: Engine, items: seq<Replacement>, kind: Kind, pair: (string, string), rows: seq<Row>)
    requires Rewrites(g, items, kind, pair)
    ensures ReplaceRows(g, items, rows) == RewriteRows(g, kind, pair, rows)
  {
    if rows != [] {
      ReplaceMeaning(g, items, kind, pair, rows[1..]);
      assert ReplaceRow(g, items, rows[0], rows[0]) == RewriteRow(g, kind, pair, rows[0]);
    }
  }

  lemma {:induction false} NarrowMeaning(g: Engine, kind: Kind, pair: (string, string), rows: seq<Row>)
    requires kind.Project?
    ensures NarrowRows(kind.fields, rows) == RewriteRows(g, kind, pair, rows)
  {
    if rows != [] { NarrowMeaning(g, kind, pair, rows[1..]); }
  }

  // ----- aggregates -----

  lemma {:induction false} FactorsMeaning(g: Engine, owner: string, fs: seq<Factor>, row: Row)
    ensures EvalAll(g, ResolveAll(FactorExprs(owner, fs)), row, map[]) == FactorValues(fs, row)
  {
    if fs != [] {
      FactorsMeaning(g, owner, fs[1..], row);
      var es := FactorExprs(owner, fs);
      assert es[1..] == FactorExprs(owner, fs[1..]) && ResolveAll(es)[1..] == ResolveAll(es[1..]);
      FactorMeaning(g, owner, fs[0], row);
      assert es[0] == FactorExprs(owner, [fs[0]])[0];
    }
  }

  lemma FactorMeaning(g: Engine, owner: string, f: Factor, row: Row)
    ensures EvalExpr(g, Resolve(FactorExprs(owner, [f])[0]), row, map[]) == FactorValue(f, row)
  {
    var column := Column(LeftRel, f.name);
    if f.Affine? {
      EvalTwo(g, Placeholder(Slot(owner, f.constant)), column, row, map[]);
      EvalTwo(g, Literal(f.constant), column, row, map[]);
      var vs := [f.constant, Get(row, f.name)];
      assert AllNumbers(vs) <==> vs[0].Number? && vs[1].Number? by { assert vs[0] in vs && vs[1] in vs; }
    }
  }

  lemma {:induction false} ArgumentsMeaning(g: Engine, owner: string, aggregates: seq<Aggregation>, row: Row)
    ensures Arguments(g, ResolveAggregates(AggregateItems(owner, aggregates)), row) == InputValues(aggregates, row)
    ensures Signatures(ResolveAggregates(AggregateItems(owner, aggregates))) == AggregateSignatures(aggregates)
  {
    if aggregates != [] {
      ArgumentsMeaning(g, owner, aggregates[1..], row);
      var a := aggregates[0];
      if !a.fn.Count? && a.input.Formula? { FactorsMeaning(g, owner, a.input.factors, row); }
      var items := AggregateItems(owner, aggregates);
      assert items[1..] == AggregateItems(owner, aggregates[1..]);
      assert ResolveAggregates(items)[1..] == ResolveAggregates(items[1..]);
    }
  }

  lemma {:induction false} ArgumentRowsMeaning(g: Engine, owner: string, aggregates: seq<Aggregation>, rows: seq<Row>)
    ensures ArgumentRows(g, ResolveAggregates(AggregateItems(owner, aggregates)), rows) == InputRows(aggregates, rows)
  {
    if rows != [] {
      ArgumentsMeaning(g, owner, aggregates, rows[0]);
      ArgumentRowsMeaning(g, owner, aggregates, rows[1..]);
    }
  }

  // ----- joins -----

  function Reach(g: Engine, km: real): real {
    g.degrees(km / 6371.0088)
  }

  function Gap(a: real, b: real): real {
    if a >= b then a - b else b - a
  }

  predicate OnGlobe(latitude: real) {
    -90.0 <= latitude <= 90.0
  }

  /** Between two latitudes on the globe, a point within the distance is within the latitude band the join tests first. */
  ghost predicate LatitudeBoundSound(g: Engine) {
    forall a, b, c, d, km: real :: OnGlobe(a) && OnGlobe(b) && g.haversine(a, b, c, d) <= km ==> Gap(a, b) <= Reach(g, km)
  }

  /** The latitude band a spatial join tests before the distance. */
  predicate InBand(g: Engine, kind: Kind, l: Row, r: Row) {
    kind.SpatialJoin? && kind.distanceKm.Some? ==>
      var a, b := Get(r, kind.rightLatitude), Get(l, kind.leftLatitude);
      a.Number? && b.Number? && Gap(a.n, b.n) <= Reach(g, kind.distanceKm.value)
  }

  /** The band drops no pair that joins. */
  predicate BandKeeps(g: Engine, kind: Kind, lefts: seq<Row>, rights: seq<Row>) {
    forall l, r | l in lefts && r in rights && Joins(g, kind, l, r) :: InBand(g, kind, l, r)
  }

  /** So at every join of the plan. */
  ghost predicate BandHarmless(g: Engine, s: Source, t: Tree) {
    match t
    case Scan(_, _) => true
    case Unary(_, _, input) => BandHarmless(g, s, input)
    case Binary(_, kind, left, right) =>
      BandHarmless(g, s, left) && BandHarmless(g, s, right) && BandKeeps(g, kind, Eval(g, s, left).rows, Eval(g, s, right).rows)
  }

  predicate ColumnOnGlobe(rows: seq<Row>, column: string) {
    forall row | row in rows && Get(row, column).Number? :: OnGlobe(Get(row, column).n)
  }

  /** Every spatial join reads latitudes on the globe. */
  ghost predicate LatitudesOnGlobe(g: Engine, s: Source, t: Tree) {
    match t
    case Scan(_, _) => true
    case Unary(_, _, input) => LatitudesOnGlobe(g, s, input)
    case Binary(_, kind, left, right) =>
      && LatitudesOnGlobe(g, s, left) && LatitudesOnGlobe(g, s, right)
      && (kind.SpatialJoin? ==> ColumnOnGlobe(Eval(g, s, left).rows, kind.leftLatitude)
                                && ColumnOnGlobe(Eval(g, s, right).rows, kind.rightLatitude))
  }

  predicate NoSpatialJoin(t: Tree) {
    match t
    case Scan(_, _) => true
    case Unary(_, _, input) => NoSpatialJoin(input)
    case Binary(_, kind, left, right) => !kind.SpatialJoin? && NoSpatialJoin(left) && NoSpatialJoin(right)
  }

  lemma GlobeKeeps(g: Engine, kind: Kind, lefts: seq<Row>, rights: seq<Row>)
    requires LatitudeBoundSound(g)
    requires kind.SpatialJoin? ==> ColumnOnGlobe(lefts, kind.leftLatitude) && ColumnOnGlobe(rights, kind.rightLatitude)
    ensures BandKeeps(g, kind, lefts, rights)
  {
    forall l, r | l in lefts && r in rights && Joins(g, kind, l, r) ensures InBand(g, kind, l, r) {
      if kind.SpatialJoin? {
        var a, b := Get(r, kind.rightLatitude), Get(l, kind.leftLatitude);
        assert OnGlobe(a.n) && OnGlobe(b.n);
      }
    }
  }

  /** Latitudes on the globe are enough for the band to be harmless. */
  lemma {:induction false} OnGlobeIsHarmless(g: Engine, s: Source, t: Tree)
    requires LatitudeBoundSound(g) && LatitudesOnGlobe(g, s, t)
    ensures BandHarmless(g, s, t)
  {
    hide LatitudeBoundSound, BandKeeps, ColumnOnGlobe, Eval;
    match t
    case Scan(_, _) =>
    case Unary(_, _, input) => OnGlobeIsHarmless(g, s, input);
    case Binary(_, kind, left, right) =>
      OnGlobeIsHarmless(g, s, left);
      OnGlobeIsHarmless(g, s, right);
      GlobeKeeps(g, kind, Eval(g, s, left).rows, Eval(g, s, right).rows);
  }

  /** A plan without a spatial join needs nothing of its data or of the distance. */
  lemma {:induction false} NoSpatialJoinIsHarmless(g: Engine, s: Source, t: Tree)
    requires NoSpatialJoin(t)
    ensures BandHarmless(g, s, t)
  {
    hide Eval;
    match t
    case Scan(_, _) =>
    case Unary(_, _, input) => NoSpatialJoinIsHarmless(g, s, input);
    case Binary(_, _, left, right) =>
      NoSpatialJoinIsHarmless(g, s, left);
      NoSpatialJoinIsHarmless(g, s, right);
  }

  lemma BandMeaning(g: Engine, a: Expr, b: Expr, km: Slot, l: Row, r: Row)
    requires a.Column? && b.Column? && km.value.Number?
    ensures var x, y := EvalExpr(g, a, l, r), EvalExpr(g, b, l, r);
            EvalExpr(g, Resolve(Apply(Compare(Le), [Apply(LatitudeGap, [a, b]), Apply(DegreesOfKm, [Placeholder(km)])])), l, r) == Bool(true)
            <==> x.Number? && y.Number? && Gap(x.n, y.n) <= Reach(g, km.value.n)
  {
    var gap, reach := Apply(LatitudeGap, [a, b]), Apply(DegreesOfKm, [Placeholder(km)]);
    EvalTwo(g, a, b, l, r);
    EvalTwo(g, Placeholder(km), a, l, r);
    EvalTwo(g, Literal(km.value), a, l, r);
    EvalTwo(g, gap, reach, l, r);
    EvalTwo(g, Resolve(gap), Resolve(reach), l, r);
    var vs := [EvalExpr(g, a, l, r), EvalExpr(g, b, l, r)];
    assert AllNumbers(vs) <==> vs[0].Number? && vs[1].Number? by { assert vs[0] in vs && vs[1] in vs; }
  }

  lemma DistanceMeaning(g: Engine, es: seq<Expr>, km: Slot, l: Row, r: Row)
    requires |es| == 4 && km.value.Number?
    requires forall e | e in es :: e.Column?
    ensures var vs := EvalAll(g, ResolveAll(es), l, r);
            && |vs| == 4 && (forall i | 0 <= i < 4 :: vs[i] == EvalExpr(g, es[i], l, r))
            && (EvalExpr(g, Resolve(Apply(Compare(Le), [Apply(HaversineKm, es), Placeholder(km)])), l, r) == Bool(true)
                <==> AllNumbers(vs) && g.haversine(vs[0].n, vs[1].n, vs[2].n, vs[3].n) <= km.value.n)
  {
    EvalResolved(g, es, l, r);
    var far := Apply(HaversineKm, es);
    EvalTwo(g, far, Placeholder(km), l, r);
    EvalTwo(g, Resolve(far), Literal(km.value), l, r);
    assert forall i | 0 <= i < 4 :: es[i] in es;
  }

  lemma BothTrue(g: Engine, a: Expr, b: Expr, l: Row, r: Row)
    ensures EvalExpr(g, Resolve(Apply(And, [a, b])), l, r) == Bool(true)
            <==> EvalExpr(g, Resolve(a), l, r) == Bool(true) && EvalExpr(g, Resolve(b), l, r) == Bool(true)
  {
    EvalTwo(g, a, b, l, r);
    EvalTwo(g, Resolve(a), Resolve(b), l, r);
    var x, y := EvalExpr(g, Resolve(a), l, r), EvalExpr(g, Resolve(b), l, r);
    BothTrueValues(x, y);
    hide Conjunction;
  }

  lemma BothTrueValues(x: Value, y: Value)
    ensures Conjunction([x, y]) == Bool(true) <==> x == Bool(true) && y == Bool(true)
  {
    assert [x, y][1..] == [y] && [y][1..] == [];
    assert Conjunction([y]) == (if y == Bool(false) then Bool(false) else if y == Bool(true) then Bool(true) else Null);
  }

  lemma SpatialJoinMeaning(g: Engine, kind: Kind, owner: string, l: Row, r: Row)
    requires kind.SpatialJoin? && BinaryOn(kind, owner).Ok?
    ensures EvalExpr(g, Resolve(BinaryOn(kind, owner).value.0), l, r) == Bool(true)
            <==> Joins(g, kind, l, r) && InBand(g, kind, l, r)
  {
    var km := Slot(owner, Number(kind.distanceKm.value));
    var a, b := Column(RightRel, kind.rightLatitude), Column(LeftRel, kind.leftLatitude);
    var es := [a, b, Column(RightRel, kind.rightLongitude), Column(LeftRel, kind.leftLongitude)];
    var band := Apply(Compare(Le), [Apply(LatitudeGap, [a, b]), Apply(DegreesOfKm, [Placeholder(km)])]);
    var within := Apply(Compare(Le), [Apply(HaversineKm, es), Placeholder(km)]);
    BandMeaning(g, a, b, km, l, r);
    DistanceMeaning(g, es, km, l, r);
    BothTrue(g, band, within, l, r);
    hide Resolve, Interpret, EvalAll;
    var vs := EvalAll(g, ResolveAll(es), l, r);
    assert AllNumbers(vs) <==> vs[0].Number? && vs[1].Number? && vs[2].Number? && vs[3].Number? by {
      assert vs[0] in vs && vs[1] in vs && vs[2] in vs && vs[3] in vs;
    }
  }

  lemma EquiJoinMeaning(g: Engine, kind: Kind, owner: string, l: Row, r: Row)
    requires kind.Join?
    ensures EvalExpr(g, Resolve(BinaryOn(kind, owner).value.0), l, r) == Bool(true) <==> Joins(g, kind, l, r)
  {
    EvalResolved(g, [Column(LeftRel, kind.leftField), Column(RightRel, kind.rightField)], l, r);
  }

  ghost predicate Pairs(g: Engine, on: Expr, kind: Kind) {
    forall l: Row, r: Row :: EvalExpr(g, on, l, r) == Bool(true) <==> Joins(g, kind, l, r) && InBand(g, kind, l, r)
  }

  /** One left row: the matches are its partners exactly when the band drops none of them, and are fewer otherwise. */
  lemma {:induction false} MatchExact(g: Engine, on: Expr, kind: Kind, l: Row, rights: seq<Row>)
    requires Pairs(g, on, kind)
    ensures BandKeeps(g, kind, [l], rights) ==> MatchRows(g, on, l, rights) == Partners(g, kind, l, rights)
    ensures !BandKeeps(g, kind, [l], rights) ==> |MatchRows(g, on, l, rights)| < |Partners(g, kind, l, rights)|
  {
    if rights != [] {
      MatchExact(g, on, kind, l, rights[1..]);
      assert EvalExpr(g, on, l, rights[0]) == Bool(true) <==> Joins(g, kind, l, rights[0]) && InBand(g, kind, l, rights[0]);
      assert forall r :: r in rights <==> r == rights[0] || r in rights[1..];
      hide Joins, InBand;
      assert BandKeeps(g, kind, [l], rights)
             <==> (Joins(g, kind, l, rights[0]) ==> InBand(g, kind, l, rights[0])) && BandKeeps(g, kind, [l], rights[1..]);
    }
  }

  lemma BandKeepsSplit(g: Engine, kind: Kind, lefts: seq<Row>, rights: seq<Row>)
    requires lefts != []
    ensures BandKeeps(g, kind, lefts, rights) <==> BandKeeps(g, kind, [lefts[0]], rights) && BandKeeps(g, kind, lefts[1..], rights)
  {
    hide Joins, InBand;
    assert forall l :: l in lefts <==> l in [lefts[0]] || l in lefts[1..];
  }

  lemma {:induction false} JoinMeaning(g: Engine, on: Expr, kind: Kind, lefts: seq<Row>, right: Relation)
    requires Pairs(g, on, kind) && BandKeeps(g, kind, lefts, right.rows)
    ensures JoinRows(g, kind.Join? && kind.leftOuter, on, lefts, right) == PairRows(g, kind, lefts, right)
  {
    if lefts != [] {
      MatchExact(g, on, kind, lefts[0], right.rows);
      BandKeepsSplit(g, kind, lefts, right.rows);
      hide BandKeeps, Pairs, MatchRows, Partners;
      JoinMeaning(g, on, kind, lefts[1..], right);
    }
  }

  /** The spatial join returns fewer rows as soon as the band drops one pair. */
  lemma {:induction false} JoinLoses(g: Engine, on: Expr, kind: Kind, lefts: seq<Row>, right: Relation)
    requires Pairs(g, on, kind) && kind.SpatialJoin?
    ensures |JoinRows(g, false, on, lefts, right)| <= |PairRows(g, kind, lefts, right)|
    ensures !BandKeeps(g, kind, lefts, right.rows) ==> |JoinRows(g, false, on, lefts, right)| < |PairRows(g, kind, lefts, right)|
  {
    if lefts != [] {
      MatchExact(g, on, kind, lefts[0], right.rows);
      BandKeepsSplit(g, kind, lefts, right.rows);
      hide BandKeeps, Pairs, MatchRows, Partners;
      JoinLoses(g, on, kind, lefts[1..], right);
    }
  }

  /** One row on either side, and they join. */
  lemma OnePair(g: Engine, kind: Kind, l: Row, right: Relation, r: Row)
    requires right.rows == [r] && Joins(g, kind, l, r)
    ensures PairRows(g, kind, [l], right) == [l + r]
  {
    hide Joins;
    assert right.rows[1..] == [] && [l][1..] == [];
    assert Partners(g, kind, l, [r]) == [l + r] + Partners(g, kind, l, []);
    assert PairRows(g, kind, [l], right) == Partners(g, kind, l, right.rows) + PairRows(g, kind, [], right);
  }

  lemma OneRewritten(g: Engine, kind: Kind, pair: (string, string), row: Row)
    ensures RewriteRows(g, kind, pair, [row]) == [RewriteRow(g, kind, pair, row)]
  {
    hide RewriteRow;
    assert [row][1..] == [];
    assert RewriteRows(g, kind, pair, [row]) == [RewriteRow(g, kind, pair, row)] + RewriteRows(g, kind, pair, []);
  }

  lemma BinaryPairs(g: Engine, kind: Kind, owner: string)
    requires BinaryOn(kind, owner).Ok?
    ensures Pairs(g, Resolve(BinaryOn(kind, owner).value.0), kind)
  {
    var on := Resolve(BinaryOn(kind, owner).value.0);
    forall l: Row, r: Row ensures EvalExpr(g, on, l, r) == Bool(true) <==> Joins(g, kind, l, r) && InBand(g, kind, l, r) {
      if kind.Join? { EquiJoinMeaning(g, kind, owner, l, r); } else { SpatialJoinMeaning(g, kind, owner, l, r); }
    }
  }

  // ----- one operator -----

  /** The coordinate pair the compiler used is the one the operator is about. */
  ghost predicate PairUsed(catalog: Catalog, kind: Kind, schema: Schema, scan: Option<string>, pair: (string, string)) {
    match kind
    case SpatialFilter(_, _, _) => pair == PairOfDataset(catalog, scan)
    case GeneralizeLocation(coordinates, _) =>
      GridPair(schema, coordinates).Some? ==>
        pair == (GridPair(schema, coordinates).value.latitude, GridPair(schema, coordinates).value.longitude)
    case _ => true
  }

  lemma FilterOperator(g: Engine, catalog: Catalog, owner: string, kind: Kind, schema: Schema, scan: Option<string>, pair: (string, string))
    requires kind.Filter? || kind.TemporalFilter? || kind.SpatialFilter?
    requires UnaryTemplate(catalog, owner, kind, schema, scan).Ok?
    requires PairUsed(catalog, kind, schema, scan, pair)
    ensures Filters(g, Resolve(UnaryTemplate(catalog, owner, kind, schema, scan).value.suffix.condition), kind, pair)
  {
    var e := UnaryTemplate(catalog, owner, kind, schema, scan).value.suffix.condition;
    forall row: Row ensures EvalExpr(g, Resolve(e), row, map[]) == Bool(true) <==> Keeps(g, kind, pair, row) {
      match kind
      case Filter(p) => FilterMeaning(g, owner, p, row);
      case TemporalFilter(field, start, end) => TemporalMeaning(g, owner, field, start, end, row);
      case SpatialFilter(latitude, longitude, radiusKm) =>
        SpatialFilterMeaning(g, Column(LeftRel, pair.0), Column(LeftRel, pair.1), Slot(owner, Number(latitude)),
                             Slot(owner, Number(longitude)), Slot(owner, Number(radiusKm)), row);
    }
  }

  lemma RewriteOperator(g: Engine, catalog: Catalog, owner: string, kind: Kind, schema: Schema, scan: Option<string>, pair: (string, string))
    requires kind.Mask? || kind.GeneralizeLocation?
    requires UnaryTemplate(catalog, owner, kind, schema, scan).Ok?
    requires PairUsed(catalog, kind, schema, scan, pair)
    ensures Rewrites(g, ResolveReplacements(UnaryTemplate(catalog, owner, kind, schema, scan).value.list.items), kind, pair)
  {
    var items := UnaryTemplate(catalog, owner, kind, schema, scan).value.list.items;
    forall row: Row ensures ReplaceRow(g, ResolveReplacements(items), row, row) == RewriteRow(g, kind, pair, row) {
      match kind
      case Mask(masked, how) => MaskMeaning(g, owner, how, masked, row, row);
      case GeneralizeLocation(coordinates, km) =>
        GridRowMeaning(g, owner, km, GridPair(schema, coordinates).value, coordinates, row);
    }
  }

  /** The text an operator adds computes what the operator means. */
  lemma OperatorMeaning(g: Engine, catalog: Catalog, owner: string, kind: Kind, schema: Schema, scan: Option<string>,
                        pair: (string, string), rel: Relation)
    requires UnaryTemplate(catalog, owner, kind, schema, scan).Ok?
    requires PairUsed(catalog, kind, schema, scan, pair)
    ensures var t := UnaryTemplate(catalog, owner, kind, schema, scan).value;
            RunList(g, ResolveList(t.list), Relation(rel.columns, RunSuffix(g, ResolveSuffix(t.suffix), rel.rows)))
            == Operate(g, kind, pair, rel)
  {
    var t := UnaryTemplate(catalog, owner, kind, schema, scan).value;
    hide FilterExpr, MaskItems, GridItem, AggregateItems, GroupRows, SortRows, Resolve, PairUsed, Filters, Rewrites, GridPair, MaskProblem;
    if kind.Filter? || kind.TemporalFilter? || kind.SpatialFilter? {
      FilterOperator(g, catalog, owner, kind, schema, scan, pair);
      WhereMeaning(g, Resolve(t.suffix.condition), kind, pair, rel.rows);
      return;
    }
    match kind
    case Project(fields) => NarrowMeaning(g, kind, pair, rel.rows);
    case Limit(n) => LimitMeaning(g, owner, n, rel.rows);
    case Aggregate(groupBy, aggregates) =>
      ArgumentsMeaning(g, owner, aggregates, map[]);
      ArgumentRowsMeaning(g, owner, aggregates, rel.rows);
    case Mask(_, _) =>
      RewriteOperator(g, catalog, owner, kind, schema, scan, pair);
      ReplaceMeaning(g, ResolveReplacements(t.list.items), kind, pair, rel.rows);
    case GeneralizeLocation(_, _) =>
      RewriteOperator(g, catalog, owner, kind, schema, scan, pair);
      ReplaceMeaning(g, ResolveReplacements(t.list.items), kind, pair, rel.rows);
    case _ =>
  }

  lemma LimitMeaning(g: Engine, owner: string, n: nat, rows: seq<Row>)
    ensures FirstRows(EvalExpr(g, Resolve(Placeholder(Slot(owner, Number(n as real)))), map[], map[]), rows)
            == if n <= |rows| then rows[..n] else rows
  {}

  // ----- the whole plan -----

  /** Every SpatialFilter is compiled against the unique scan below it. */
  predicate ScansFound(cfg: Config, t: Tree) {
    match t
    case Scan(_, _) => true
    case Unary(_, kind, input) => ScansFound(cfg, input) && (kind.SpatialFilter? && !cfg.corrected ==> !Drops(input))
    case Binary(_, _, left, right) => ScansFound(cfg, left) && ScansFound(cfg, right)
  }

  lemma PairsAgree(cfg: Config, kind: Kind, input: Tree)
    requires Consistent(input) && (kind.SpatialFilter? && !cfg.corrected ==> !Drops(input))
    ensures PairUsed(cfg.catalog, kind, SchemaOf(cfg.catalog, input), FilterScan(cfg, input), PairOf(cfg.catalog, kind, input))
  {
    if kind.SpatialFilter? && !cfg.corrected { AncestorExact(input); }
  }

  lemma BoundaryMeaning(g: Engine, cfg: Config, db: Database, id: string, f: Fragment)
    ensures Exec(g, db, ResolveQuery(Boundary(cfg, id, f).sql)) == Exec(g, db, ResolveQuery(f.sql))
  {
    hide BoundaryName;
  }

  lemma UnaryMeaning(g: Engine, cfg: Config, db: Database, id: string, kind: Kind, input: Tree)
    requires Compile(cfg, Unary(id, kind, input)).Ok? && Compile(cfg, input).Ok?
    requires PairUsed(cfg.catalog, kind, SchemaOf(cfg.catalog, input), FilterScan(cfg, input), PairOf(cfg.catalog, kind, input))
    requires Exec(g, db, ResolveQuery(Compile(cfg, input).value.sql)) == Eval(g, Source(cfg.catalog, cfg.bindings, db), input)
    ensures Exec(g, db, ResolveQuery(Compile(cfg, Unary(id, kind, input)).value.sql))
            == Eval(g, Source(cfg.catalog, cfg.bindings, db), Unary(id, kind, input))
  {
    hide UnaryTemplate, SchemaOf, FilterScan, PairOf, PairUsed, Boundary, RunList, RunSuffix, ResolveList, ResolveSuffix;
    var schema, scan, pair := SchemaOf(cfg.catalog, input), FilterScan(cfg, input), PairOf(cfg.catalog, kind, input);
    var below := Compile(cfg, input).value;
    var f := CompileUnary(cfg, id, kind, schema, scan, below);
    BoundaryMeaning(g, cfg, db, id, f.value);
    var rel := Eval(g, Source(cfg.catalog, cfg.bindings, db), input);
    if kind.LineageCapture? {
      PassThrough(g, kind, pair, rel.rows);
    } else {
      OperatorMeaning(g, cfg.catalog, id, kind, schema, scan, pair, rel);
    }
  }

  lemma {:induction false} PassThrough(g: Engine, kind: Kind, pair: (string, string), rows: seq<Row>)
    requires kind.LineageCapture?
    ensures KeepRows(g, kind, pair, rows) == rows
  {
    if rows != [] { PassThrough(g, kind, pair, rows[1..]); }
  }

  /** What the statement of a join returns, before the band is compared with the meaning. */
  lemma JoinRuns(g: Engine, cfg: Config, db: Database, id: string, kind: Kind, left: Tree, right: Tree)
    requires Compile(cfg, Binary(id, kind, left, right)).Ok? && Compile(cfg, left).Ok? && Compile(cfg, right).Ok?
    requires Exec(g, db, ResolveQuery(Compile(cfg, left).value.sql)) == Eval(g, Source(cfg.catalog, cfg.bindings, db), left)
    requires Exec(g, db, ResolveQuery(Compile(cfg, right).value.sql)) == Eval(g, Source(cfg.catalog, cfg.bindings, db), right)
    ensures BinaryOn(kind, id).Ok? && Pairs(g, Resolve(BinaryOn(kind, id).value.0), kind)
    ensures var s := Source(cfg.catalog, cfg.bindings, db);
            var l, r := Eval(g, s, left), Eval(g, s, right);
            Exec(g, db, ResolveQuery(Compile(cfg, Binary(id, kind, left, right)).value.sql))
            == Relation(l.columns + r.columns,
                        JoinRows(g, kind.Join? && kind.leftOuter, Resolve(BinaryOn(kind, id).value.0), l.rows, r))
  {
    hide Boundary, Pairs;
    var f := CompileBinary(kind, id, Compile(cfg, left).value, Compile(cfg, right).value);
    BoundaryMeaning(g, cfg, db, id, f.value);
    BinaryPairs(g, kind, id);
  }

  lemma BinaryMeaning(g: Engine, cfg: Config, db: Database, id: string, kind: Kind, left: Tree, right: Tree)
    requires Compile(cfg, Binary(id, kind, left, right)).Ok? && Compile(cfg, left).Ok? && Compile(cfg, right).Ok?
    requires BandHarmless(g, Source(cfg.catalog, cfg.bindings, db), Binary(id, kind, left, right))
    requires Exec(g, db, ResolveQuery(Compile(cfg, left).value.sql)) == Eval(g, Source(cfg.catalog, cfg.bindings, db), left)
    requires Exec(g, db, ResolveQuery(Compile(cfg, right).value.sql)) == Eval(g, Source(cfg.catalog, cfg.bindings, db), right)
    ensures Exec(g, db, ResolveQuery(Compile(cfg, Binary(id, kind, left, right)).value.sql))
            == Eval(g, Source(cfg.catalog, cfg.bindings, db), Binary(id, kind, left, right))
  {
    JoinRuns(g, cfg, db, id, kind, left, right);
    hide Exec, Compile, Pairs, BandKeeps, JoinRows, PairRows;
    var s := Source(cfg.catalog, cfg.bindings, db);
    JoinMeaning(g, Resolve(BinaryOn(kind, id).value.0), kind, Eval(g, s, left).rows, Eval(g, s, right));
  }

  /** The compiled statement, every placeholder holding what its operator meant, computes the plan's rows,
      wherever the storage boundary is placed, if no latitude band drops a pair its distance test would keep. */
  lemma {:induction false} ResolvedMeaning(g: Engine, cfg: Config, db: Database, t: Tree)
    requires Compile(cfg, t).Ok? && Consistent(t) && ScansFound(cfg, t)
    requires BandHarmless(g, Source(cfg.catalog, cfg.bindings, db), t)
    ensures Exec(g, db, ResolveQuery(Compile(cfg, t).value.sql)) == Eval(g, Source(cfg.catalog, cfg.bindings, db), t)
  {
    match t
    case Scan(id, dataset) =>
      BoundaryMeaning(g, cfg, db, id, CompileScan(cfg, dataset).value);
    case Unary(id, kind, input) =>
      ResolvedMeaning(g, cfg, db, input);
      PairsAgree(cfg, kind, input);
      UnaryMeaning(g, cfg, db, id, kind, input);
    case Binary(id, kind, left, right) =>
      ResolvedMeaning(g, cfg, db, left);
      ResolvedMeaning(g, cfg, db, right);
      BinaryMeaning(g, cfg, db, id, kind, left, right);
  }

  /** A spatial join over such inputs keeps its meaning if its own band drops no joining pair, and returns too few rows
      otherwise. */
  lemma ResolvedJoinExact(g: Engine, cfg: Config, db: Database, id: string, kind: Kind, left: Tree, right: Tree)
    requires kind.SpatialJoin? && Compile(cfg, Binary(id, kind, left, right)).Ok?
    requires Consistent(Binary(id, kind, left, right)) && ScansFound(cfg, Binary(id, kind, left, right))
    requires var s := Source(cfg.catalog, cfg.bindings, db); BandHarmless(g, s, left) && BandHarmless(g, s, right)
    ensures var s, t := Source(cfg.catalog, cfg.bindings, db), Binary(id, kind, left, right);
            && Exec(g, db, ResolveQuery(Compile(cfg, t).value.sql)).columns == Eval(g, s, t).columns
            && (if BandKeeps(g, kind, Eval(g, s, left).rows, Eval(g, s, right).rows)
                then Exec(g, db, ResolveQuery(Compile(cfg, t).value.sql)) == Eval(g, s, t)
                else |Exec(g, db, ResolveQuery(Compile(cfg, t).value.sql)).rows| < |Eval(g, s, t).rows|)
  {
    var s := Source(cfg.catalog, cfg.bindings, db);
    ResolvedMeaning(g, cfg, db, left);
    ResolvedMeaning(g, cfg, db, right);
    JoinRuns(g, cfg, db, id, kind, left, right);
    hide Exec, Compile, Pairs, BandKeeps, JoinRows, PairRows, BandHarmless, Consistent, ScansFound;
    var on := Resolve(BinaryOn(kind, id).value.0);
    var l, r := Eval(g, s, left), Eval(g, s, right);
    JoinLoses(g, on, kind, l.rows, r);
    if BandKeeps(g, kind, l.rows, r.rows) { JoinMeaning(g, on, kind, l.rows, r); }
  }
}
