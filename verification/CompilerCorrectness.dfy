/** What the compiler promises about whole plans: the right rows, once per operator, with or without a boundary. */
module CompilerCorrectness {
  import opened Wrappers
  import opened Sql
  import opened SqlBinding
  import opened Plan
  import opened Compiler
  import opened ParameterOrder
  import opened ScanAncestor
  import opened CompiledMeaning

  ghost function Run(g: Engine, db: Database, f: Fragment): Relation
    requires Accepts(f.sql, f.parameters)
  {
    Exec(g, db, BindQuery(f.sql, f.parameters))
  }

  ghost function Meaning(g: Engine, cfg: Config, db: Database, t: Tree): Relation {
    Eval(g, Source(cfg.catalog, cfg.bindings, db), t)
  }

  /** Where the pushed parameters are in text order, running the statement is running it correctly bound. */
  lemma AlignedRuns(g: Engine, cfg: Config, db: Database, t: Tree)
    requires !cfg.corrected && ProperTree(t) && Compile(cfg, t).Ok? && Aligned(t)
    ensures Accepts(Compile(cfg, t).value.sql, Compile(cfg, t).value.parameters)
    ensures Run(g, db, Compile(cfg, t).value) == Exec(g, db, ResolveQuery(Compile(cfg, t).value.sql))
  {
    ParameterOrderExact(cfg, t);
    BindQueryIntended(Compile(cfg, t).value.sql);
  }

  lemma TreeRuns(g: Engine, cfg: Config, db: Database, t: Tree)
    requires !cfg.corrected && ProperTree(t) && Consistent(t) && Compile(cfg, t).Ok? && Aligned(t) && ScansFound(cfg, t)
    requires BandHarmless(g, Source(cfg.catalog, cfg.bindings, db), t)
    ensures Accepts(Compile(cfg, t).value.sql, Compile(cfg, t).value.parameters)
    ensures Run(g, db, Compile(cfg, t).value) == Meaning(g, cfg, db, t)
  {
    AlignedRuns(g, cfg, db, t);
    ResolvedMeaning(g, cfg, db, t);
  }

  /** As written: a plan with no redacting Mask or GeneralizeLocation above parameters, no SpatialFilter over a
      dropped ambiguous input, and no latitude band that drops a joining pair, runs to exactly its meaning, each
      parameter used once. */
  lemma CompiledPlanCorrect(g: Engine, cfg: Config, db: Database, plan: Graph, rank: map<string, nat>, output: string)
    requires Acyclic(plan, rank) && output in plan
    requires Compile(cfg, Unfold(plan, rank, output)).Ok?
    requires !cfg.corrected && Aligned(Unfold(plan, rank, output)) && ScansFound(cfg, Unfold(plan, rank, output))
    requires BandHarmless(g, Source(cfg.catalog, cfg.bindings, db), Unfold(plan, rank, output))
    ensures var t := Unfold(plan, rank, output);
            && Accepts(Compile(cfg, t).value.sql, Compile(cfg, t).value.parameters)
            && Run(g, db, Compile(cfg, t).value) == Meaning(g, cfg, db, t)
  {
    var t := Unfold(plan, rank, output);
    UnfoldProper(plan, rank, output);
    UnfoldConsistent(plan, rank, output);
    TreeRuns(g, cfg, db, t);
  }

  /** Such a plan with a spatial join as its output, over inputs with harmless bands: it runs to its meaning exactly when
      its own band drops no joining pair, and to fewer rows otherwise. */
  lemma CompiledJoinExact(g: Engine, cfg: Config, db: Database, plan: Graph, rank: map<string, nat>, output: string)
    requires Acyclic(plan, rank) && output in plan && plan[output].kind.SpatialJoin?
    requires Compile(cfg, Unfold(plan, rank, output)).Ok?
    requires !cfg.corrected && Aligned(Unfold(plan, rank, output)) && ScansFound(cfg, Unfold(plan, rank, output))
    requires var s, t := Source(cfg.catalog, cfg.bindings, db), Unfold(plan, rank, output);
             BandHarmless(g, s, t.left) && BandHarmless(g, s, t.right)
    ensures var t := Unfold(plan, rank, output);
            && Accepts(Compile(cfg, t).value.sql, Compile(cfg, t).value.parameters)
            && (Run(g, db, Compile(cfg, t).value) == Meaning(g, cfg, db, t)
                <==> BandKeeps(g, t.kind, Meaning(g, cfg, db, t.left).rows, Meaning(g, cfg, db, t.right).rows))
            && (Run(g, db, Compile(cfg, t).value) != Meaning(g, cfg, db, t)
                <==> |Run(g, db, Compile(cfg, t).value).rows| < |Meaning(g, cfg, db, t).rows|)
  {
    var t := Unfold(plan, rank, output);
    UnfoldProper(plan, rank, output);
    UnfoldConsistent(plan, rank, output);
    AlignedRuns(g, cfg, db, t);
    hide Compile, Exec, Eval, BandKeeps, Run;
    ResolvedJoinExact(g, cfg, db, t.id, t.kind, t.left, t.right);
  }

  /** Corrected: every plan that compiles runs to exactly its meaning, if no latitude band drops a joining pair. */
  lemma CorrectedPlanCorrect(g: Engine, cfg: Config, db: Database, plan: Graph, rank: map<string, nat>, output: string)
    requires Acyclic(plan, rank) && output in plan
    requires cfg.corrected && Compile(cfg, Unfold(plan, rank, output)).Ok?
    requires BandHarmless(g, Source(cfg.catalog, cfg.bindings, db), Unfold(plan, rank, output))
    ensures var t := Unfold(plan, rank, output);
            && Accepts(Compile(cfg, t).value.sql, Compile(cfg, t).value.parameters)
            && Run(g, db, Compile(cfg, t).value) == Meaning(g, cfg, db, t)
  {
    var t := Unfold(plan, rank, output);
    UnfoldProper(plan, rank, output);
    UnfoldConsistent(plan, rank, output);
    CorrectedParameterOrder(cfg, t);
    BindQueryIntended(Compile(cfg, t).value.sql);
    CorrectedScans(cfg, t);
    ResolvedMeaning(g, cfg, db, t);
  }

  lemma {:induction false} CorrectedScans(cfg: Config, t: Tree)
    requires cfg.corrected
    ensures ScansFound(cfg, t)
  {
    match t
    case Scan(_, _) =>
    case Unary(_, _, input) => CorrectedScans(cfg, input);
    case Binary(_, _, left, right) =>
      CorrectedScans(cfg, left);
      CorrectedScans(cfg, right);
  }

  // ----- the misaligned case, on data -----

  /** A redacting Mask of `c` over the filter `n = a`. */
  function MaskedFilter(n: string, c: string, a: string): Tree {
    Unary("m", Mask([c], Redact), Unary("f", Filter(One(Comparison(Eq, n, Text(a), false))), Scan("s", "D")))
  }

  function OneTable(n: string, c: string): Config {
    Config(map["D" := Dataset([FieldDescriptor(n, true), FieldDescriptor(c, true)], None)], map["D" := "t"], None, false)
  }

  /** As written, the filter's literal lands in the mask and the mask's token in the filter. */
  lemma MisboundText(n: string, c: string, a: string)
    ensures var cfg, t := OneTable(n, c), MaskedFilter(n, c, a);
            && Compile(cfg, t).Ok? && Accepts(Compile(cfg, t).value.sql, Compile(cfg, t).value.parameters)
            && BindQuery(Compile(cfg, t).value.sql, Compile(cfg, t).value.parameters)
               == Select(Replace([Replacement(Apply(CastVarchar, [Literal(Text(a))]), c)]),
                         Select(Star, Base("t"), Where(Apply(Compare(Eq), [Column(LeftRel, n), Literal(Redacted())]))),
                         NoSuffix)
  {
    hide Redacted;
    MisboundCompiled(n, c, a);
    CrossBound("t", n, c, Slot("f", Text(a)), Slot("m", Redacted()));
  }

  /** The statement of the filter `n = p`, bound to `q`. */
  lemma FilterBound(table: string, n: string, p: Slot, q: Slot)
    ensures var inner := Select(Star, Base(table), Where(Apply(Compare(Eq), [Column(LeftRel, n), Placeholder(p)])));
            && IntendedQuery(inner) == [p]
            && BindQuery(inner, [q]) == Select(Star, Base(table), Where(Apply(Compare(Eq), [Column(LeftRel, n), Literal(q.value)])))
  {
    var filter := Apply(Compare(Eq), [Column(LeftRel, n), Placeholder(p)]);
    var inner := Select(Star, Base(table), Where(filter));
    ArgumentsIntended(Column(LeftRel, n), Placeholder(p));
    BindSecond(Column(LeftRel, n), Placeholder(p), q);
    hide BindAll, IntendedAll;
    assert IntendedQuery(inner) == [p];
    assert [q][..0] == [] && [q][0..0] == [] && [q][0..] == [q];
    assert BindQuery(inner, [q]) == Select(Star, Base(table), Where(Bind(filter, [q])));
  }

  /** The select list of a mask with the token `q`, bound to `p`. */
  lemma MaskBound(c: string, p: Slot, q: Slot)
    ensures var list := Replace([Replacement(Apply(CastVarchar, [Placeholder(q)]), c)]);
            IntendedList(list) == [q] && BindList(list, [p]) == Replace([Replacement(Apply(CastVarchar, [Literal(p.value)]), c)])
  {
    var mask := Replacement(Apply(CastVarchar, [Placeholder(q)]), c);
    ArgumentsIntended(Placeholder(q), Placeholder(q));
    BindOne(Placeholder(q), p);
    hide BindAll, IntendedAll;
    assert [mask][1..] == [] && IntendedReplacements([mask]) == [q] + [];
    assert [p][..1] == [p] && [p][1..] == [];
    assert BindReplacements([mask], [p]) == [Replacement(Bind(mask.expr, [p]), c)];
  }

  /** A mask placeholder meant for `q` printed before a filter placeholder meant for `p`, bound to `[p, q]`. */
  lemma CrossBound(table: string, n: string, c: string, p: Slot, q: Slot)
    ensures var filter := Apply(Compare(Eq), [Column(LeftRel, n), Placeholder(p)]);
            var mask := Replacement(Apply(CastVarchar, [Placeholder(q)]), c);
            var sql := Select(Replace([mask]), Select(Star, Base(table), Where(filter)), NoSuffix);
            && Accepts(sql, [p, q])
            && BindQuery(sql, [p, q])
               == Select(Replace([Replacement(Apply(CastVarchar, [Literal(p.value)]), c)]),
                         Select(Star, Base(table), Where(Apply(Compare(Eq), [Column(LeftRel, n), Literal(q.value)]))),
                         NoSuffix)
  {
    FilterBound(table, n, p, q);
    MaskBound(c, p, q);
    MaskOverBound(Replace([Replacement(Apply(CastVarchar, [Placeholder(q)]), c)]),
                  Select(Star, Base(table), Where(Apply(Compare(Eq), [Column(LeftRel, n), Placeholder(p)]))), p, q);
  }

  /** One placeholder in the select list takes the first parameter, the one below takes the second. */
  lemma MaskOverBound(list: SelectList, from: Query, p: Slot, q: Slot)
    requires IntendedList(list) == [q] && IntendedQuery(from) == [p]
    ensures var sql := Select(list, from, NoSuffix);
            Accepts(sql, [p, q]) && BindQuery(sql, [p, q]) == Select(BindList(list, [p]), BindQuery(from, [q]), NoSuffix)
  {
    var sql := Select(list, from, NoSuffix);
    assert [p, q][..1] == [p] && [p, q][1..2] == [q] && [p, q][2..] == [];
    assert IntendedQuery(sql) == [q] + [p] + [];
    hide BindList, IntendedList;
    assert BindQuery(sql, [p, q]) == Select(BindList(list, [p]), BindQuery(from, [q]), BindSuffix(NoSuffix, []));
  }

  lemma FilterCompiled(n: string, c: string, a: string)
    ensures var cfg, t := OneTable(n, c), MaskedFilter(n, c, a).input;
            && SchemaOf(cfg.catalog, t) == Schema([FieldDescriptor(n, true), FieldDescriptor(c, true)], [])
            && Compile(cfg, t)
               == Ok(Fragment(Select(Star, Base("t"), Where(Apply(Compare(Eq), [Column(LeftRel, n), Placeholder(Slot("f", Text(a)))]))),
                              [Slot("f", Text(a))]))
  {
    var cfg, t := OneTable(n, c), MaskedFilter(n, c, a).input;
    assert Compile(cfg, t.input) == Ok(Fragment(Base("t"), []));
    var f := CompileUnary(cfg, "f", t.kind, SchemaOf(cfg.catalog, t.input), FilterScan(cfg, t.input), Fragment(Base("t"), []));
    assert [] + FilterParameters("f", t.kind.condition) == [Slot("f", Text(a))];
    assert Compile(cfg, t) == Bounded(cfg, "f", f);
  }

  lemma MisboundCompiled(n: string, c: string, a: string)
    ensures var p, q := Slot("f", Text(a)), Slot("m", Redacted());
            var filter := Apply(Compare(Eq), [Column(LeftRel, n), Placeholder(p)]);
            var mask := Replacement(Apply(CastVarchar, [Placeholder(q)]), c);
            Compile(OneTable(n, c), MaskedFilter(n, c, a))
            == Ok(Fragment(Select(Replace([mask]), Select(Star, Base("t"), Where(filter)), NoSuffix), [p, q]))
  {
    hide Redacted, CompileUnary;
    var cfg, t := OneTable(n, c), MaskedFilter(n, c, a);
    FilterCompiled(n, c, a);
    var schema, below := SchemaOf(cfg.catalog, t.input), Compile(cfg, t.input).value;
    assert schema.fields[1..] == [FieldDescriptor(c, true)];
    assert FindField(schema.fields, c).Some? && FindField(schema.fields, c).value.isString;
    MaskCompiled(cfg, schema, FilterScan(cfg, t.input), c, below);
    assert below.parameters + [Slot("m", Redacted())] == [Slot("f", Text(a)), Slot("m", Redacted())];
  }

  lemma MaskCompiled(cfg: Config, schema: Schema, scan: Option<string>, c: string, below: Fragment)
    requires !cfg.corrected && FindField(schema.fields, c).Some?
    ensures var q := Slot("m", Redacted());
            CompileUnary(cfg, "m", Mask([c], Redact), schema, scan, below)
            == Ok(Fragment(Select(Replace([Replacement(Apply(CastVarchar, [Placeholder(q)]), c)]), below.sql, NoSuffix),
                           below.parameters + [q]))
  {
    hide Redacted;
    assert [c][1..] == [] && MaskProblem(schema, Redact, [c]) == MaskProblem(schema, Redact, []);
    assert MaskItems("m", Redact, [c]) == [Replacement(MaskExpr("m", Redact, c), c)];
    assert MaskParameters("m", Redact, [c]) == [Slot("m", Redacted())];
  }

  lemma BindOne(mark: Expr, p: Slot)
    requires mark.Placeholder?
    ensures |IntendedAll([mark])| == 1 && BindAll([mark], [p]) == [Literal(p.value)]
  {
    ArgumentsIntended(mark, mark);
    assert [p][..1] == [p] && [p][1..] == [];
  }

  lemma BindSecond(column: Expr, mark: Expr, p: Slot)
    requires column.Column? && mark.Placeholder?
    ensures |IntendedAll([column, mark])| == 1 && BindAll([column, mark], [p]) == [column, Literal(p.value)]
  {
    ArgumentsIntended(column, mark);
    BindOne(mark, p);
    assert [p][..0] == [] && [p][0..] == [p] && [column, mark][1..] == [mark];
  }

  function OneRow(n: string, c: string, a: string, x: string): Row {
    map[n := Text(a), c := Text(x)]
  }

  function OneRowTable(n: string, c: string, a: string, x: string): Database {
    map["t" := Relation([n, c], [OneRow(n, c, a, x)])]
  }

  lemma MisboundRuns(g: Engine, n: string, c: string, a: string, x: string)
    requires n != c && Text(a) != Redacted()
    ensures var f := Compile(OneTable(n, c), MaskedFilter(n, c, a));
            && f.Ok? && Accepts(f.value.sql, f.value.parameters)
            && Run(g, OneRowTable(n, c, a, x), f.value).rows == []
  {
    assert Redacted().Text?;
    hide Redacted, Compile, MaskedFilter, OneTable, Exec;
    MisboundText(n, c, a);
    FindsNothing(g, OneRowTable(n, c, a, x), "t", OneRow(n, c, a, x), n, c, Text(a), Redacted());
  }

  lemma MisboundEval(g: Engine, n: string, c: string, a: string, x: string)
    requires n != c
    ensures var cfg, t := OneTable(n, c), MaskedFilter(n, c, a);
            Eval(g, Source(cfg.catalog, cfg.bindings, OneRowTable(n, c, a, x)), t).rows == [map[n := Text(a), c := Redacted()]]
  {
    hide Redacted;
    var cfg, t, db := OneTable(n, c), MaskedFilter(n, c, a), OneRowTable(n, c, a, x);
    MisboundMeaning(g, n, c, a, x);
    hide KeepRows, RewriteRows;
    assert Eval(g, Source(cfg.catalog, cfg.bindings, db), t.input.input) == db["t"];
  }

  /** On the table with the one row `(n, c) = (a, x)` the plan keeps and masks that row; the statement as
      written finds nothing. */
  lemma MisboundExample(g: Engine, n: string, c: string, a: string, x: string)
    requires n != c && Text(a) != Redacted()
    ensures var cfg, t, db := OneTable(n, c), MaskedFilter(n, c, a), OneRowTable(n, c, a, x);
            && !Aligned(t)
            && Compile(cfg, t).Ok? && Accepts(Compile(cfg, t).value.sql, Compile(cfg, t).value.parameters)
            && Run(g, db, Compile(cfg, t).value).rows == []
            && Eval(g, Source(cfg.catalog, cfg.bindings, db), t).rows == [map[n := Text(a), c := Redacted()]]
  {
    MisboundRuns(g, n, c, a, x);
    MisboundEval(g, n, c, a, x);
    hide Compile, Run, Eval, OneRowTable, OneTable, Redacted;
  }

  lemma FindsNothing(g: Engine, db: Database, table: string, row: Row, n: string, c: string, a: Value, token: Value)
    requires table in db && db[table].rows == [row] && Get(row, n) == a && a.Text? && token.Text? && a != token
    ensures Exec(g, db, Select(Replace([Replacement(Apply(CastVarchar, [Literal(a)]), c)]),
                               Select(Star, Base(table), Where(Apply(Compare(Eq), [Column(LeftRel, n), Literal(token)]))),
                               NoSuffix)).rows == []
  {
    FilterFindsNothing(g, db, table, row, n, a, token);
  }

  lemma FilterFindsNothing(g: Engine, db: Database, table: string, row: Row, n: string, a: Value, token: Value)
    requires table in db && db[table].rows == [row] && Get(row, n) == a && a.Text? && token.Text? && a != token
    ensures Exec(g, db, Select(Star, Base(table), Where(Apply(Compare(Eq), [Column(LeftRel, n), Literal(token)])))).rows == []
  {
    var wrong := Apply(Compare(Eq), [Column(LeftRel, n), Literal(token)]);
    EvalTwo(g, Column(LeftRel, n), Literal(token), row, map[]);
    assert EvalExpr(g, wrong, row, map[]) == Bool(false);
    assert WhereRows(g, wrong, [row]) == [] + WhereRows(g, wrong, []);
  }

  lemma MisboundMeaning(g: Engine, n: string, c: string, a: string, x: string)
    requires n != c
    ensures var row: Row := map[n := Text(a), c := Text(x)];
            var filter, mask := Filter(One(Comparison(Eq, n, Text(a), false))), Mask([c], Redact);
            && KeepRows(g, filter, ("", ""), [row]) == [row]
            && RewriteRows(g, mask, ("", ""), [row]) == [map[n := Text(a), c := Redacted()]]
  {
    var row: Row := map[n := Text(a), c := Text(x)];
    var filter, mask := Filter(One(Comparison(Eq, n, Text(a), false))), Mask([c], Redact);
    assert [row][1..] == [];
    assert KeepRows(g, filter, ("", ""), [row]) == [row] + KeepRows(g, filter, ("", ""), []);
    assert RewriteRow(g, mask, ("", ""), row) == map[n := Text(a), c := Redacted()];
    assert RewriteRows(g, mask, ("", ""), [row]) == [RewriteRow(g, mask, ("", ""), row)] + RewriteRows(g, mask, ("", ""), []);
  }

  // ----- the storage boundary -----

  /** The statement with every `WITH b AS (q) SELECT * FROM b` replaced by `q`. */
  function Unwrap(q: Query): Query {
    match q
    case Base(_) => q
    case Select(list, from, suffix) => Select(list, Unwrap(from), suffix)
    case JoinOn(outer, left, right, on) => JoinOn(outer, Unwrap(left), Unwrap(right), on)
    case With(name, definition, body) =>
      if body == Base(name) then Unwrap(definition) else With(name, Unwrap(definition), Unwrap(body))
  }

  lemma {:induction false} UnwrapMeaning(g: Engine, db: Database, q: Query)
    ensures Exec(g, db, Unwrap(q)) == Exec(g, db, q)
    decreases q
  {
    hide RunList, RunSuffix, JoinRows;
    match q
    case Base(_) =>
    case Select(_, from, _) => UnwrapMeaning(g, db, from);
    case JoinOn(_, left, right, _) =>
      UnwrapMeaning(g, db, left);
      UnwrapMeaning(g, db, right);
    case With(name, definition, body) =>
      UnwrapMeaning(g, db, definition);
      UnwrapMeaning(g, db[name := Exec(g, db, definition)], body);
  }

  lemma {:induction false} UnwrapIntended(q: Query)
    ensures IntendedQuery(Unwrap(q)) == IntendedQuery(q)
  {
    hide IntendedList, IntendedSuffix, Intended;
    match q
    case Base(_) =>
    case Select(_, from, _) => UnwrapIntended(from);
    case JoinOn(_, left, right, _) =>
      UnwrapIntended(left);
      UnwrapIntended(right);
    case With(name, definition, body) =>
      UnwrapIntended(definition);
      UnwrapIntended(body);
      assert IntendedQuery(definition) + [] == IntendedQuery(definition);
  }

  lemma {:induction false} UnwrapBind(q: Query, ps: seq<Slot>)
    requires Accepts(q, ps)
    ensures Accepts(Unwrap(q), ps) && BindQuery(Unwrap(q), ps) == Unwrap(BindQuery(q, ps))
  {
    hide IntendedList, IntendedSuffix, Intended, BindList, BindSuffix, Bind;
    UnwrapIntended(q);
    match q
    case Base(_) =>
    case Select(list, from, _) =>
      var i, j := |IntendedList(list)|, |IntendedList(list)| + |IntendedQuery(from)|;
      UnwrapIntended(from);
      UnwrapBind(from, ps[i..j]);
    case JoinOn(_, left, right, _) =>
      var i, j := |IntendedQuery(left)|, |IntendedQuery(left)| + |IntendedQuery(right)|;
      UnwrapIntended(left);
      UnwrapIntended(right);
      UnwrapBind(left, ps[..i]);
      UnwrapBind(right, ps[i..j]);
    case With(name, definition, body) =>
      var i := |IntendedQuery(definition)|;
      UnwrapIntended(definition);
      UnwrapBind(definition, ps[..i]);
      UnwrapBind(body, ps[i..]);
      if body == Base(name) { assert ps[..i] == ps; }
  }

  ghost function Plain(cfg: Config): Config {
    cfg.(materializeAfter := None)
  }

  ghost predicate SameButBoundary(c: Compiled, plain: Compiled) {
    if c.Error? then c == plain
    else plain == Ok(Fragment(Unwrap(c.value.sql), c.value.parameters))
  }

  lemma UnwrapBoundary(cfg: Config, id: string, f: Fragment)
    ensures Unwrap(Boundary(cfg, id, f).sql) == Unwrap(f.sql)
  {
    hide BoundaryName;
  }

  /** The boundary adds only its wrapper: same outcome, same parameters, same statement inside. */
  lemma {:induction false} BoundaryOnlyWraps(cfg: Config, t: Tree)
    ensures SameButBoundary(Compile(cfg, t), Compile(Plain(cfg), t))
  {
    hide Boundary, UnaryTemplate, SchemaOf, FilterScan, BinaryOn;
    match t
    case Scan(id, dataset) =>
      ScanWraps(cfg, id, dataset);
    case Unary(id, kind, input) =>
      BoundaryOnlyWraps(cfg, input);
      UnaryWraps(cfg, id, kind, input);
    case Binary(id, kind, left, right) =>
      BoundaryOnlyWraps(cfg, left);
      BoundaryOnlyWraps(cfg, right);
      BinaryWraps(cfg, id, kind, left, right);
  }

  lemma ScanWraps(cfg: Config, id: string, dataset: string)
    ensures SameButBoundary(Compile(cfg, Scan(id, dataset)), Compile(Plain(cfg), Scan(id, dataset)))
  {
    hide BoundaryName;
    var c := CompileScan(cfg, dataset);
    if c.Ok? {
      UnwrapBoundary(cfg, id, c.value);
      PlainBoundary(cfg, id, c.value);
    }
  }

  lemma PlainBoundary(cfg: Config, id: string, f: Fragment)
    ensures Boundary(Plain(cfg), id, f) == f
  {}

  lemma UnaryWraps(cfg: Config, id: string, kind: Kind, input: Tree)
    requires SameButBoundary(Compile(cfg, input), Compile(Plain(cfg), input))
    ensures SameButBoundary(Compile(cfg, Unary(id, kind, input)), Compile(Plain(cfg), Unary(id, kind, input)))
  {
    assert FilterScan(cfg, input) == FilterScan(Plain(cfg), input);
    hide BoundaryName, UnaryTemplate, SchemaOf, FilterScan, Boundary;
    if Compile(cfg, input).Ok? {
      var schema, scan := SchemaOf(cfg.catalog, input), FilterScan(cfg, input);
      OneUnaryWraps(cfg, id, kind, schema, scan, Compile(cfg, input).value, Compile(Plain(cfg), input).value);
      var c := CompileUnary(cfg, id, kind, schema, scan, Compile(cfg, input).value);
      hide CompileUnary;
      BoundedWraps(cfg, id, c, CompileUnary(Plain(cfg), id, kind, schema, scan, Compile(Plain(cfg), input).value));
    }
  }

  lemma OneUnaryWraps(cfg: Config, id: string, kind: Kind, schema: Schema, scan: Option<string>, f: Fragment, plain: Fragment)
    requires plain == Fragment(Unwrap(f.sql), f.parameters)
    ensures SameButBoundary(CompileUnary(cfg, id, kind, schema, scan, f), CompileUnary(Plain(cfg), id, kind, schema, scan, plain))
  {
    hide UnaryTemplate;
  }

  lemma BoundedWraps(cfg: Config, id: string, c: Compiled, plain: Compiled)
    requires SameButBoundary(c, plain)
    ensures SameButBoundary(Bounded(cfg, id, c), Bounded(Plain(cfg), id, plain))
  {
    hide BoundaryName, Unwrap;
    if c.Ok? {
      UnwrapBoundary(cfg, id, c.value);
      PlainBoundary(cfg, id, plain.value);
    }
  }

  lemma BinaryWraps(cfg: Config, id: string, kind: Kind, left: Tree, right: Tree)
    requires SameButBoundary(Compile(cfg, left), Compile(Plain(cfg), left))
    requires SameButBoundary(Compile(cfg, right), Compile(Plain(cfg), right))
    ensures SameButBoundary(Compile(cfg, Binary(id, kind, left, right)), Compile(Plain(cfg), Binary(id, kind, left, right)))
  {
    hide BoundaryName, BinaryOn;
    if Compile(cfg, left).Ok? && Compile(cfg, right).Ok? {
      var c := CompileBinary(kind, id, Compile(cfg, left).value, Compile(cfg, right).value);
      if c.Ok? { UnwrapBoundary(cfg, id, c.value); }
    }
  }

  /** Wherever the boundary is placed, the parameters are the same and the same values give the same rows. */
  lemma BoundaryChangesNothing(g: Engine, cfg: Config, db: Database, t: Tree)
    requires Compile(cfg, t).Ok?
    ensures Compile(Plain(cfg), t).Ok?
    ensures var f, plain := Compile(cfg, t).value, Compile(Plain(cfg), t).value;
            && f.parameters == plain.parameters
            && Accepts(f.sql, f.parameters) && Accepts(plain.sql, plain.parameters)
            && Run(g, db, f) == Run(g, db, plain)
  {
    BoundaryOnlyWraps(cfg, t);
    ParametersCounted(cfg, t);
    var f := Compile(cfg, t).value;
    UnwrapBind(f.sql, f.parameters);
    UnwrapMeaning(g, db, BindQuery(f.sql, f.parameters));
  }
}
