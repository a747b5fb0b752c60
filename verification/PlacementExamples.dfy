/** Two placements of a redacting Mask, on data: one that repairs a misbound plan, one that changes a correct one. */
module PlacementExamples {
  import opened Wrappers
  import opened Sql
  import opened SqlBinding
  import opened Plan
  import opened Compiler
  import opened ParameterOrder
  import opened ScanAncestor
  import opened CompiledMeaning
  import opened CompilerCorrectness
  import opened MaskPlacement

  /** The join key and the masked column of table `a`, the join key and another column of table `b`. */
  datatype Names = Names(key: string, masked: string, otherKey: string, tested: string)

  predicate Distinct(c: Names) {
    c.key != c.masked && c.otherKey != c.tested && {c.key, c.masked} !! {c.otherKey, c.tested}
  }

  function Pair(x: string, y: string): seq<FieldDescriptor> {
    [FieldDescriptor(x, true), FieldDescriptor(y, true)]
  }

  function TwoTables(c: Names): Config {
    Config(map["A" := Dataset(Pair(c.key, c.masked), None), "B" := Dataset(Pair(c.otherKey, c.tested), None)],
           map["A" := "a", "B" := "b"], None, false)
  }

  function Cells(x: string, y: string, v: string, w: string): Row {
    map[x := Text(v), y := Text(w)]
  }

  /** One row `(k, v)` in table `a`, one row `(k', w)` in table `b`. */
  function Data(c: Names, k: string, v: string, k': string, w: string): Database {
    map["a" := Relation([c.key, c.masked], [Cells(c.key, c.masked, k, v)]),
        "b" := Relation([c.otherKey, c.tested], [Cells(c.otherKey, c.tested, k', w)])]
  }

  function SourceOf(c: Names, db: Database): Source {
    Source(TwoTables(c).catalog, TwoTables(c).bindings, db)
  }

  function Redaction(c: Names): Kind {
    Mask([c.masked], Redact)
  }

  /** The projection the Mask is moved onto. */
  function Target(c: Names): Tree {
    Unary("p", Project([c.key, c.masked]), Scan("s", "A"))
  }

  lemma TargetMeaning(g: Engine, c: Names, k: string, v: string, k': string, w: string)
    requires Distinct(c)
    ensures Eval(g, SourceOf(c, Data(c, k, v, k', w)), Target(c)) == Relation([c.key, c.masked], [Cells(c.key, c.masked, k, v)])
  {
    var s, row := SourceOf(c, Data(c, k, v, k', w)), Cells(c.key, c.masked, k, v);
    var kind := Target(c).kind;
    OneRewritten(g, kind, ("", ""), row);
    assert Narrow([c.key, c.masked], row) == row;
    hide RewriteRows;
    assert Eval(g, s, Scan("s", "A")).rows == [row];
  }

  lemma TargetCompiles(c: Names)
    requires Distinct(c)
    ensures Compile(TwoTables(c), Target(c)) == Ok(Fragment(Select(Columns([c.key, c.masked]), Base("a"), NoSuffix), []))
    ensures SchemaOf(TwoTables(c).catalog, Target(c)) == Schema(Pair(c.key, c.masked), [])
  {
    var cfg := TwoTables(c);
    var fields, names := Pair(c.key, c.masked), [c.key, c.masked];
    assert Compile(cfg, Scan("s", "A")) == Ok(Fragment(Base("a"), []));
    assert fields[1..] == [FieldDescriptor(c.masked, true)] && names[1..] == [c.masked] && [c.masked][1..] == [];
    assert FindField(fields, c.key) == Some(fields[0]) && FindField(fields, c.masked) == Some(fields[1]);
    assert SelectFields(fields, [c.masked]) == [fields[1]] + SelectFields(fields, []);
    assert SelectFields(fields, names) == [fields[0]] + SelectFields(fields, [c.masked]);
  }

  lemma MaskedField(c: Names, fields: seq<FieldDescriptor>)
    requires Distinct(c) && Pair(c.key, c.masked) <= fields
    ensures FindField(fields, c.masked).Some?
  {
    assert fields[1] == FieldDescriptor(c.masked, true);
    assert fields[1..][0] == fields[1];
  }

  lemma MaskedFieldLast(c: Names, fields: seq<FieldDescriptor>)
    requires Distinct(c) && fields == Pair(c.otherKey, c.tested) + Pair(c.key, c.masked)
    ensures FindField(fields, c.masked).Some?
  {
    assert fields[1..][1..] == Pair(c.key, c.masked);
    MaskedField(c, Pair(c.key, c.masked));
  }

  /** The Mask over whatever compiles and has its column. */
  lemma MaskOver(c: Names, input: Tree)
    requires Compile(TwoTables(c), input).Ok? && FindField(SchemaOf(TwoTables(c).catalog, input).fields, c.masked).Some?
    ensures var below, q := Compile(TwoTables(c), input).value, Slot("m", Redacted());
            Compile(TwoTables(c), Unary("m", Redaction(c), input))
            == Ok(Fragment(Select(Replace([Replacement(Apply(CastVarchar, [Placeholder(q)]), c.masked)]), below.sql, NoSuffix),
                           below.parameters + [q]))
  {
    var cfg := TwoTables(c);
    MaskCompiled(cfg, SchemaOf(cfg.catalog, input), FilterScan(cfg, input), c.masked, Compile(cfg, input).value);
    hide CompileUnary, SchemaOf, FilterScan, BoundaryName, Redacted;
  }

  /** What running a plan correctly takes, apart from its parameters. */
  ghost predicate Regular(cfg: Config, t: Tree) {
    ProperTree(t) && Consistent(t) && ScansFound(cfg, t) && NoSpatialJoin(t)
  }

  /** The compiled statement of the plan returns these rows. */
  ghost predicate Returns(g: Engine, cfg: Config, db: Database, t: Tree, rows: seq<Row>) {
    && Compile(cfg, t).Ok? && Accepts(Compile(cfg, t).value.sql, Compile(cfg, t).value.parameters)
    && Run(g, db, Compile(cfg, t).value).rows == rows
  }

  lemma RegularReturns(g: Engine, cfg: Config, db: Database, t: Tree)
    requires !cfg.corrected && Regular(cfg, t) && Aligned(t) && Compile(cfg, t).Ok?
    ensures Returns(g, cfg, db, t, Meaning(g, cfg, db, t).rows)
  {
    NoSpatialJoinIsHarmless(g, Source(cfg.catalog, cfg.bindings, db), t);
    TreeRuns(g, cfg, db, t);
  }

  /** The planner permits the move. */
  ghost predicate Allowed(late: Tree, early: Tree, path: Path, c: Names) {
    Moved(late, early, path, "m", [c.masked], Redact, Target(c)) && Crossable(path, [c.masked])
  }

  lemma ScanRegular(cfg: Config, id: string, dataset: string)
    ensures Regular(cfg, Scan(id, dataset)) && Aligned(Scan(id, dataset)) && !Parameterised(Scan(id, dataset))
    ensures Ids(Scan(id, dataset)) == {id} && Scans(Scan(id, dataset)).Keys == {id}
  {}

  lemma UnaryRegular(cfg: Config, id: string, kind: Kind, input: Tree)
    requires Regular(cfg, input) && id !in Ids(input) && (kind.Project? || kind.Filter? || kind.Mask?)
    ensures var t := Unary(id, kind, input);
            && Regular(cfg, t) && Ids(t) == {id} + Ids(input) && Scans(t) == Scans(input)
            && (Parameterised(t) <==> Pushes(kind) || Parameterised(input))
            && (Aligned(t) <==> Aligned(input) && (kind.Mask? && Pushes(kind) ==> !Parameterised(input)))
  {}

  lemma JoinRegular(cfg: Config, kind: Kind, left: Tree, right: Tree)
    requires Regular(cfg, left) && Regular(cfg, right) && kind.Join?
    requires "j" !in Ids(left) + Ids(right) && Scans(left).Keys !! Scans(right).Keys
    ensures var t := Binary("j", kind, left, right);
            && Regular(cfg, t) && Ids(t) == {"j"} + Ids(left) + Ids(right)
            && (Parameterised(t) <==> Parameterised(left) || Parameterised(right))
            && (Aligned(t) <==> Aligned(left) && Aligned(right))
  {}

  lemma TargetRegular(c: Names)
    ensures Regular(TwoTables(c), Target(c)) && Aligned(Target(c)) && !Parameterised(Target(c))
    ensures Ids(Target(c)) == {"p", "s"} && Scans(Target(c)).Keys == {"s"}
  {
    ScanRegular(TwoTables(c), "s", "A");
    UnaryRegular(TwoTables(c), "p", Target(c).kind, Scan("s", "A"));
  }

  // ----- a misbound plan that the placement repairs -----

  function InnerJoin(c: Names): Kind {
    Join(c.key, c.otherKey, false)
  }

  function Filtered(c: Names, w: string): Tree {
    Unary("f", Filter(One(Comparison(Eq, c.tested, Text(w), false))), Scan("r", "B"))
  }

  /** The Mask above the join of the projection with a filtered table. */
  function MaskAbove(c: Names, w: string): Tree {
    Unary("m", Redaction(c), Binary("j", InnerJoin(c), Target(c), Filtered(c, w)))
  }

  function MaskBelow(c: Names, w: string): Tree {
    Binary("j", InnerJoin(c), Unary("m", Redaction(c), Target(c)), Filtered(c, w))
  }

  function JoinedRow(c: Names, k: string, v: string, w: string): Row {
    Cells(c.key, c.masked, k, v) + Cells(c.otherKey, c.tested, k, w)
  }

  lemma FilteredMeaning(g: Engine, c: Names, k: string, v: string, k': string, w: string)
    requires Distinct(c)
    ensures Eval(g, SourceOf(c, Data(c, k, v, k', w)), Filtered(c, w))
            == Relation([c.otherKey, c.tested], [Cells(c.otherKey, c.tested, k', w)])
  {
    var row, kind := Cells(c.otherKey, c.tested, k', w), Filtered(c, w).kind;
    assert [row][1..] == [];
    assert Keeps(g, kind, ("", ""), row);
    assert KeepRows(g, kind, ("", ""), [row]) == [row] + KeepRows(g, kind, ("", ""), []);
    hide KeepRows, Keeps;
    assert Eval(g, SourceOf(c, Data(c, k, v, k', w)), Scan("r", "B")).rows == [row];
  }

  lemma JoinMeans(g: Engine, c: Names, k: string, v: string, w: string)
    requires Distinct(c)
    ensures var s := SourceOf(c, Data(c, k, v, k, w));
            Eval(g, s, Binary("j", InnerJoin(c), Target(c), Filtered(c, w))).rows == [JoinedRow(c, k, v, w)]
  {
    var s := SourceOf(c, Data(c, k, v, k, w));
    var l, r := Cells(c.key, c.masked, k, v), Cells(c.otherKey, c.tested, k, w);
    TargetMeaning(g, c, k, v, k, w);
    FilteredMeaning(g, c, k, v, k, w);
    assert Joins(g, InnerJoin(c), l, r);
    hide Joins, PairRows, Cells;
    OnePair(g, InnerJoin(c), l, Eval(g, s, Filtered(c, w)), r);
    JoinEval(g, s, "j", InnerJoin(c), Target(c), Filtered(c, w));
  }

  lemma MaskMeans(g: Engine, s: Source, c: Names, input: Tree, row: Row)
    requires Eval(g, s, input).rows == [row] && c.masked in row
    ensures Eval(g, s, Unary("m", Redaction(c), input)).rows == [row[c.masked := Redacted()]]
  {
    RedactedRow(g, c, row);
    hide Eval, MaskRow, Redacted;
    MaskEval(g, s, "m", [c.masked], Redact, input);
    MaskOne(g, [c.masked], Redact, row);
  }

  lemma PlacementMeans(g: Engine, c: Names, k: string, v: string, w: string)
    requires Distinct(c)
    ensures var s := SourceOf(c, Data(c, k, v, k, w)); Eval(g, s, MaskBelow(c, w)) == Eval(g, s, MaskAbove(c, w))
  {
    var s := SourceOf(c, Data(c, k, v, k, w));
    var path := LeftOf("j", InnerJoin(c), Here, Filtered(c, w));
    assert !CrossesSort(Here) && Crossable(Here, [c.masked]) && NoCollision(g, s, Here, [c.masked]) && NoRedactedPadding(Here, Redact);
    TargetMeaning(g, c, k, v, k, w);
    FilteredMeaning(g, c, k, v, k, w);
    hide Eval;
    assert Lacks(Eval(g, s, Filtered(c, w)), [c.masked]);
    PlacementPreserves(g, s, path, "m", [c.masked], Redact, Target(c));
  }

  /** The plan keeps and redacts the one pair, wherever its Mask stands. */
  lemma JoinedMeaning(g: Engine, c: Names, k: string, v: string, w: string)
    requires Distinct(c)
    ensures var s := SourceOf(c, Data(c, k, v, k, w));
            && Eval(g, s, MaskAbove(c, w)).rows == [JoinedRow(c, k, v, w)[c.masked := Redacted()]]
            && Eval(g, s, MaskBelow(c, w)) == Eval(g, s, MaskAbove(c, w))
  {
    var s := SourceOf(c, Data(c, k, v, k, w));
    PlacementMeans(g, c, k, v, w);
    JoinMeans(g, c, k, v, w);
    assert c.masked in JoinedRow(c, k, v, w);
    hide Eval, Redacted, JoinedRow;
    MaskMeans(g, s, c, Binary("j", InnerJoin(c), Target(c), Filtered(c, w)), JoinedRow(c, k, v, w));
  }

  lemma RedactedRow(g: Engine, c: Names, row: Row)
    requires c.masked in row
    ensures MaskRow(g, [c.masked], Redact, row) == row[c.masked := Redacted()]
  {}

  lemma FilteredCompiles(c: Names, w: string)
    ensures Compile(TwoTables(c), Filtered(c, w))
            == Ok(Fragment(Select(Star, Base("b"), Where(Apply(Compare(Eq), [Column(LeftRel, c.tested), Placeholder(Slot("f", Text(w)))]))),
                           [Slot("f", Text(w))]))
    ensures SchemaOf(TwoTables(c).catalog, Filtered(c, w)) == Schema(Pair(c.otherKey, c.tested), [])
  {
    var cfg, t := TwoTables(c), Filtered(c, w);
    assert Compile(cfg, t.input) == Ok(Fragment(Base("b"), []));
    var f := CompileUnary(cfg, "f", t.kind, SchemaOf(cfg.catalog, t.input), FilterScan(cfg, t.input), Fragment(Base("b"), []));
    assert [] + FilterParameters("f", t.kind.condition) == [Slot("f", Text(w))];
    assert Compile(cfg, t) == Bounded(cfg, "f", f);
  }

  function KeysEqual(c: Names): Expr {
    Apply(Compare(Eq), [Column(LeftRel, c.key), Column(RightRel, c.otherKey)])
  }

  lemma JoinCompiles(c: Names, w: string, left: Tree)
    requires Compile(TwoTables(c), left).Ok?
    ensures var l, r := Compile(TwoTables(c), left).value, Compile(TwoTables(c), Filtered(c, w));
            r.Ok? && Compile(TwoTables(c), Binary("j", InnerJoin(c), left, Filtered(c, w)))
                     == Ok(Fragment(JoinOn(false, l.sql, r.value.sql, KeysEqual(c)), l.parameters + r.value.parameters))
  {
    FilteredCompiles(c, w);
    hide Filtered, BoundaryName;
    var l, r := Compile(TwoTables(c), left).value, Compile(TwoTables(c), Filtered(c, w)).value;
    assert l.parameters + r.parameters + [] == l.parameters + r.parameters;
  }

  lemma AboveCompiles(c: Names, w: string)
    requires Distinct(c)
    ensures var p, q := Slot("f", Text(w)), Slot("m", Redacted());
            var filter := Apply(Compare(Eq), [Column(LeftRel, c.tested), Placeholder(p)]);
            Compile(TwoTables(c), MaskAbove(c, w))
            == Ok(Fragment(Select(Replace([Replacement(Apply(CastVarchar, [Placeholder(q)]), c.masked)]),
                                  JoinOn(false, Select(Columns([c.key, c.masked]), Base("a"), NoSuffix),
                                         Select(Star, Base("b"), Where(filter)), KeysEqual(c)),
                                  NoSuffix), [p, q]))
  {
    var join := Binary("j", InnerJoin(c), Target(c), Filtered(c, w));
    TargetCompiles(c);
    FilteredCompiles(c, w);
    JoinCompiles(c, w, Target(c));
    assert SchemaOf(TwoTables(c).catalog, join).fields == Pair(c.key, c.masked) + Pair(c.otherKey, c.tested);
    MaskedField(c, SchemaOf(TwoTables(c).catalog, join).fields);
    MaskOver(c, join);
    hide Compile, SchemaOf, Redacted;
    var p, q := Slot("f", Text(w)), Slot("m", Redacted());
    assert [] + [p] == [p] && [p] + [q] == [p, q];
  }

  lemma BelowCompiles(c: Names, w: string)
    requires Distinct(c)
    ensures Compile(TwoTables(c), MaskBelow(c, w)).Ok?
  {
    TargetCompiles(c);
    MaskedField(c, Pair(c.key, c.masked));
    MaskOver(c, Target(c));
    hide Compile;
    JoinCompiles(c, w, Unary("m", Redaction(c), Target(c)));
  }

  lemma KeysUnbound(c: Names)
    ensures Intended(KeysEqual(c)) == [] && Bind(KeysEqual(c), []) == KeysEqual(c)
  {
    var a, b := Column(LeftRel, c.key), Column(RightRel, c.otherKey);
    ArgumentsIntended(a, b);
    assert [a, b][1..] == [b] && [b][1..] == [];
    assert IntendedAll([b]) == [] && BindAll([b], []) == [b];
    assert BindAll([a, b], []) == [a] + BindAll([b], []);
  }

  /** The statement of the join, bound to the token instead of the filter's literal. */
  lemma JoinBound(c: Names, p: Slot, q: Slot)
    ensures var filter := Apply(Compare(Eq), [Column(LeftRel, c.tested), Placeholder(p)]);
            var left := Select(Columns([c.key, c.masked]), Base("a"), NoSuffix);
            var join := JoinOn(false, left, Select(Star, Base("b"), Where(filter)), KeysEqual(c));
            && IntendedQuery(join) == [p]
            && BindQuery(join, [q])
               == JoinOn(false, left,
                         Select(Star, Base("b"), Where(Apply(Compare(Eq), [Column(LeftRel, c.tested), Literal(q.value)]))),
                         KeysEqual(c))
  {
    var filter := Apply(Compare(Eq), [Column(LeftRel, c.tested), Placeholder(p)]);
    var left, right := Select(Columns([c.key, c.masked]), Base("a"), NoSuffix), Select(Star, Base("b"), Where(filter));
    var join := JoinOn(false, left, right, KeysEqual(c));
    FilterBound("b", c.tested, p, q);
    KeysUnbound(c);
    assert IntendedQuery(left) == [] && BindQuery(left, []) == left;
    hide IntendedAll, BindAll, KeysEqual;
    assert IntendedQuery(join) == [] + [p] + [];
    assert [q][..0] == [] && [q][0..1] == [q] && [q][1..] == [];
    assert BindQuery(join, [q]) == JoinOn(false, BindQuery(left, []), BindQuery(right, [q]), Bind(KeysEqual(c), []));
  }

  lemma {:induction false} NothingToMatch(g: Engine, on: Expr, lefts: seq<Row>, right: Relation)
    requires right.rows == []
    ensures JoinRows(g, false, on, lefts, right) == []
  {
    if lefts != [] { NothingToMatch(g, on, lefts[1..], right); }
  }

  lemma AboveFindsNothing(g: Engine, c: Names, k: string, v: string, w: string)
    requires Distinct(c) && Text(w) != Redacted()
    ensures Returns(g, TwoTables(c), Data(c, k, v, k, w), MaskAbove(c, w), [])
  {
    var p, q := Slot("f", Text(w)), Slot("m", Redacted());
    var db := Data(c, k, v, k, w);
    AboveCompiles(c, w);
    var sql := Compile(TwoTables(c), MaskAbove(c, w)).value.sql;
    MaskBound(c.masked, p, q);
    JoinBound(c, p, q);
    MaskOverBound(sql.list, sql.from, p, q);
    assert Get(Cells(c.otherKey, c.tested, k, w), c.tested) == Text(w) && Redacted().Text?;
    hide Redacted, Compile, IntendedList, IntendedQuery, BindList, Bind, KeysEqual, Cells;
    FilterFindsNothing(g, db, "b", db["b"].rows[0], c.tested, Text(w), Redacted());
    var join := BindQuery(sql.from, [q]);
    hide BindQuery;
    NothingToMatch(g, join.on, Exec(g, db, join.left).rows, Exec(g, db, join.right));
    assert Exec(g, db, join).rows == [];
    assert Exec(g, db, Select(BindList(sql.list, [p]), join, NoSuffix)).rows == [] by {
      MaskBound(c.masked, p, q);
    }
  }

  lemma InnerRegular(c: Names, w: string)
    ensures Regular(TwoTables(c), MaskBelow(c, w)) && Aligned(MaskBelow(c, w)) && !Aligned(MaskAbove(c, w))
  {
    var cfg := TwoTables(c);
    TargetRegular(c);
    ScanRegular(cfg, "r", "B");
    UnaryRegular(cfg, "f", Filtered(c, w).kind, Scan("r", "B"));
    hide Target, Regular, Aligned, Parameterised;
    UnaryRegular(cfg, "m", Redaction(c), Target(c));
    JoinRegular(cfg, InnerJoin(c), Unary("m", Redaction(c), Target(c)), Filtered(c, w));
    JoinRegular(cfg, InnerJoin(c), Target(c), Filtered(c, w));
    UnaryRegular(cfg, "m", Redaction(c), Binary("j", InnerJoin(c), Target(c), Filtered(c, w)));
  }

  lemma InnerMoved(c: Names, w: string)
    requires Distinct(c)
    ensures Allowed(MaskAbove(c, w), MaskBelow(c, w), LeftOf("j", InnerJoin(c), Here, Filtered(c, w)), c)
  {
    var mask := Unary("m", Redaction(c), Target(c));
    assert Plug(Here, Target(c)) == Target(c) && Plug(Here, mask) == mask && Crossable(Here, [c.masked]);
    hide Target, Filtered;
  }

  /** A plan that loses its row, and returns it once its Mask is moved onto the projection: the two plans mean the same,
      and the rules and the exact condition permit the move, but the parameters of the first are misbound. */
  lemma RepairingPlacement(g: Engine, c: Names, k: string, v: string, w: string)
    requires Distinct(c) && Text(w) != Redacted()
    ensures var cfg, db, late, early := TwoTables(c), Data(c, k, v, k, w), MaskAbove(c, w), MaskBelow(c, w);
            var path := LeftOf("j", InnerJoin(c), Here, Filtered(c, w));
            && Allowed(late, early, path, c) && NoRedactedPadding(path, Redact)
            && !Aligned(late) && Aligned(early)
            && Meaning(g, cfg, db, late) == Meaning(g, cfg, db, early)
            && Returns(g, cfg, db, late, [])
            && Returns(g, cfg, db, early, [JoinedRow(c, k, v, w)[c.masked := Redacted()]])
  {
    var cfg, db, early := TwoTables(c), Data(c, k, v, k, w), MaskBelow(c, w);
    assert NoRedactedPadding(Here, Redact);
    hide Compile, Eval, Run, Aligned, Regular, Redacted, JoinedRow, MaskAbove, MaskBelow, Filtered, Allowed, TwoTables, Data, Distinct, BandHarmless;
    InnerMoved(c, w);
    InnerRegular(c, w);
    AboveFindsNothing(g, c, k, v, w);
    BelowCompiles(c, w);
    JoinedMeaning(g, c, k, v, w);
    RegularReturns(g, cfg, db, early);
  }

  // ----- a correct plan that the placement changes -----

  function OuterJoin(c: Names): Kind {
    Join(c.otherKey, c.key, true)
  }

  function OuterAbove(c: Names): Tree {
    Unary("m", Redaction(c), Binary("j", OuterJoin(c), Scan("r", "B"), Target(c)))
  }

  function OuterBelow(c: Names): Tree {
    Binary("j", OuterJoin(c), Scan("r", "B"), Unary("m", Redaction(c), Target(c)))
  }

  /** The left row with the columns of the projection added, all NULL. */
  function Padded(c: Names, k: string, w: string): Row {
    Cells(c.otherKey, c.tested, k, w)[c.key := Null][c.masked := Null]
  }

  lemma OnePadded(g: Engine, kind: Kind, l: Row, right: Relation, r: Row)
    requires kind.Join? && kind.leftOuter && right.rows == [r] && !Joins(g, kind, l, r)
    ensures PairRows(g, kind, [l], right) == [l + Padding(right.columns)]
  {
    hide Joins;
    assert right.rows[1..] == [] && [l][1..] == [];
    assert Partners(g, kind, l, [r]) == [] + Partners(g, kind, l, []);
    assert PairRows(g, kind, [l], right) == [l + Padding(right.columns)] + PairRows(g, kind, [], right);
  }

  lemma OuterJoinMeans(g: Engine, c: Names, s: Source, l: Row, right: Tree, r: Row)
    requires Eval(g, s, Scan("r", "B")).rows == [l] && Eval(g, s, right) == Relation([c.key, c.masked], [r])
    requires !Joins(g, OuterJoin(c), l, r)
    ensures Eval(g, s, Binary("j", OuterJoin(c), Scan("r", "B"), right)).rows == [l + Padding([c.key, c.masked])]
  {
    hide Eval, Joins, PairRows, Padding;
    JoinEval(g, s, "j", OuterJoin(c), Scan("r", "B"), right);
    OnePadded(g, OuterJoin(c), l, Eval(g, s, right), r);
  }

  lemma NoPartner(g: Engine, c: Names, k: string, v: string, k': string, w: string)
    requires Distinct(c) && k != k'
    ensures var l, r := Cells(c.otherKey, c.tested, k', w), Cells(c.key, c.masked, k, v);
            && !Joins(g, OuterJoin(c), l, r) && !Joins(g, OuterJoin(c), l, r[c.masked := Redacted()])
            && l + Padding([c.key, c.masked]) == Padded(c, k', w) && c.masked in r && c.masked in Padded(c, k', w)
  {}

  lemma OuterMeaning(g: Engine, c: Names, k: string, v: string, k': string, w: string)
    requires Distinct(c) && k != k'
    ensures var s := SourceOf(c, Data(c, k, v, k', w));
            && Eval(g, s, OuterAbove(c)).rows == [Padded(c, k', w)[c.masked := Redacted()]]
            && Eval(g, s, OuterBelow(c)).rows == [Padded(c, k', w)]
  {
    var s := SourceOf(c, Data(c, k, v, k', w));
    var l, r := Cells(c.otherKey, c.tested, k', w), Cells(c.key, c.masked, k, v);
    var redacted := r[c.masked := Redacted()];
    TargetMeaning(g, c, k, v, k', w);
    assert Eval(g, s, Scan("r", "B")).rows == [l];
    NoPartner(g, c, k, v, k', w);
    MaskEval(g, s, "m", [c.masked], Redact, Target(c));
    hide Eval, Joins, Cells, Redacted, Padding, Padded;
    MaskMeans(g, s, c, Target(c), r);
    OuterJoinMeans(g, c, s, l, Target(c), r);
    MaskMeans(g, s, c, Binary("j", OuterJoin(c), Scan("r", "B"), Target(c)), Padded(c, k', w));
    OuterJoinMeans(g, c, s, l, Unary("m", Redaction(c), Target(c)), redacted);
  }

  lemma OuterCompiles(c: Names)
    requires Distinct(c)
    ensures Compile(TwoTables(c), OuterAbove(c)).Ok? && Compile(TwoTables(c), OuterBelow(c)).Ok?
  {
    var cfg, join := TwoTables(c), Binary("j", OuterJoin(c), Scan("r", "B"), Target(c));
    TargetCompiles(c);
    assert Compile(cfg, Scan("r", "B")).Ok? && Compile(cfg, join).Ok?;
    assert SchemaOf(cfg.catalog, join).fields == Pair(c.otherKey, c.tested) + Pair(c.key, c.masked);
    MaskedFieldLast(c, SchemaOf(cfg.catalog, join).fields);
    MaskOver(c, join);
    MaskedField(c, Pair(c.key, c.masked));
    MaskOver(c, Target(c));
    hide SchemaOf, FilterScan, BoundaryName, Target;
    assert Compile(cfg, Unary("m", Redaction(c), Target(c))).Ok?;
  }

  lemma OuterRegular(c: Names)
    ensures Regular(TwoTables(c), OuterAbove(c)) && Aligned(OuterAbove(c))
    ensures Regular(TwoTables(c), OuterBelow(c)) && Aligned(OuterBelow(c))
  {
    var cfg := TwoTables(c);
    TargetRegular(c);
    ScanRegular(cfg, "r", "B");
    hide Target, Regular, Aligned, Parameterised;
    UnaryRegular(cfg, "m", Redaction(c), Target(c));
    JoinRegular(cfg, OuterJoin(c), Scan("r", "B"), Unary("m", Redaction(c), Target(c)));
    JoinRegular(cfg, OuterJoin(c), Scan("r", "B"), Target(c));
    UnaryRegular(cfg, "m", Redaction(c), Binary("j", OuterJoin(c), Scan("r", "B"), Target(c)));
  }

  lemma OuterMoved(c: Names)
    requires Distinct(c)
    ensures Allowed(OuterAbove(c), OuterBelow(c), RightOf("j", OuterJoin(c), Scan("r", "B"), Here), c)
  {
    var mask := Unary("m", Redaction(c), Target(c));
    assert Plug(Here, Target(c)) == Target(c) && Plug(Here, mask) == mask && Crossable(Here, [c.masked]);
    hide Target;
  }

  /** A placement the rules allow, and a left row without a partner: the plan redacts the padding, the rewired plan leaves
      it NULL, and both compiled statements return what their plans mean. */
  lemma ChangingPlacement(g: Engine, c: Names, k: string, v: string, k': string, w: string)
    requires Distinct(c) && k != k'
    ensures var cfg, db, late, early := TwoTables(c), Data(c, k, v, k', w), OuterAbove(c), OuterBelow(c);
            && Allowed(late, early, RightOf("j", OuterJoin(c), Scan("r", "B"), Here), c)
            && Returns(g, cfg, db, late, [Padded(c, k', w)[c.masked := Redacted()]])
            && Returns(g, cfg, db, early, [Padded(c, k', w)])
            && Padded(c, k', w)[c.masked := Redacted()] != Padded(c, k', w)
  {
    var cfg, db, late, early := TwoTables(c), Data(c, k, v, k', w), OuterAbove(c), OuterBelow(c);
    assert Padded(c, k', w)[c.masked] == Null && Redacted() != Null;
    hide Compile, Eval, Run, Aligned, Regular, Redacted, Padded, OuterAbove, OuterBelow, Allowed, TwoTables, Data, Distinct, BandHarmless;
    OuterMoved(c);
    OuterRegular(c);
    OuterCompiles(c);
    OuterMeaning(g, c, k, v, k', w);
    RegularReturns(g, cfg, db, late);
    RegularReturns(g, cfg, db, early);
  }
}
