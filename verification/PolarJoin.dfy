/** A spatial join that the latitude band breaks: GeneralizeLocation may put a point past the pole. */
module PolarJoin {
  import opened Wrappers
  import opened Sql
  import opened SqlBinding
  import opened Plan
  import opened Compiler
  import opened ParameterOrder
  import opened ScanAncestor
  import opened CompiledMeaning
  import opened CompilerCorrectness

  function Opposite(longitude: real): real {
    if longitude < 0.0 then longitude + 180.0 else longitude - 180.0
  }

  /** Two facts of the great-circle formula: no point is away from itself, and a latitude past the pole is one on the
      opposite meridian. */
  ghost predicate RoundGlobe(g: Engine) {
    && (forall a, c: real :: g.haversine(a, a, c, c) == 0.0)
    && (forall a, b, c, d: real :: g.haversine(a, 180.0 - b, c, d) == g.haversine(a, b, c, Opposite(d)))
  }

  lemma OverThePole(g: Engine, over: real, longitude: real)
    requires RoundGlobe(g)
    ensures g.haversine(90.0 - over, 90.0 + over, Opposite(longitude), longitude) == 0.0
  {
    var b := 90.0 - over;
    assert 180.0 - b == 90.0 + over;
    assert g.haversine(b, b, Opposite(longitude), Opposite(longitude)) == 0.0;
    assert g.haversine(b, 180.0 - b, Opposite(longitude), longitude) == g.haversine(b, b, Opposite(longitude), Opposite(longitude));
  }

  // ----- the plan -----

  /** The four coordinate columns. */
  datatype Columns = Columns(leftLatitude: string, leftLongitude: string, rightLatitude: string, rightLongitude: string)

  predicate Distinct(c: Columns) {
    && c.leftLatitude != c.leftLongitude && c.rightLatitude != c.rightLongitude
    && {c.leftLatitude, c.leftLongitude} !! {c.rightLatitude, c.rightLongitude}
  }

  function Points(latitude: string, longitude: string): Dataset {
    Dataset([FieldDescriptor(latitude, false), FieldDescriptor(longitude, false)], Some(SpatialDescriptor(latitude, longitude, true)))
  }

  function TwoTables(c: Columns): Config {
    Config(map["A" := Points(c.leftLatitude, c.leftLongitude), "B" := Points(c.rightLatitude, c.rightLongitude)],
           map["A" := "a", "B" := "b"], None, false)
  }

  function Generalised(c: Columns, precisionKm: real): Tree {
    Unary("grid", GeneralizeLocation([c.leftLatitude, c.leftLongitude], precisionKm), Scan("left", "A"))
  }

  function Nearby(c: Columns, km: real): Kind {
    SpatialJoin(true, c.leftLatitude, c.leftLongitude, c.rightLatitude, c.rightLongitude, Some(km))
  }

  /** Generalised points joined with the points nearby. */
  function PolarPlan(c: Columns, precisionKm: real, km: real): Tree {
    Binary("join", Nearby(c, km), Generalised(c, precisionKm), Scan("right", "B"))
  }

  /** How far the grid puts the pole past itself. */
  function Overhang(precisionKm: real): real
    requires precisionKm > 0.0
  {
    LatitudeCentre(90.0, GridStep(precisionKm)) - 90.0
  }

  function MeridianCentre(precisionKm: real): real
    requires precisionKm > 0.0
  {
    CellCentre(Number(0.0), 180.0, GridStep(precisionKm)).n
  }

  function LeftRow(c: Columns): Row {
    map[c.leftLatitude := Number(90.0), c.leftLongitude := Number(0.0)]
  }

  function GridRow(c: Columns, precisionKm: real): Row
    requires precisionKm > 0.0
  {
    map[c.leftLatitude := Number(90.0 + Overhang(precisionKm)), c.leftLongitude := Number(MeridianCentre(precisionKm))]
  }

  function RightRow(c: Columns, precisionKm: real): Row
    requires precisionKm > 0.0
  {
    map[c.rightLatitude := Number(90.0 - Overhang(precisionKm)), c.rightLongitude := Number(Opposite(MeridianCentre(precisionKm)))]
  }

  /** The pole, and the point on the opposite meridian as far before the pole as the grid puts it past. */
  function PolarData(c: Columns, precisionKm: real): Database
    requires precisionKm > 0.0
  {
    map["a" := Relation([c.leftLatitude, c.leftLongitude], [LeftRow(c)]),
        "b" := Relation([c.rightLatitude, c.rightLongitude], [RightRow(c, precisionKm)])]
  }

  // ----- what it compiles to and what it means -----

  lemma LeftCompiles(c: Columns, precisionKm: real)
    requires Distinct(c)
    ensures Compile(TwoTables(c), Generalised(c, precisionKm)).Ok?
    ensures PairOf(TwoTables(c).catalog, Generalised(c, precisionKm).kind, Scan("left", "A")) == (c.leftLatitude, c.leftLongitude)
  {
    var cfg, coordinates := TwoTables(c), [c.leftLatitude, c.leftLongitude];
    var spatial := SpatialDescriptor(c.leftLatitude, c.leftLongitude, true);
    assert Elements(coordinates) == Coordinates(spatial);
    assert SchemaOf(cfg.catalog, Scan("left", "A")).spatial == [spatial];
    assert Matching([spatial], Elements(coordinates)) == [spatial] + Matching([], Elements(coordinates));
    assert Compile(cfg, Scan("left", "A")).Ok?;
  }

  lemma PlanCompiles(c: Columns, precisionKm: real, km: real)
    requires Distinct(c)
    ensures Compile(TwoTables(c), PolarPlan(c, precisionKm, km)).Ok?
  {
    LeftCompiles(c, precisionKm);
    hide Compile;
    PlanCompilesOver(c, precisionKm, km);
  }

  lemma PlanCompilesOver(c: Columns, precisionKm: real, km: real)
    requires Compile(TwoTables(c), Generalised(c, precisionKm)).Ok?
    ensures Compile(TwoTables(c), PolarPlan(c, precisionKm, km)).Ok?
  {
    hide CompileUnary, SchemaOf, FilterScan, Boundary, Generalised;
    assert Compile(TwoTables(c), Scan("right", "B")).Ok?;
  }

  lemma PlanIsRegular(c: Columns, precisionKm: real, km: real)
    ensures var t := PolarPlan(c, precisionKm, km); ProperTree(t) && Aligned(t) && Consistent(t) && ScansFound(TwoTables(c), t)
    ensures NoSpatialJoin(PolarPlan(c, precisionKm, km).left) && NoSpatialJoin(PolarPlan(c, precisionKm, km).right)
  {}

  lemma LeftRewritten(g: Engine, c: Columns, precisionKm: real)
    requires Distinct(c) && precisionKm > 0.0
    ensures RewriteRow(g, Generalised(c, precisionKm).kind, (c.leftLatitude, c.leftLongitude), LeftRow(c)) == GridRow(c, precisionKm)
  {}

  lemma LeftMeaning(g: Engine, c: Columns, precisionKm: real)
    requires Distinct(c) && precisionKm > 0.0
    ensures Meaning(g, TwoTables(c), PolarData(c, precisionKm), Generalised(c, precisionKm)).rows == [GridRow(c, precisionKm)]
  {
    var kind, pair := Generalised(c, precisionKm).kind, (c.leftLatitude, c.leftLongitude);
    LeftCompiles(c, precisionKm);
    LeftRewritten(g, c, precisionKm);
    OneRewritten(g, kind, pair, LeftRow(c));
    var s := Source(TwoTables(c).catalog, TwoTables(c).bindings, PolarData(c, precisionKm));
    hide Compile, PairOf, RewriteRow, RewriteRows, LeftRow, GridRow, RightRow, Distinct;
    assert Eval(g, s, Scan("left", "A")).rows == [LeftRow(c)];
  }

  lemma RightMeaning(g: Engine, c: Columns, precisionKm: real)
    requires precisionKm > 0.0
    ensures Meaning(g, TwoTables(c), PolarData(c, precisionKm), Scan("right", "B")).rows == [RightRow(c, precisionKm)]
  {}

  lemma PointsMeet(g: Engine, c: Columns, precisionKm: real, km: real)
    requires Distinct(c) && precisionKm > 0.0 && km > 0.0 && RoundGlobe(g)
    ensures Joins(g, Nearby(c, km), GridRow(c, precisionKm), RightRow(c, precisionKm))
  {
    hide RoundGlobe, Overhang, MeridianCentre, Opposite;
    OverThePole(g, Overhang(precisionKm), MeridianCentre(precisionKm));
  }

  lemma BandMisses(g: Engine, c: Columns, precisionKm: real, km: real)
    requires Distinct(c) && precisionKm > 0.0 && Overhang(precisionKm) > 0.0 && Reach(g, km) < 2.0 * Overhang(precisionKm)
    ensures !InBand(g, Nearby(c, km), GridRow(c, precisionKm), RightRow(c, precisionKm))
  {
    hide Overhang, MeridianCentre, Opposite, Reach;
  }

  /** Wherever the grid puts the pole past itself, a distance that reaches less far than twice that loses a pair: the two
      points are one, the plan joins them, and its compiled statement returns nothing. All raw latitudes are on the
      globe. */
  lemma PolarJoinExample(g: Engine, c: Columns, precisionKm: real, km: real)
    requires RoundGlobe(g) && Distinct(c) && precisionKm > 0.0 && km > 0.0
    requires 0.0 < Overhang(precisionKm) <= 180.0 && Reach(g, km) < 2.0 * Overhang(precisionKm)
    ensures var cfg, t, db := TwoTables(c), PolarPlan(c, precisionKm, km), PolarData(c, precisionKm);
            && ProperTree(t) && Aligned(t) && Compile(cfg, t).Ok?
            && Accepts(Compile(cfg, t).value.sql, Compile(cfg, t).value.parameters)
            && Run(g, db, Compile(cfg, t).value).rows == []
            && Meaning(g, cfg, db, t).rows == [GridRow(c, precisionKm) + RightRow(c, precisionKm)]
    ensures OnGlobe(90.0) && OnGlobe(90.0 - Overhang(precisionKm))
  {
    var cfg, t, db := TwoTables(c), PolarPlan(c, precisionKm, km), PolarData(c, precisionKm);
    var s := Source(cfg.catalog, cfg.bindings, db);
    var l, r := GridRow(c, precisionKm), RightRow(c, precisionKm);
    PlanCompiles(c, precisionKm, km);
    PlanIsRegular(c, precisionKm, km);
    LeftMeaning(g, c, precisionKm);
    RightMeaning(g, c, precisionKm);
    PointsMeet(g, c, precisionKm, km);
    BandMisses(g, c, precisionKm, km);
    NoSpatialJoinIsHarmless(g, s, t.left);
    NoSpatialJoinIsHarmless(g, s, t.right);
    OnePair(g, t.kind, l, Eval(g, s, t.right), r);
    hide Compile, Exec, Run, Joins, InBand, Overhang, Reach, TwoTables, PolarData, GridRow, RightRow, Partners, Aligned, Consistent,
      ScansFound, BandHarmless, RoundGlobe, ProperTree, Generalised;
    AlignedRuns(g, cfg, db, t);
    ResolvedJoinExact(g, cfg, db, t.id, t.kind, t.left, t.right);
    assert l in [l] && r in [r];
    assert !BandKeeps(g, t.kind, [l], [r]);
  }

  /** On a grid of one degree the pole is half a degree past itself. */
  lemma OneDegreeGrid()
    ensures Overhang(111.045) == 0.5
  {
    assert GridStep(111.045) == 1.0;
    assert (180.0 / 1.0).Floor == 180;
  }
}
