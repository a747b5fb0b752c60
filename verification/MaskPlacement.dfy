/** Moving an output Mask down to an earlier projection: when the plan still means the same. */
module MaskPlacement {
  import opened Wrappers
  import opened Sql
  import opened Plan
  import opened SqlBinding
  import opened Compiler
  import opened ParameterOrder
  import opened CompiledMeaning
  import opened CompilerCorrectness

  /** The operators between the projection and the Mask, outermost first; the other side of a join is a whole plan. */
  datatype Path =
    | Here
    | Through(id: string, kind: Kind, below: Path)
    | LeftOf(id: string, kind: Kind, below: Path, right: Tree)
    | RightOf(id: string, kind: Kind, left: Tree, below: Path)

  function Plug(path: Path, t: Tree): Tree {
    match path
    case Here => t
    case Through(id, kind, below) => Unary(id, kind, Plug(below, t))
    case LeftOf(id, kind, below, right) => Binary(id, kind, Plug(below, t), right)
    case RightOf(id, kind, left, below) => Binary(id, kind, left, Plug(below, t))
  }

  /** `_placed_mask_specs`: only projections that keep the masked fields, sorts and joins on other fields may be crossed. */
  predicate Crossable(path: Path, masked: seq<string>) {
    match path
    case Here => true
    case Through(_, kind, below) =>
      && Crossable(below, masked)
      && (if kind.Project? then Elements(masked) <= Elements(kind.fields)
          else kind.Sort? && forall key | key in kind.keys :: key.field !in masked)
    case LeftOf(_, kind, below, _) => Crossable(below, masked) && kind.Join? && kind.leftField !in masked && kind.rightField !in masked
    case RightOf(_, kind, _, below) => Crossable(below, masked) && kind.Join? && kind.leftField !in masked && kind.rightField !in masked
  }

  /** The relation has none of these columns. */
  predicate Lacks(rel: Relation, masked: seq<string>) {
    (forall name | name in masked :: name !in rel.columns) && forall row, name | row in rel.rows && name in masked :: name !in row
  }

  /** What type checking adds: a join's other side has no column of a masked name. */
  ghost predicate NoCollision(g: Engine, s: Source, path: Path, masked: seq<string>) {
    match path
    case Here => true
    case Through(_, _, below) => NoCollision(g, s, below, masked)
    case LeftOf(_, _, below, right) => NoCollision(g, s, below, masked) && Lacks(Eval(g, s, right), masked)
    case RightOf(_, _, left, below) => NoCollision(g, s, below, masked) && Lacks(Eval(g, s, left), masked)
  }

  /** What the rules forget: a LEFT JOIN pads its right side with NULLs, which a Mask above it redacts too. */
  predicate NoRedactedPadding(path: Path, how: MaskMethod) {
    match path
    case Here => true
    case Through(_, _, below) => NoRedactedPadding(below, how)
    case LeftOf(_, _, below, _) => NoRedactedPadding(below, how)
    case RightOf(_, kind, _, below) => NoRedactedPadding(below, how) && (kind.Join? && kind.leftOuter ==> !how.Redact?)
  }

  predicate CrossesSort(path: Path) {
    match path
    case Here => false
    case Through(_, kind, below) => kind.Sort? || CrossesSort(below)
    case LeftOf(_, _, below, _) => CrossesSort(below)
    case RightOf(_, _, _, below) => CrossesSort(below)
  }

  /** Sorting looks at the sort keys and nothing else. */
  ghost predicate SortsByKeys(g: Engine) {
    forall keys, rows, rows' :: SameKeys(keys, rows, rows') ==> g.arrange(keys, rows) == g.arrange(keys, rows')
  }

  predicate SameKeys(keys: seq<SortKey>, rows: seq<Row>, rows': seq<Row>) {
    |rows| == |rows'| && forall i, key | 0 <= i < |rows| && key in keys :: Get(rows[i], key.field) == Get(rows'[i], key.field)
  }

  // ----- masking one row -----

  function MaskRow(g: Engine, masked: seq<string>, how: MaskMethod, row: Row): Row {
    row + (map f | f in masked :: MaskValue(g, how, Get(row, f)))
  }

  function MaskRows(g: Engine, masked: seq<string>, how: MaskMethod, rows: seq<Row>): seq<Row> {
    seq(|rows|, i requires 0 <= i < |rows| => MaskRow(g, masked, how, rows[i]))
  }

  lemma {:induction false} MaskRewrites(g: Engine, masked: seq<string>, how: MaskMethod, pair: (string, string), rows: seq<Row>)
    ensures RewriteRows(g, Mask(masked, how), pair, rows) == MaskRows(g, masked, how, rows)
  {
    hide MaskRow;
    if rows != [] {
      MaskRewrites(g, masked, how, pair, rows[1..]);
      assert RewriteRow(g, Mask(masked, how), pair, rows[0]) == MaskRow(g, masked, how, rows[0]) by { RowRewrite(g, masked, how, pair, rows[0]); }
    }
  }

  lemma RowRewrite(g: Engine, masked: seq<string>, how: MaskMethod, pair: (string, string), row: Row)
    ensures RewriteRow(g, Mask(masked, how), pair, row) == MaskRow(g, masked, how, row)
  {}

  lemma MaskGet(g: Engine, masked: seq<string>, how: MaskMethod, row: Row, name: string)
    ensures Get(MaskRow(g, masked, how, row), name) == if name in masked then MaskValue(g, how, Get(row, name)) else Get(row, name)
  {}

  /** A projection that keeps the masked columns commutes with the Mask. */
  lemma NarrowMasked(g: Engine, masked: seq<string>, how: MaskMethod, fields: seq<string>, row: Row)
    requires Elements(masked) <= Elements(fields)
    ensures Narrow(fields, MaskRow(g, masked, how, row)) == MaskRow(g, masked, how, Narrow(fields, row))
  {
    forall f | f in masked ensures f in fields { assert f in Elements(masked); }
    hide MaskValue;
  }

  lemma {:induction false} ProjectMasked(g: Engine, masked: seq<string>, how: MaskMethod, fields: seq<string>, pair: (string, string), rows: seq<Row>)
    requires Elements(masked) <= Elements(fields)
    ensures RewriteRows(g, Project(fields), pair, MaskRows(g, masked, how, rows))
            == MaskRows(g, masked, how, RewriteRows(g, Project(fields), pair, rows))
  {
    if rows != [] {
      MaskRest(g, masked, how, rows);
      NarrowMasked(g, masked, how, fields, rows[0]);
      MaskAppend(g, masked, how, [Narrow(fields, rows[0])], RewriteRows(g, Project(fields), pair, rows[1..]));
      MaskOne(g, masked, how, Narrow(fields, rows[0]));
      hide MaskRow, Narrow, MaskRows, Elements;
      ProjectMasked(g, masked, how, fields, pair, rows[1..]);
    }
  }

  lemma MaskOne(g: Engine, masked: seq<string>, how: MaskMethod, row: Row)
    ensures MaskRows(g, masked, how, [row]) == [MaskRow(g, masked, how, row)]
    ensures MaskRows(g, masked, how, []) == []
  {
    hide MaskRow;
  }

  /** Sorting on other columns commutes with the Mask. */
  lemma SortMasked(g: Engine, masked: seq<string>, how: MaskMethod, keys: seq<SortKey>, rows: seq<Row>)
    requires SortsByKeys(g) && forall key | key in keys :: key.field !in masked
    ensures SortRows(g, keys, MaskRows(g, masked, how, rows)) == MaskRows(g, masked, how, SortRows(g, keys, rows))
  {
    var other := MaskRows(g, masked, how, rows);
    forall i, key | 0 <= i < |rows| && key in keys ensures Get(rows[i], key.field) == Get(other[i], key.field) {
      MaskGet(g, masked, how, rows[i], key.field);
    }
    assert SameKeys(keys, rows, other);
    hide MaskRow, SameKeys;
    assert Order(g, keys, rows) == Order(g, keys, other);
  }

  // ----- joins -----

  /** The masked columns are all on the left. */
  lemma LeftMasked(g: Engine, masked: seq<string>, how: MaskMethod, l: Row, r: Row)
    requires forall f | f in masked :: f !in r
    ensures MaskRow(g, masked, how, l) + r == MaskRow(g, masked, how, l + r)
  {
    hide MaskValue;
    var early, late := MaskRow(g, masked, how, l) + r, MaskRow(g, masked, how, l + r);
    assert early.Keys == late.Keys;
    forall k | k in early ensures early[k] == late[k] {
      if k in masked { assert Get(l + r, k) == Get(l, k); }
    }
  }

  /** The masked columns are all on the right. */
  lemma RightMasked(g: Engine, masked: seq<string>, how: MaskMethod, l: Row, r: Row)
    requires forall f | f in masked :: f !in l
    ensures l + MaskRow(g, masked, how, r) == MaskRow(g, masked, how, l + r)
  {
    hide MaskValue;
    var early, late := l + MaskRow(g, masked, how, r), MaskRow(g, masked, how, l + r);
    assert early.Keys == late.Keys;
    forall k | k in early ensures early[k] == late[k] {
      if k in masked { assert Get(l + r, k) == Get(r, k); }
    }
  }

  lemma JoinsMasked(g: Engine, masked: seq<string>, how: MaskMethod, kind: Kind, l: Row, r: Row)
    requires kind.Join? && kind.leftField !in masked && kind.rightField !in masked
    ensures Joins(g, kind, MaskRow(g, masked, how, l), r) == Joins(g, kind, l, r)
    ensures Joins(g, kind, l, MaskRow(g, masked, how, r)) == Joins(g, kind, l, r)
  {
    MaskGet(g, masked, how, l, kind.leftField);
    MaskGet(g, masked, how, r, kind.rightField);
    hide MaskRow;
  }

  function Partner(g: Engine, kind: Kind, l: Row, r: Row): seq<Row> {
    if Joins(g, kind, l, r) then [l + r] else []
  }

  lemma PartnerLeft(g: Engine, masked: seq<string>, how: MaskMethod, kind: Kind, l: Row, r: Row)
    requires kind.Join? && kind.leftField !in masked && kind.rightField !in masked && forall f | f in masked :: f !in r
    ensures Partner(g, kind, MaskRow(g, masked, how, l), r) == MaskRows(g, masked, how, Partner(g, kind, l, r))
  {
    JoinsMasked(g, masked, how, kind, l, r);
    LeftMasked(g, masked, how, l, r);
    MaskOne(g, masked, how, l + r);
    hide MaskRow, Joins, MaskRows;
  }

  lemma PartnerRight(g: Engine, masked: seq<string>, how: MaskMethod, kind: Kind, l: Row, r: Row)
    requires kind.Join? && kind.leftField !in masked && kind.rightField !in masked && forall f | f in masked :: f !in l
    ensures Partner(g, kind, l, MaskRow(g, masked, how, r)) == MaskRows(g, masked, how, Partner(g, kind, l, r))
  {
    JoinsMasked(g, masked, how, kind, l, r);
    RightMasked(g, masked, how, l, r);
    MaskOne(g, masked, how, l + r);
    hide MaskRow, Joins, MaskRows;
  }

  lemma MaskAppend(g: Engine, masked: seq<string>, how: MaskMethod, a: seq<Row>, b: seq<Row>)
    ensures MaskRows(g, masked, how, a + b) == MaskRows(g, masked, how, a) + MaskRows(g, masked, how, b)
  {
    hide MaskRow;
  }

  lemma MaskRest(g: Engine, masked: seq<string>, how: MaskMethod, rows: seq<Row>)
    requires rows != []
    ensures MaskRows(g, masked, how, rows) != [] && MaskRows(g, masked, how, rows)[0] == MaskRow(g, masked, how, rows[0])
    ensures MaskRows(g, masked, how, rows)[1..] == MaskRows(g, masked, how, rows[1..])
  {
    hide MaskRow;
  }

  lemma {:induction false} PartnersLeft(g: Engine, masked: seq<string>, how: MaskMethod, kind: Kind, l: Row, rights: seq<Row>)
    requires kind.Join? && kind.leftField !in masked && kind.rightField !in masked
    requires forall r, f | r in rights && f in masked :: f !in r
    ensures Partners(g, kind, MaskRow(g, masked, how, l), rights) == MaskRows(g, masked, how, Partners(g, kind, l, rights))
  {
    if rights != [] {
      assert rights[0] in rights;
      PartnerLeft(g, masked, how, kind, l, rights[0]);
      MaskAppend(g, masked, how, Partner(g, kind, l, rights[0]), Partners(g, kind, l, rights[1..]));
      forall r | r in rights[1..] ensures r in rights {}
      hide MaskRow, Joins, MaskRows;
      PartnersLeft(g, masked, how, kind, l, rights[1..]);
    }
  }

  lemma {:induction false} PartnersRight(g: Engine, masked: seq<string>, how: MaskMethod, kind: Kind, l: Row, rights: seq<Row>)
    requires kind.Join? && kind.leftField !in masked && kind.rightField !in masked
    requires forall f | f in masked :: f !in l
    ensures Partners(g, kind, l, MaskRows(g, masked, how, rights)) == MaskRows(g, masked, how, Partners(g, kind, l, rights))
  {
    if rights != [] {
      PartnerRight(g, masked, how, kind, l, rights[0]);
      MaskAppend(g, masked, how, Partner(g, kind, l, rights[0]), Partners(g, kind, l, rights[1..]));
      MaskRest(g, masked, how, rights);
      hide MaskRow, Joins, MaskRows;
      PartnersRight(g, masked, how, kind, l, rights[1..]);
    }
  }

  function Block(g: Engine, kind: Kind, l: Row, right: Relation): seq<Row> {
    var partners := Partners(g, kind, l, right.rows);
    if kind.Join? && kind.leftOuter && partners == [] then [l + Padding(right.columns)] else partners
  }

  lemma {:induction false} JoinLeftMasked(g: Engine, masked: seq<string>, how: MaskMethod, kind: Kind, lefts: seq<Row>, right: Relation)
    requires kind.Join? && kind.leftField !in masked && kind.rightField !in masked && Lacks(right, masked)
    ensures PairRows(g, kind, MaskRows(g, masked, how, lefts), right) == MaskRows(g, masked, how, PairRows(g, kind, lefts, right))
  {
    if lefts != [] {
      PartnersLeft(g, masked, how, kind, lefts[0], right.rows);
      LeftMasked(g, masked, how, lefts[0], Padding(right.columns));
      MaskOne(g, masked, how, lefts[0] + Padding(right.columns));
      MaskRest(g, masked, how, lefts);
      assert |MaskRows(g, masked, how, Partners(g, kind, lefts[0], right.rows))| == |Partners(g, kind, lefts[0], right.rows)|;
      hide MaskRow, MaskRows, Partners, Lacks, Padding;
      JoinLeftMasked(g, masked, how, kind, lefts[1..], right);
      MaskAppend(g, masked, how, Block(g, kind, lefts[0], right), PairRows(g, kind, lefts[1..], right));
    }
  }

  /** NULL padding looks the same below the Mask and above it exactly when the Mask leaves NULL alone. */
  lemma PaddingMasked(g: Engine, masked: seq<string>, how: MaskMethod, l: Row, columns: seq<string>)
    requires forall f | f in masked :: f !in l && f in columns
    ensures l + Padding(columns) == MaskRow(g, masked, how, l + Padding(columns)) <==> masked == [] || !how.Redact?
  {
    var padded := l + Padding(columns);
    assert forall f | f in masked :: f in padded && Get(padded, f) == Null;
    if masked != [] && how.Redact? {
      MaskGet(g, masked, how, padded, masked[0]);
      assert masked[0] in masked && Get(padded, masked[0]) != MaskValue(g, how, Null);
    } else {
      assert MaskRow(g, masked, how, padded) == padded;
    }
  }

  lemma {:induction false} JoinRightMasked(g: Engine, masked: seq<string>, how: MaskMethod, kind: Kind, lefts: seq<Row>, right: Relation)
    requires kind.Join? && kind.leftField !in masked && kind.rightField !in masked
    requires forall l, f | l in lefts && f in masked :: f !in l
    requires (kind.leftOuter ==> !how.Redact?) && forall f | f in masked :: f in right.columns
    ensures PairRows(g, kind, lefts, Relation(right.columns, MaskRows(g, masked, how, right.rows)))
            == MaskRows(g, masked, how, PairRows(g, kind, lefts, right))
  {
    if lefts != [] {
      assert lefts[0] in lefts;
      PartnersRight(g, masked, how, kind, lefts[0], right.rows);
      PaddingMasked(g, masked, how, lefts[0], right.columns);
      hide MaskRow, Partners, Padding;
      JoinRightMasked(g, masked, how, kind, lefts[1..], right);
      MaskAppend(g, masked, how, Block(g, kind, lefts[0], right), PairRows(g, kind, lefts[1..], right));
    }
  }

  // ----- the whole path -----

  function Masked(g: Engine, masked: seq<string>, how: MaskMethod, rel: Relation): Relation {
    Relation(rel.columns, MaskRows(g, masked, how, rel.rows))
  }

  lemma MaskEval(g: Engine, s: Source, id: string, masked: seq<string>, how: MaskMethod, t: Tree)
    ensures Eval(g, s, Unary(id, Mask(masked, how), t)) == Masked(g, masked, how, Eval(g, s, t))
  {
    MaskRewrites(g, masked, how, PairOf(s.catalog, Mask(masked, how), t), Eval(g, s, t).rows);
    hide MaskRows, RewriteRows, PairOf;
  }

  lemma {:induction false} ColumnsKept(g: Engine, s: Source, path: Path, masked: seq<string>, t: Tree)
    requires Crossable(path, masked) && Elements(masked) <= Elements(Eval(g, s, t).columns)
    ensures Elements(masked) <= Elements(Eval(g, s, Plug(path, t)).columns)
  {
    hide PairRows, RewriteRows, SortRows, PairOf;
    match path
    case Here =>
    case Through(_, _, below) => ColumnsKept(g, s, below, masked, t);
    case LeftOf(_, _, below, _) => ColumnsKept(g, s, below, masked, t);
    case RightOf(_, _, _, below) => ColumnsKept(g, s, below, masked, t);
  }

  lemma ThroughMasked(g: Engine, s: Source, kind: Kind, masked: seq<string>, how: MaskMethod, rel: Relation)
    requires kind.Sort? ==> SortsByKeys(g)
    requires if kind.Project? then Elements(masked) <= Elements(kind.fields)
             else kind.Sort? && forall key | key in kind.keys :: key.field !in masked
    ensures Operate(g, kind, ("", ""), Masked(g, masked, how, rel)) == Masked(g, masked, how, Operate(g, kind, ("", ""), rel))
  {
    if kind.Project? {
      ProjectMasked(g, masked, how, kind.fields, ("", ""), rel.rows);
    } else {
      SortMasked(g, masked, how, kind.keys, rel.rows);
    }
    hide MaskRows, RewriteRows, SortRows, SortsByKeys;
  }

  /** The Mask may go down a path the planner allows, unless that takes a redaction below the optional side of a LEFT
      JOIN: the rows are the same, in the same order. */
  lemma {:induction false} PlacementPreserves(g: Engine, s: Source, path: Path, id: string, masked: seq<string>, how: MaskMethod, target: Tree)
    requires (CrossesSort(path) ==> SortsByKeys(g))
    requires Crossable(path, masked) && NoCollision(g, s, path, masked) && NoRedactedPadding(path, how)
    requires Elements(masked) <= Elements(Eval(g, s, target).columns)
    ensures Eval(g, s, Plug(path, Unary(id, Mask(masked, how), target))) == Masked(g, masked, how, Eval(g, s, Plug(path, target)))
    ensures Eval(g, s, Plug(path, Unary(id, Mask(masked, how), target))) == Eval(g, s, Unary(id, Mask(masked, how), Plug(path, target)))
  {
    var mask := Unary(id, Mask(masked, how), target);
    MaskEval(g, s, id, masked, how, Plug(path, target));
    hide MaskRows, PairRows, Operate, SortsByKeys, RewriteRow;
    match path
    case Here =>
    case Through(_, kind, below) =>
      PlacementPreserves(g, s, below, id, masked, how, target);
      ThroughMasked(g, s, kind, masked, how, Eval(g, s, Plug(below, target)));
    case LeftOf(_, kind, below, right) =>
      PlacementPreserves(g, s, below, id, masked, how, target);
      JoinLeftMasked(g, masked, how, kind, Eval(g, s, Plug(below, target)).rows, Eval(g, s, right));
    case RightOf(_, kind, left, below) =>
      PlacementPreserves(g, s, below, id, masked, how, target);
      ColumnsKept(g, s, below, masked, target);
      RightSide(g, masked, how, kind, Eval(g, s, left), Eval(g, s, Plug(below, target)));
  }

  lemma RightSide(g: Engine, masked: seq<string>, how: MaskMethod, kind: Kind, left: Relation, right: Relation)
    requires kind.Join? && kind.leftField !in masked && kind.rightField !in masked && Lacks(left, masked)
    requires (kind.leftOuter ==> !how.Redact?) && Elements(masked) <= Elements(right.columns)
    ensures PairRows(g, kind, left.rows, Masked(g, masked, how, right)) == MaskRows(g, masked, how, PairRows(g, kind, left.rows, right))
  {
    forall f | f in masked ensures f in right.columns { assert f in Elements(masked); }
    hide MaskRows, PairRows;
    JoinRightMasked(g, masked, how, kind, left.rows, right);
  }

  // ----- the compiled statements -----

  /** The Mask may need its parameters first, and an earlier place has fewer before it: if the plan was aligned with the
      Mask on top, it is aligned with the Mask moved down. */
  lemma {:induction false} PlacementKeepsAlignment(path: Path, id: string, masked: seq<string>, how: MaskMethod, target: Tree)
    requires Crossable(path, masked) && Aligned(Unary(id, Mask(masked, how), Plug(path, target)))
    ensures Aligned(Plug(path, Unary(id, Mask(masked, how), target)))
  {
    hide Pushes, Elements;
    match path
    case Here =>
    case Through(_, _, below) => PlacementKeepsAlignment(below, id, masked, how, target);
    case LeftOf(_, _, below, _) => PlacementKeepsAlignment(below, id, masked, how, target);
    case RightOf(_, _, _, below) => PlacementKeepsAlignment(below, id, masked, how, target);
  }

  lemma {:induction false} PlacementKeepsScans(cfg: Config, path: Path, id: string, masked: seq<string>, how: MaskMethod, target: Tree)
    requires Crossable(path, masked) && ScansFound(cfg, Unary(id, Mask(masked, how), Plug(path, target)))
    ensures ScansFound(cfg, Plug(path, Unary(id, Mask(masked, how), target)))
  {
    hide Elements;
    match path
    case Here =>
    case Through(_, _, below) => PlacementKeepsScans(cfg, below, id, masked, how, target);
    case LeftOf(_, _, below, _) => PlacementKeepsScans(cfg, below, id, masked, how, target);
    case RightOf(_, _, _, below) => PlacementKeepsScans(cfg, below, id, masked, how, target);
  }

  /** No spatial join is crossed, so the latitude bands see the same rows. */
  lemma {:induction false} PlacementKeepsBands(g: Engine, s: Source, path: Path, id: string, masked: seq<string>, how: MaskMethod, target: Tree)
    requires Crossable(path, masked) && BandHarmless(g, s, Unary(id, Mask(masked, how), Plug(path, target)))
    ensures BandHarmless(g, s, Plug(path, Unary(id, Mask(masked, how), target)))
  {
    hide Elements, Eval, Joins;
    match path
    case Here =>
    case Through(_, _, below) => PlacementKeepsBands(g, s, below, id, masked, how, target);
    case LeftOf(_, _, below, _) => PlacementKeepsBands(g, s, below, id, masked, how, target);
    case RightOf(_, _, _, below) => PlacementKeepsBands(g, s, below, id, masked, how, target);
  }

  /** The two plans are one plan with its Mask in two places. */
  ghost predicate Moved(late: Tree, early: Tree, path: Path, id: string, masked: seq<string>, how: MaskMethod, target: Tree) {
    late == Unary(id, Mask(masked, how), Plug(path, target)) && early == Plug(path, Unary(id, Mask(masked, how), target))
  }

  /** What the planner and the type checker establish about a move, and the LEFT JOIN it should not cross. */
  ghost predicate Placeable(g: Engine, s: Source, path: Path, masked: seq<string>, how: MaskMethod, target: Tree) {
    && (CrossesSort(path) ==> SortsByKeys(g))
    && Crossable(path, masked) && NoCollision(g, s, path, masked) && NoRedactedPadding(path, how)
    && Elements(masked) <= Elements(Eval(g, s, target).columns)
  }

  /** As written: if the plan runs correctly with the Mask on top, the rewired plan compiles to a statement with the
      same result. */
  lemma PlacedPlansRunAlike(g: Engine, cfg: Config, db: Database, late: Graph, lateRank: map<string, nat>, lateOutput: string,
                            early: Graph, earlyRank: map<string, nat>, earlyOutput: string,
                            path: Path, id: string, masked: seq<string>, how: MaskMethod, target: Tree)
    requires Acyclic(late, lateRank) && lateOutput in late && Acyclic(early, earlyRank) && earlyOutput in early
    requires Moved(Unfold(late, lateRank, lateOutput), Unfold(early, earlyRank, earlyOutput), path, id, masked, how, target)
    requires Compile(cfg, Unfold(late, lateRank, lateOutput)).Ok? && Compile(cfg, Unfold(early, earlyRank, earlyOutput)).Ok?
    requires Placeable(g, Source(cfg.catalog, cfg.bindings, db), path, masked, how, target)
    requires !cfg.corrected && Aligned(Unfold(late, lateRank, lateOutput)) && ScansFound(cfg, Unfold(late, lateRank, lateOutput))
    requires BandHarmless(g, Source(cfg.catalog, cfg.bindings, db), Unfold(late, lateRank, lateOutput))
    ensures var a, b := Compile(cfg, Unfold(late, lateRank, lateOutput)).value, Compile(cfg, Unfold(early, earlyRank, earlyOutput)).value;
            Accepts(a.sql, a.parameters) && Accepts(b.sql, b.parameters) && Run(g, db, a) == Run(g, db, b)
  {
    var s := Source(cfg.catalog, cfg.bindings, db);
    hide Compile, Eval, Acyclic, Unfold, Crossable, NoCollision, NoRedactedPadding, SortsByKeys, Elements, Run, Accepts, Aligned,
      ScansFound, BandHarmless;
    PlacementKeepsAlignment(path, id, masked, how, target);
    PlacementKeepsScans(cfg, path, id, masked, how, target);
    PlacementKeepsBands(g, s, path, id, masked, how, target);
    CompiledPlanCorrect(g, cfg, db, late, lateRank, lateOutput);
    CompiledPlanCorrect(g, cfg, db, early, earlyRank, earlyOutput);
    PlacementPreserves(g, s, path, id, masked, how, target);
  }

  /** Corrected: the rewired plan always compiles to a statement with the same result. */
  lemma CorrectedPlansRunAlike(g: Engine, cfg: Config, db: Database, late: Graph, lateRank: map<string, nat>, lateOutput: string,
                               early: Graph, earlyRank: map<string, nat>, earlyOutput: string,
                               path: Path, id: string, masked: seq<string>, how: MaskMethod, target: Tree)
    requires Acyclic(late, lateRank) && lateOutput in late && Acyclic(early, earlyRank) && earlyOutput in early
    requires Moved(Unfold(late, lateRank, lateOutput), Unfold(early, earlyRank, earlyOutput), path, id, masked, how, target)
    requires Compile(cfg, Unfold(late, lateRank, lateOutput)).Ok? && Compile(cfg, Unfold(early, earlyRank, earlyOutput)).Ok?
    requires Placeable(g, Source(cfg.catalog, cfg.bindings, db), path, masked, how, target)
    requires cfg.corrected && BandHarmless(g, Source(cfg.catalog, cfg.bindings, db), Unfold(late, lateRank, lateOutput))
    ensures var a, b := Compile(cfg, Unfold(late, lateRank, lateOutput)).value, Compile(cfg, Unfold(early, earlyRank, earlyOutput)).value;
            Accepts(a.sql, a.parameters) && Accepts(b.sql, b.parameters) && Run(g, db, a) == Run(g, db, b)
  {
    var s := Source(cfg.catalog, cfg.bindings, db);
    hide Compile, Eval, Acyclic, Unfold, Crossable, NoCollision, NoRedactedPadding, SortsByKeys, Elements, Run, Accepts, BandHarmless;
    PlacementKeepsBands(g, s, path, id, masked, how, target);
    CorrectedPlanCorrect(g, cfg, db, late, lateRank, lateOutput);
    CorrectedPlanCorrect(g, cfg, db, early, earlyRank, earlyOutput);
    PlacementPreserves(g, s, path, id, masked, how, target);
  }

  // ----- the path the rules should not allow -----

  lemma SameParts<T>(a: seq<T>, b: seq<T>, c: seq<T>, d: seq<T>)
    requires |a| == |c|
    ensures a + b == c + d <==> a == c && b == d
  {
    if a + b == c + d { assert (a + b)[..|a|] == a && (c + d)[..|c|] == c && (a + b)[|a|..] == b && (c + d)[|c|..] == d; }
  }

  /** One left row: redacting below the LEFT JOIN shows in the result exactly when the row has no partner. */
  lemma BlockExact(g: Engine, masked: seq<string>, kind: Kind, l: Row, right: Relation)
    requires kind.Join? && kind.leftOuter && kind.leftField !in masked && kind.rightField !in masked && masked != []
    requires forall f | f in masked :: f !in l && f in right.columns
    ensures |Block(g, kind, l, Masked(g, masked, Redact, right))| == |MaskRows(g, masked, Redact, Block(g, kind, l, right))|
    ensures Block(g, kind, l, Masked(g, masked, Redact, right)) == MaskRows(g, masked, Redact, Block(g, kind, l, right))
            <==> Partners(g, kind, l, right.rows) != []
  {
    PartnersRight(g, masked, Redact, kind, l, right.rows);
    PaddingMasked(g, masked, Redact, l, right.columns);
    MaskOne(g, masked, Redact, l + Padding(right.columns));
    assert |MaskRows(g, masked, Redact, Partners(g, kind, l, right.rows))| == |Partners(g, kind, l, right.rows)|;
    hide MaskRow, MaskRows, Padding, Partners;
  }

  predicate AllPartnered(g: Engine, kind: Kind, lefts: seq<Row>, rights: seq<Row>) {
    forall l | l in lefts :: Partners(g, kind, l, rights) != []
  }

  lemma {:induction false} OuterRowsExact(g: Engine, masked: seq<string>, kind: Kind, lefts: seq<Row>, right: Relation)
    requires kind.Join? && kind.leftOuter && kind.leftField !in masked && kind.rightField !in masked && masked != []
    requires forall l, f | l in lefts && f in masked :: f !in l
    requires forall f | f in masked :: f in right.columns
    ensures PairRows(g, kind, lefts, Masked(g, masked, Redact, right)) == MaskRows(g, masked, Redact, PairRows(g, kind, lefts, right))
            <==> AllPartnered(g, kind, lefts, right.rows)
  {
    if lefts != [] {
      assert lefts[0] in lefts && lefts == [lefts[0]] + lefts[1..];
      BlockExact(g, masked, kind, lefts[0], right);
      MaskAppend(g, masked, Redact, Block(g, kind, lefts[0], right), PairRows(g, kind, lefts[1..], right));
      OuterRowsExact(g, masked, kind, lefts[1..], right);
      SameParts(Block(g, kind, lefts[0], Masked(g, masked, Redact, right)), PairRows(g, kind, lefts[1..], Masked(g, masked, Redact, right)),
                MaskRows(g, masked, Redact, Block(g, kind, lefts[0], right)), MaskRows(g, masked, Redact, PairRows(g, kind, lefts[1..], right)));
      hide MaskRows, Partners, Block;
    }
  }

  /** Across a LEFT JOIN on its optional side a redaction keeps the plan's rows exactly when every left row has a partner:
      padded rows hold NULL where the Mask above the join would have written its token. */
  lemma OuterRedactionExact(g: Engine, s: Source, id: string, join: string, kind: Kind, masked: seq<string>, left: Tree, target: Tree)
    requires kind.Join? && kind.leftOuter && kind.leftField !in masked && kind.rightField !in masked && masked != []
    requires Lacks(Eval(g, s, left), masked) && Elements(masked) <= Elements(Eval(g, s, target).columns)
    ensures Crossable(RightOf(join, kind, left, Here), masked)
    ensures Eval(g, s, Binary(join, kind, left, Unary(id, Mask(masked, Redact), target)))
            == Eval(g, s, Unary(id, Mask(masked, Redact), Binary(join, kind, left, target)))
            <==> AllPartnered(g, kind, Eval(g, s, left).rows, Eval(g, s, target).rows)
  {
    hide Eval, PairRows, MaskRows, AllPartnered;
    var l, right := Eval(g, s, left), Eval(g, s, target);
    OuterRelationsExact(g, masked, kind, l, right);
    hide Lacks, Elements;
    MaskEval(g, s, id, masked, Redact, target);
    MaskEval(g, s, id, masked, Redact, Binary(join, kind, left, target));
    JoinEval(g, s, join, kind, left, target);
    JoinEval(g, s, join, kind, left, Unary(id, Mask(masked, Redact), target));
  }

  lemma OuterRelationsExact(g: Engine, masked: seq<string>, kind: Kind, left: Relation, right: Relation)
    requires kind.Join? && kind.leftOuter && kind.leftField !in masked && kind.rightField !in masked && masked != []
    requires Lacks(left, masked) && Elements(masked) <= Elements(right.columns)
    ensures PairRows(g, kind, left.rows, Masked(g, masked, Redact, right)) == MaskRows(g, masked, Redact, PairRows(g, kind, left.rows, right))
            <==> AllPartnered(g, kind, left.rows, right.rows)
  {
    forall f | f in masked ensures f in right.columns { assert f in Elements(masked); }
    hide PairRows, MaskRows, AllPartnered;
    OuterRowsExact(g, masked, kind, left.rows, right);
  }

  lemma JoinEval(g: Engine, s: Source, id: string, kind: Kind, left: Tree, right: Tree)
    ensures Eval(g, s, Binary(id, kind, left, right))
            == Relation(Eval(g, s, left).columns + Eval(g, s, right).columns, PairRows(g, kind, Eval(g, s, left).rows, Eval(g, s, right)))
  {}
}
