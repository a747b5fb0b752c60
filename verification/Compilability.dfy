/** Which plans compile, and what is wrong with those that do not. */
module Compilability {
  import opened Wrappers
  import opened Sql
  import opened Plan
  import opened Compiler
  import opened CompilerCorrectness

  // ----- what the operators ask of schemas and catalog -----

  /** The field a name stands for: the first one that has it. */
  predicate Declares(fields: seq<FieldDescriptor>, name: string, k: nat) {
    k < |fields| && fields[k].name == name && forall j | 0 <= j < k :: fields[j].name != name
  }

  predicate HasField(fields: seq<FieldDescriptor>, name: string) {
    exists k | 0 <= k < |fields| :: fields[k].name == name
  }

  predicate HasStringField(fields: seq<FieldDescriptor>, name: string) {
    exists k: nat | k < |fields| :: Declares(fields, name, k) && fields[k].isString
  }

  /** Exactly one coordinate pair has these names, and it is in EPSG:4326. */
  predicate HasOnePair(spatial: seq<SpatialDescriptor>, names: set<string>) {
    exists k: nat | k < |spatial| :: OnlyPair(spatial, names, k) && spatial[k].epsg4326
  }

  predicate OnlyPair(spatial: seq<SpatialDescriptor>, names: set<string>, k: nat)
    requires k < |spatial|
  {
    Coordinates(spatial[k]) == names && forall j | 0 <= j < |spatial| && j != k :: Coordinates(spatial[j]) != names
  }

  /** The operator at the root is one the backend can execute over its input. */
  ghost predicate OperatorServed(cfg: Config, t: Tree) {
    match t
    case Scan(_, dataset) => dataset in cfg.catalog && dataset in cfg.bindings
    case Binary(_, kind, _, _) => kind.SpatialJoin? ==> kind.distanceWithin && kind.distanceKm.Some?
    case Unary(_, kind, input) =>
      var schema := SchemaOf(cfg.catalog, input);
      match kind
      case SpatialFilter(_, _, _) =>
        var scan := FilterScan(cfg, input);
        scan.Some? && scan.value in cfg.catalog && cfg.catalog[scan.value].spatial.Some?
      case Mask(masked, how) =>
        forall name | name in masked :: if how.Hash? then HasStringField(schema.fields, name) else HasField(schema.fields, name)
      case GeneralizeLocation(coordinates, _) => HasOnePair(schema.spatial, Elements(coordinates))
      case LineageCapture(sourceLevel) => sourceLevel
      case MinGroupSize(_) => false
      case _ => true
  }

  /** Every operator of the plan is. */
  ghost predicate Executable(cfg: Config, t: Tree) {
    OperatorServed(cfg, t) && match t
      case Scan(_, _) => true
      case Unary(_, _, input) => Executable(cfg, input)
      case Binary(_, _, left, right) => Executable(cfg, left) && Executable(cfg, right)
  }

  // ----- what can be wrong with an operator -----

  /** The fault an error names, at the root. */
  ghost predicate OperatorFault(cfg: Config, t: Tree, error: CompileError) {
    match error
    case UnknownDataset => t.Scan? && t.dataset !in cfg.catalog
    case NoTableBinding => t.Scan? && t.dataset in cfg.catalog && t.dataset !in cfg.bindings
    case NoScanAncestor => t.Unary? && t.kind.SpatialFilter? && FilterScan(cfg, t.input).None?
    case NoSpatialMetadata =>
      && t.Unary? && t.kind.SpatialFilter? && FilterScan(cfg, t.input).Some?
      && var dataset := FilterScan(cfg, t.input).value; dataset !in cfg.catalog || cfg.catalog[dataset].spatial.None?
    case MaskFieldMissing =>
      t.Unary? && t.kind.Mask? && exists name | name in t.kind.masked :: !HasField(SchemaOf(cfg.catalog, t.input).fields, name)
    case HashNeedsString =>
      t.Unary? && t.kind.Mask? && t.kind.how.Hash?
      && exists name | name in t.kind.masked ::
           HasField(SchemaOf(cfg.catalog, t.input).fields, name) && !HasStringField(SchemaOf(cfg.catalog, t.input).fields, name)
    case NotACoordinatePair =>
      t.Unary? && t.kind.GeneralizeLocation? && !HasOnePair(SchemaOf(cfg.catalog, t.input).spatial, Elements(t.kind.coordinates))
    case UnsupportedSpatialJoin => t.Binary? && t.kind.SpatialJoin? && (!t.kind.distanceWithin || t.kind.distanceKm.None?)
    case RecordLineageUnavailable => t.Unary? && t.kind.LineageCapture? && !t.kind.sourceLevel
    case NotExecutable => t.Unary? && t.kind.MinGroupSize?
    case OutputMissing => false
  }

  /** Some operator of the plan has the fault. */
  ghost predicate Faulty(cfg: Config, t: Tree, error: CompileError) {
    OperatorFault(cfg, t, error) || match t
      case Scan(_, _) => false
      case Unary(_, _, input) => Faulty(cfg, input, error)
      case Binary(_, _, left, right) => Faulty(cfg, left, error) || Faulty(cfg, right, error)
  }

  // ----- fields and pairs -----

  lemma {:induction false} FieldFound(fields: seq<FieldDescriptor>, name: string)
    ensures FindField(fields, name).Some? <==> HasField(fields, name)
    ensures FindField(fields, name).Some? ==> exists k: nat :: Declares(fields, name, k) && fields[k] == FindField(fields, name).value
  {
    if fields != [] {
      FieldFound(fields[1..], name);
      assert forall k | 0 < k < |fields| :: fields[k] == fields[1..][k - 1];
      if fields[0].name == name {
        assert Declares(fields, name, 0);
      } else if FindField(fields[1..], name).Some? {
        var k: nat :| Declares(fields[1..], name, k) && fields[1..][k] == FindField(fields[1..], name).value;
        assert Declares(fields, name, k + 1);
      }
    }
  }

  lemma StringFieldFound(fields: seq<FieldDescriptor>, name: string)
    ensures HasStringField(fields, name) <==> FindField(fields, name).Some? && FindField(fields, name).value.isString
    ensures HasStringField(fields, name) ==> HasField(fields, name)
  {
    FieldFound(fields, name);
    if HasStringField(fields, name) {
      var k: nat :| k < |fields| && Declares(fields, name, k) && fields[k].isString;
      assert fields[k].name == name;
      var j: nat :| Declares(fields, name, j) && fields[j] == FindField(fields, name).value;
      assert j == k;
    }
  }

  /** A Mask is refused for its first field that is missing or, for a hash, not a string. */
  lemma {:induction false} MaskServed(schema: Schema, how: MaskMethod, masked: seq<string>)
    ensures MaskProblem(schema, how, masked).None?
            <==> forall name | name in masked :: if how.Hash? then HasStringField(schema.fields, name) else HasField(schema.fields, name)
    ensures MaskProblem(schema, how, masked) == Some(MaskFieldMissing) ==> exists name | name in masked :: !HasField(schema.fields, name)
    ensures MaskProblem(schema, how, masked) == Some(HashNeedsString) ==>
              how.Hash? && exists name | name in masked :: HasField(schema.fields, name) && !HasStringField(schema.fields, name)
    ensures MaskProblem(schema, how, masked) in {None, Some(MaskFieldMissing), Some(HashNeedsString)}
  {
    if masked != [] {
      MaskServed(schema, how, masked[1..]);
      FieldFound(schema.fields, masked[0]);
      StringFieldFound(schema.fields, masked[0]);
      hide HasField, HasStringField;
      assert forall name :: name in masked <==> name == masked[0] || name in masked[1..];
    }
  }

  lemma {:induction false} NoMatch(spatial: seq<SpatialDescriptor>, names: set<string>)
    ensures Matching(spatial, names) == [] <==> forall j | 0 <= j < |spatial| :: Coordinates(spatial[j]) != names
  {
    if spatial != [] {
      NoMatch(spatial[1..], names);
      hide Coordinates;
      assert forall j | 0 < j < |spatial| :: spatial[j] == spatial[1..][j - 1];
    }
  }

  lemma {:induction false} OneMatch(spatial: seq<SpatialDescriptor>, names: set<string>)
    ensures |Matching(spatial, names)| == 1 <==> exists k: nat | k < |spatial| :: OnlyPair(spatial, names, k)
    ensures forall k: nat | k < |spatial| && OnlyPair(spatial, names, k) :: Matching(spatial, names) == [spatial[k]]
  {
    if spatial != [] {
      var rest := spatial[1..];
      OneMatch(rest, names);
      NoMatch(rest, names);
      hide Coordinates;
      assert forall j | 0 < j < |spatial| :: spatial[j] == rest[j - 1];
      if Coordinates(spatial[0]) == names {
        if Matching(rest, names) == [] { assert OnlyPair(spatial, names, 0); }
      } else {
        if k: nat :| k < |rest| && OnlyPair(rest, names, k) { assert OnlyPair(spatial, names, k + 1); }
        forall k: nat | k < |spatial| && OnlyPair(spatial, names, k) ensures k > 0 && OnlyPair(rest, names, k - 1) {}
      }
    }
  }

  lemma PairFound(schema: Schema, coordinates: seq<string>)
    ensures GridPair(schema, coordinates).Some? <==> HasOnePair(schema.spatial, Elements(coordinates))
  {
    OneMatch(schema.spatial, Elements(coordinates));
  }

  // ----- which plans compile -----

  lemma OperatorCompiles(cfg: Config, id: string, kind: Kind, input: Tree)
    requires !IsBinary(kind) && !kind.ScanSource?
    ensures var t, scan := Unary(id, kind, input), FilterScan(cfg, input);
            var refused := RefusedFirst(kind, scan);
            && (refused.Some? ==> !OperatorServed(cfg, t) && OperatorFault(cfg, t, refused.value))
            && (refused.None? ==> forall below ::
                  var c := CompileUnary(cfg, id, kind, SchemaOf(cfg.catalog, input), scan, below);
                  (c.Ok? <==> OperatorServed(cfg, t)) && (c.Error? ==> OperatorFault(cfg, t, c.error)))
  {
    var schema := SchemaOf(cfg.catalog, input);
    hide SchemaOf, FilterScan;
    match kind
    case Mask(masked, how) => MaskServed(schema, how, masked);
    case GeneralizeLocation(coordinates, _) => PairFound(schema, coordinates);
    case _ =>
  }

  /** A plan compiles exactly when every operator of it is one the backend can execute; the error of a plan that does not
      names a fault one of its operators has. */
  lemma {:induction false} CompilesExactly(cfg: Config, t: Tree)
    requires ProperTree(t)
    ensures Compile(cfg, t).Ok? <==> Executable(cfg, t)
    ensures Compile(cfg, t).Error? ==> Faulty(cfg, t, Compile(cfg, t).error)
  {
    match t
    case Scan(_, _) =>
    case Unary(id, kind, input) =>
      CompilesExactly(cfg, input);
      OperatorCompiles(cfg, id, kind, input);
      hide CompileUnary, RefusedFirst, OperatorServed, OperatorFault, SchemaOf, FilterScan, Boundary;
    case Binary(id, kind, left, right) =>
      CompilesExactly(cfg, left);
      CompilesExactly(cfg, right);
      hide Boundary;
  }

  lemma OperatorFaultless(cfg: Config, t: Tree)
    requires ProperTree(t)
    ensures OperatorServed(cfg, t) <==> forall error :: !OperatorFault(cfg, t, error)
  {
    if t.Unary? && t.kind.Mask? {
      var fields := SchemaOf(cfg.catalog, t.input).fields;
      forall name ensures HasStringField(fields, name) ==> HasField(fields, name) { StringFieldFound(fields, name); }
      hide HasField, HasStringField, SchemaOf;
      assert OperatorServed(cfg, t) <==> !OperatorFault(cfg, t, MaskFieldMissing) && !OperatorFault(cfg, t, HashNeedsString);
    } else {
      hide HasOnePair, SchemaOf, FilterScan;
      match t
      case Scan(_, _) =>
        assert OperatorServed(cfg, t) <==> !OperatorFault(cfg, t, UnknownDataset) && !OperatorFault(cfg, t, NoTableBinding);
      case Binary(_, _, _, _) => assert OperatorServed(cfg, t) <==> !OperatorFault(cfg, t, UnsupportedSpatialJoin);
      case Unary(_, kind, _) =>
        assert OperatorServed(cfg, t)
               <==> !OperatorFault(cfg, t, NoScanAncestor) && !OperatorFault(cfg, t, NoSpatialMetadata)
                    && !OperatorFault(cfg, t, NotACoordinatePair) && !OperatorFault(cfg, t, RecordLineageUnavailable)
                    && !OperatorFault(cfg, t, NotExecutable);
    }
  }

  /** So a plan whose operators have one kind of fault only is refused with that error. */
  lemma {:induction false} OneKindOfFault(cfg: Config, t: Tree, error: CompileError)
    requires ProperTree(t) && Faulty(cfg, t, error)
    requires forall other | Faulty(cfg, t, other) :: other == error
    ensures Compile(cfg, t) == Error(error)
  {
    CompilesExactly(cfg, t);
    FaultyNotExecutable(cfg, t, error);
  }

  lemma {:induction false} FaultyNotExecutable(cfg: Config, t: Tree, error: CompileError)
    requires ProperTree(t) && Faulty(cfg, t, error)
    ensures !Executable(cfg, t)
  {
    OperatorFaultless(cfg, t);
    hide OperatorFault, OperatorServed;
    match t
    case Scan(_, _) =>
    case Unary(_, _, input) => if Faulty(cfg, input, error) { FaultyNotExecutable(cfg, input, error); }
    case Binary(_, _, left, right) =>
      if Faulty(cfg, left, error) { FaultyNotExecutable(cfg, left, error); }
      if Faulty(cfg, right, error) { FaultyNotExecutable(cfg, right, error); }
  }

  // ----- the storage boundary is there -----

  /** What every `WITH` of the statement stores, boundaries inside it taken out. */
  function Stored(q: Query): seq<Query> {
    match q
    case Base(_) => []
    case Select(_, from, _) => Stored(from)
    case JoinOn(_, left, right, _) => Stored(left) + Stored(right)
    case With(_, definition, body) => [Unwrap(definition)] + Stored(definition) + Stored(body)
  }

  /** The plain statements of the operator `id`, one for each time the plan reaches it. */
  ghost function StatementsOf(cfg: Config, t: Tree, id: string): seq<Query>
    requires Compile(Plain(cfg), t).Ok?
  {
    if t.id == id then [Compile(Plain(cfg), t).value.sql]
    else match t
      case Scan(_, _) => []
      case Unary(_, _, input) => StatementsOf(cfg, input, id)
      case Binary(_, _, left, right) => StatementsOf(cfg, left, id) + StatementsOf(cfg, right, id)
  }

  /** The compiled statement stores the results of `id`, once for each time the plan reaches it, and nothing else. */
  ghost predicate Stores(cfg: Config, t: Tree, id: string, f: Fragment) {
    Compile(Plain(cfg), t).Ok? && Stored(f.sql) == StatementsOf(cfg, t, id)
  }

  lemma BoundaryStores(cfg: Config, id: string, f: Fragment)
    ensures Stored(Boundary(cfg, id, f).sql)
            == if cfg.materializeAfter == Some(id) then [Unwrap(f.sql)] + Stored(f.sql) else Stored(f.sql)
  {
    hide BoundaryName;
  }

  lemma UnaryStores(cfg: Config, id: string, kind: Kind, schema: Schema, scan: Option<string>, f: Fragment)
    requires CompileUnary(cfg, id, kind, schema, scan, f).Ok?
    ensures Stored(CompileUnary(cfg, id, kind, schema, scan, f).value.sql) == Stored(f.sql)
  {
    hide UnaryTemplate;
  }

  lemma BinaryStores(kind: Kind, id: string, l: Fragment, r: Fragment)
    requires CompileBinary(kind, id, l, r).Ok?
    ensures Stored(CompileBinary(kind, id, l, r).value.sql) == Stored(l.sql) + Stored(r.sql)
  {
    hide BinaryOn;
  }

  /** Below the boundary's operator nothing is stored. */
  lemma {:induction false} NothingStored(cfg: Config, t: Tree, id: string)
    requires cfg.materializeAfter == Some(id) && id !in Ids(t) && Compile(cfg, t).Ok?
    ensures Stored(Compile(cfg, t).value.sql) == []
  {
    hide CompileUnary, CompileBinary, SchemaOf, FilterScan, RefusedFirst, Stored, Unwrap, BoundaryName;
    match t
    case Scan(other, dataset) => ScanStores(cfg, other, dataset);
    case Unary(other, kind, input) =>
      NothingStored(cfg, input, id);
      UnaryStores(cfg, other, kind, SchemaOf(cfg.catalog, input), FilterScan(cfg, input), Compile(cfg, input).value);
    case Binary(other, kind, left, right) =>
      NothingStored(cfg, left, id);
      NothingStored(cfg, right, id);
      BinaryStores(kind, other, Compile(cfg, left).value, Compile(cfg, right).value);
  }

  lemma ScanStores(cfg: Config, id: string, dataset: string)
    requires CompileScan(cfg, dataset).Ok?
    ensures Stored(CompileScan(cfg, dataset).value.sql) == []
  {}

  /** The statement stores exactly the results of the operator the boundary was asked for, wherever it occurs. */
  lemma {:induction false} BoundaryStoresOperator(cfg: Config, t: Tree, id: string)
    requires cfg.materializeAfter == Some(id) && ProperTree(t) && Compile(cfg, t).Ok?
    ensures Stores(cfg, t, id, Compile(cfg, t).value)
  {
    BoundaryOnlyWraps(cfg, t);
    hide SchemaOf, FilterScan, RefusedFirst, Stored, BoundaryName, CompileUnary, CompileBinary, Unwrap;
    match t
    case Scan(other, dataset) =>
      ScanStores(cfg, other, dataset);
      var f := CompileScan(cfg, dataset).value;
      BoundaryStores(cfg, other, f);
      UnwrapBoundary(cfg, other, f);
    case Unary(other, kind, input) =>
      var below := Compile(cfg, input).value;
      var f := CompileUnary(cfg, other, kind, SchemaOf(cfg.catalog, input), FilterScan(cfg, input), below).value;
      UnaryStores(cfg, other, kind, SchemaOf(cfg.catalog, input), FilterScan(cfg, input), below);
      BoundaryStores(cfg, other, f);
      UnwrapBoundary(cfg, other, f);
      if other == id { NothingStored(cfg, input, id); } else { BoundaryStoresOperator(cfg, input, id); }
    case Binary(other, kind, left, right) =>
      var l, r := Compile(cfg, left).value, Compile(cfg, right).value;
      var f := CompileBinary(kind, other, l, r).value;
      BinaryStores(kind, other, l, r);
      BoundaryStores(cfg, other, f);
      UnwrapBoundary(cfg, other, f);
      if other == id {
        NothingStored(cfg, left, id);
        NothingStored(cfg, right, id);
      } else {
        BoundaryStoresOperator(cfg, left, id);
        BoundaryStoresOperator(cfg, right, id);
      }
  }
}
