/** The controlled event query under every reviewed physical strategy: fused, one boundary, any order of materialised
    filters, and a hash mask before or after the join. */
module PhaseTwo {
  import opened Wrappers
  import opened Shuffling
  import opened Bags
  import Sql

  type Value = Sql.Value

  /** An event; a column that a stage does not project holds NULL. */
  datatype Event = Event(eventId: Value, joinKey: Value, time: Value, latitude: Value, longitude: Value, allowed: Value)

  datatype Severity = Severity(key: Value, severityLabel: Value)

  datatype Output = Output(eventId: Value, severityLabel: Value)

  /** The planar distance test, SHA-256, the frozen time window, and the database's order of event ids. */
  datatype Engine = Engine(near: (real, real) -> bool, sha256: string -> string, start: int, end: int, rank: Value -> real)

  datatype OperatorId = OpTemporal | OpSpatial | OpPolicy | OpEventProject | Other(name: string)

  datatype Projection = AllColumns | IdAndKey | HashedIdAndKey

  /** `stage AS MATERIALIZED (SELECT projection FROM previous WHERE filters)`; the first stage reads the base table. */
  datatype Stage = Stage(projection: Projection, filters: seq<OperatorId>)

  /** Stages, then the join with the remaining filters, ordered by event id; `hashLast` hashes the id after the join. */
  datatype Compiled = Compiled(stages: seq<Stage>, remaining: seq<OperatorId>, hashLast: bool)

  datatype MaskSpec = MaskSpec(id: string, onlyEventId: bool, isHash: bool)

  datatype Mode =
    | Fused
    | Ordered(order: seq<OperatorId>)
    | Materialized(after: OperatorId)
    | Placed(operator: string, after: OperatorId)
    | OtherMode

  datatype CompileError = UnsupportedOrder | UnsupportedBoundary | UnsupportedMask | UnsupportedMode | UnsupportedPlacement

  // ----- the compiler -----

  function AllFilters(): seq<OperatorId> {
    [OpTemporal, OpSpatial, OpPolicy]
  }

  /** `len(order) == 3 and set(order) == the three filters`. */
  predicate IsPermutation(order: seq<OperatorId>) {
    |order| == 3 && Elements(order) == {OpTemporal, OpSpatial, OpPolicy}
  }

  function Elements(ids: seq<OperatorId>): set<OperatorId> {
    set id | id in ids
  }

  function OrderedStages(order: seq<OperatorId>): seq<Stage> {
    seq(|order|, i requires 0 <= i < |order| => Stage(AllColumns, [order[i]]))
  }

  function CompileBoundary(after: OperatorId): Result<Compiled, CompileError> {
    match after
    case OpTemporal => Ok(Compiled([Stage(AllColumns, [OpTemporal])], [OpSpatial, OpPolicy], false))
    case OpSpatial => Ok(Compiled([Stage(AllColumns, [OpTemporal, OpSpatial])], [OpPolicy], false))
    case OpPolicy => Ok(Compiled([Stage(AllColumns, [OpTemporal, OpSpatial, OpPolicy])], [], false))
    case OpEventProject => Ok(Compiled([Stage(IdAndKey, [OpTemporal, OpSpatial, OpPolicy])], [], false))
    case Other(_) => Error(UnsupportedBoundary)
  }

  /** `_compile_masked_phase2_strategy`. */
  function CompileMasked(masks: seq<MaskSpec>, mode: Mode): Result<Compiled, CompileError> {
    if |masks| != 1 || !masks[0].onlyEventId || !masks[0].isHash then Error(UnsupportedMask)
    else
      match mode
      case Fused => Ok(Compiled([], AllFilters(), true))
      case Placed(operator, after) =>
        if operator != masks[0].id || after != OpEventProject then Error(UnsupportedPlacement)
        else Ok(Compiled([Stage(HashedIdAndKey, AllFilters())], [], false))
      case _ => Error(UnsupportedMode)
  }

  /** What each strategy is compiled to, or which error it gets. */
  function StrategyOf(masks: Option<seq<MaskSpec>>, mode: Mode): Result<Compiled, CompileError> {
    if masks.Some? then CompileMasked(masks.value, mode)
    else
      match mode
      case Fused => Ok(Compiled([], AllFilters(), false))
      case Ordered(order) => if IsPermutation(order) then Ok(Compiled(OrderedStages(order), [], false)) else Error(UnsupportedOrder)
      case Materialized(after) => CompileBoundary(after)
      case _ => Error(UnsupportedBoundary)
  }

  // ----- what the SQL returns -----

  predicate Passes(g: Engine, id: OperatorId, e: Event) {
    match id
    case OpTemporal => e.time.Instant? && g.start <= e.time.t < g.end
    case OpSpatial => e.latitude.Number? && e.longitude.Number? && g.near(e.latitude.n, e.longitude.n)
    case OpPolicy => e.allowed == Sql.Bool(true)
    case _ => true
  }

  predicate PassesAll(g: Engine, filters: set<OperatorId>, e: Event) {
    forall id | id in filters :: Passes(g, id, e)
  }

  function Hashed(g: Engine, v: Value): Value {
    if v.Text? then Sql.Text(g.sha256(v.s)) else Sql.Null
  }

  function Project(g: Engine, p: Projection, e: Event): Event {
    match p
    case AllColumns => e
    case IdAndKey => Event(e.eventId, e.joinKey, Sql.Null, Sql.Null, Sql.Null, Sql.Null)
    case HashedIdAndKey => Event(Hashed(g, e.eventId), e.joinKey, Sql.Null, Sql.Null, Sql.Null, Sql.Null)
  }

  function StageRow(g: Engine, stage: Stage): Event -> seq<Event> {
    e => if PassesAll(g, Elements(stage.filters), e) then [Project(g, stage.projection, e)] else []
  }

  predicate Matches(e: Event, d: Severity) {
    !e.joinKey.Null? && e.joinKey == d.key
  }

  function JoinPair(g: Engine, hash: bool, e: Event): Severity -> seq<Output> {
    d => if Matches(e, d) then [Output(if hash then Hashed(g, e.eventId) else e.eventId, d.severityLabel)] else []
  }

  function JoinRow(g: Engine, c: Compiled, severities: seq<Severity>): Event -> seq<Output> {
    e => if PassesAll(g, Elements(c.remaining), e) then FlatMap(JoinPair(g, c.hashLast, e), severities) else []
  }

  /** `rows` is what the last of these stages holds, every stage stored in any order. */
  ghost predicate Staged(g: Engine, events: seq<Event>, stages: seq<Stage>, rows: seq<Event>)
    decreases |stages|
  {
    if stages == [] then rows == events
    else
      var front, last := stages[..|stages| - 1], stages[|stages| - 1];
      exists before: seq<Event> :: StagedOne(g, before, last, rows) && Staged(g, events, front, before)
  }

  ghost predicate StagedOne(g: Engine, before: seq<Event>, stage: Stage, rows: seq<Event>) {
    multiset(rows) == multiset(FlatMap(StageRow(g, stage), before))
  }

  function Rank(g: Engine): Output -> (real, real) {
    (row: Output) => (g.rank(row.eventId), 0.0)
  }

  /** A result the database may return for the compiled statement. */
  ghost predicate Returns(g: Engine, c: Compiled, events: seq<Event>, severities: seq<Severity>, output: seq<Output>) {
    Sorted(Rank(g), output)
    && exists rows: seq<Event> :: Joined(g, c, severities, rows, output) && Staged(g, events, c.stages, rows)
  }

  ghost predicate Joined(g: Engine, c: Compiled, severities: seq<Severity>, rows: seq<Event>, output: seq<Output>) {
    multiset(output) == multiset(FlatMap(JoinRow(g, c, severities), rows))
  }

  // ----- what it must return -----

  /** Within the window, near the place, and allowed. */
  predicate Wanted(g: Engine, e: Event) {
    && (match e.time case Instant(t) => g.start <= t < g.end case _ => false)
    && (match (e.latitude, e.longitude) case (Number(lat), Number(lon)) => g.near(lat, lon) case _ => false)
    && e.allowed == Sql.Bool(true)
  }

  predicate Meets(e: Event, d: Severity) {
    e.joinKey != Sql.Null && e.joinKey == d.key
  }

  /** The event's id, or its SHA-256 if the query masks it, and the label of the severity. */
  function Shown(g: Engine, masked: bool, e: Event, d: Severity): Output {
    var id := if !masked then e.eventId else match e.eventId case Text(s) => Sql.Text(g.sha256(s)) case _ => Sql.Null;
    Output(id, d.severityLabel)
  }

  function ExpectedPair(g: Engine, masked: bool, e: Event): Severity -> seq<Output> {
    d => if Wanted(g, e) && Meets(e, d) then [Shown(g, masked, e, d)] else []
  }

  function ExpectedRow(g: Engine, masked: bool, severities: seq<Severity>): Event -> seq<Output> {
    e => FlatMap(ExpectedPair(g, masked, e), severities)
  }

  /** Every wanted event with each severity it meets. */
  function Expected(g: Engine, masked: bool, events: seq<Event>, severities: seq<Severity>): seq<Output> {
    FlatMap(ExpectedRow(g, masked, severities), events)
  }

  /** The rows of a result, one by one. */
  ghost predicate ShowsEvents(g: Engine, masked: bool, events: seq<Event>, severities: seq<Severity>, output: seq<Output>) {
    forall row :: row in output
      <==> exists e, d | e in events && d in severities :: Wanted(g, e) && Meets(e, d) && row == Shown(g, masked, e, d)
  }

  lemma ExpectedShows(g: Engine, masked: bool, events: seq<Event>, severities: seq<Severity>, output: seq<Output>)
    requires multiset(output) == multiset(Expected(g, masked, events, severities))
    ensures ShowsEvents(g, masked, events, severities, output)
  {
    hide Wanted, Meets, Shown;
    SameElements(output, Expected(g, masked, events, severities));
    forall row: Output
      ensures row in output
              <==> exists e, d | e in events && d in severities :: Wanted(g, e) && Meets(e, d) && row == Shown(g, masked, e, d)
    {
      InFlatMap(ExpectedRow(g, masked, severities), events, row);
      forall e | e in events { InFlatMap(ExpectedPair(g, masked, e), severities, row); }
    }
  }

  // ----- what the clauses mean -----

  /** What one event gives by the clauses of the statements. */
  function EventOutput(g: Engine, masked: bool, severities: seq<Severity>): Event -> seq<Output> {
    e => if PassesAll(g, {OpTemporal, OpSpatial, OpPolicy}, e) then FlatMap(JoinPair(g, masked, e), severities) else []
  }

  lemma ClausesMean(g: Engine, masked: bool, severities: seq<Severity>, e: Event)
    ensures EventOutput(g, masked, severities)(e) == ExpectedRow(g, masked, severities)(e)
  {
    FiltersMean(g, e);
    hide PassesAll, Wanted;
    if Wanted(g, e) {
      forall d | d in severities ensures JoinPair(g, masked, e)(d) == ExpectedPair(g, masked, e)(d) {}
      FlatMapSame(JoinPair(g, masked, e), ExpectedPair(g, masked, e), severities);
    } else {
      FlatMapNone(ExpectedPair(g, masked, e), severities);
    }
  }

  lemma FiltersMean(g: Engine, e: Event)
    ensures Wanted(g, e) <==> PassesAll(g, {OpTemporal, OpSpatial, OpPolicy}, e)
  {
    assert PassesAll(g, {OpTemporal, OpSpatial, OpPolicy}, e)
           <==> Passes(g, OpTemporal, e) && Passes(g, OpSpatial, e) && Passes(g, OpPolicy, e);
  }

  /** Results are ordered by the database's order of event ids. */
  ghost predicate InIdOrder(g: Engine, output: seq<Output>) {
    forall i, j | 0 <= i < j < |output| :: g.rank(output[i].eventId) <= g.rank(output[j].eventId)
  }

  // ----- stages -----

  /** The stages of one pass over the events: what each event becomes. */
  function Through(g: Engine, stages: seq<Stage>): Event -> seq<Event> {
    e => if stages == [] then [e] else FlatMap(StageRow(g, stages[|stages| - 1]), Through(g, stages[..|stages| - 1])(e))
  }

  lemma {:induction false} StagesPipeline(g: Engine, events: seq<Event>, stages: seq<Stage>, rows: seq<Event>)
    requires Staged(g, events, stages, rows)
    ensures multiset(rows) == multiset(FlatMap(Through(g, stages), events))
    decreases |stages|
  {
    if stages == [] {
      FlatMapIdentity(Through(g, stages), events);
    } else {
      var front, last := stages[..|stages| - 1], stages[|stages| - 1];
      var before: seq<Event> :| StagedOne(g, before, last, rows) && Staged(g, events, front, before);
      StagesPipeline(g, events, front, before);
      FlatMapPermutes(StageRow(g, last), before, FlatMap(Through(g, front), events));
      FlatMapThen(Through(g, front), StageRow(g, last), events);
      FlatMapSame(Then(Through(g, front), StageRow(g, last)), Through(g, stages), events);
    }
  }

  /** Stages can always be stored, in the order of the events for one. */
  lemma {:induction false} StagesExist(g: Engine, events: seq<Event>, stages: seq<Stage>)
    ensures Staged(g, events, stages, FlatMap(Through(g, stages), events))
    decreases |stages|
  {
    if stages == [] {
      FlatMapIdentity(Through(g, stages), events);
    } else {
      var front, last := stages[..|stages| - 1], stages[|stages| - 1];
      var before := FlatMap(Through(g, front), events);
      StagesExist(g, events, front);
      FlatMapThen(Through(g, front), StageRow(g, last), events);
      FlatMapSame(Then(Through(g, front), StageRow(g, last)), Through(g, stages), events);
      assert StagedOne(g, before, last, FlatMap(Through(g, stages), events));
    }
  }

  /** Filters one after the other are one filter by all of them, whatever their order. */
  lemma {:induction false} OrderedThrough(g: Engine, order: seq<OperatorId>, e: Event)
    ensures Through(g, OrderedStages(order))(e) == if PassesAll(g, Elements(order), e) then [e] else []
  {
    if order != [] {
      var front, last := order[..|order| - 1], order[|order| - 1];
      assert OrderedStages(order)[..|order| - 1] == OrderedStages(front);
      assert OrderedStages(order)[|order| - 1] == Stage(AllColumns, [last]);
      PassesSplit(g, order, e);
      PassesSplit(g, [last], e);
      assert PassesAll(g, Elements([]), e);
      hide Passes, PassesAll, Elements, OrderedStages;
      OrderedThrough(g, front, e);
      FlatMapOne(StageRow(g, Stage(AllColumns, [last])), e);
    }
  }

  lemma PassesSplit(g: Engine, order: seq<OperatorId>, e: Event)
    requires order != []
    ensures var front, last := order[..|order| - 1], order[|order| - 1];
            PassesAll(g, Elements(order), e) <==> PassesAll(g, Elements(front), e) && Passes(g, last, e)
  {
    hide Passes;
    var front, last := order[..|order| - 1], order[|order| - 1];
    assert order == front + [last];
    assert Elements(order) == Elements(front) + {last};
  }

  lemma OneStageThrough(g: Engine, stage: Stage, e: Event)
    ensures Through(g, [stage])(e) == StageRow(g, stage)(e)
  {
    assert [stage][..0] == [];
    FlatMapOne(StageRow(g, stage), e);
  }

  /** If every event fares as the specification says, so does every result, and every such result may be returned. */
  lemma Pipeline(g: Engine, c: Compiled, masked: bool, events: seq<Event>, severities: seq<Severity>, output: seq<Output>)
    requires forall e | e in events ::
               FlatMap(JoinRow(g, c, severities), Through(g, c.stages)(e)) == ExpectedRow(g, masked, severities)(e)
    ensures Returns(g, c, events, severities, output)
            <==> InIdOrder(g, output) && multiset(output) == multiset(Expected(g, masked, events, severities))
  {
    var through, join := Through(g, c.stages), JoinRow(g, c, severities);
    FlatMapThen(through, join, events);
    FlatMapSame(Then(through, join), ExpectedRow(g, masked, severities), events);
    assert InIdOrder(g, output) <==> Sorted(Rank(g), output);
    hide InIdOrder, Sorted;
    if Returns(g, c, events, severities, output) {
      var rows: seq<Event> :| Joined(g, c, severities, rows, output) && Staged(g, events, c.stages, rows);
      StagesPipeline(g, events, c.stages, rows);
      FlatMapPermutes(join, rows, FlatMap(through, events));
    }
    StagesExist(g, events, c.stages);
    assert multiset(output) == multiset(Expected(g, masked, events, severities))
           ==> Joined(g, c, severities, FlatMap(through, events), output);
  }

  // ----- each strategy -----

  lemma FusedEvent(g: Engine, hash: bool, severities: seq<Severity>, e: Event)
    ensures FlatMap(JoinRow(g, Compiled([], AllFilters(), hash), severities), Through(g, [])(e)) == EventOutput(g, hash, severities)(e)
  {
    var c := Compiled([], AllFilters(), hash);
    assert Elements(AllFilters()) == {OpTemporal, OpSpatial, OpPolicy};
    FlatMapOne(JoinRow(g, c, severities), e);
  }

  lemma OrderedEvent(g: Engine, order: seq<OperatorId>, severities: seq<Severity>, e: Event)
    requires IsPermutation(order)
    ensures FlatMap(JoinRow(g, Compiled(OrderedStages(order), [], false), severities), Through(g, OrderedStages(order))(e))
            == EventOutput(g, false, severities)(e)
  {
    var c := Compiled(OrderedStages(order), [], false);
    OrderedThrough(g, order, e);
    FlatMapOne(JoinRow(g, c, severities), e);
    assert Elements([]) == {};
  }

  lemma BoundaryEvent(g: Engine, after: OperatorId, severities: seq<Severity>, e: Event)
    requires CompileBoundary(after).Ok?
    ensures var c := CompileBoundary(after).value;
            FlatMap(JoinRow(g, c, severities), Through(g, c.stages)(e)) == EventOutput(g, false, severities)(e)
  {
    var c := CompileBoundary(after).value;
    var stage := c.stages[0];
    assert c.stages == [stage];
    OneStageThrough(g, stage, e);
    var p := Project(g, stage.projection, e);
    FlatMapOne(JoinRow(g, c, severities), p);
    hide Passes;
    BoundarySplits(g, after, e, p);
    SameJoin(g, false, false, p, e, severities);
  }

  /** Filters before the boundary and filters after it are the three filters, and the columns the latter read are there. */
  lemma BoundarySplits(g: Engine, after: OperatorId, e: Event, p: Event)
    requires CompileBoundary(after).Ok?
    requires p == Project(g, CompileBoundary(after).value.stages[0].projection, e)
    ensures var c := CompileBoundary(after).value;
            PassesAll(g, Elements(c.stages[0].filters), e) && PassesAll(g, Elements(c.remaining), p)
            <==> PassesAll(g, {OpTemporal, OpSpatial, OpPolicy}, e)
  {
    hide Passes;
    var c := CompileBoundary(after).value;
    assert Elements(c.remaining) != {} ==> p == e;
    assert Elements(c.stages[0].filters) + Elements(c.remaining) == {OpTemporal, OpSpatial, OpPolicy};
  }

  lemma SameJoin(g: Engine, a: bool, b: bool, p: Event, e: Event, severities: seq<Severity>)
    requires p.joinKey == e.joinKey
    requires (if a then Hashed(g, p.eventId) else p.eventId) == (if b then Hashed(g, e.eventId) else e.eventId)
    ensures FlatMap(JoinPair(g, a, p), severities) == FlatMap(JoinPair(g, b, e), severities)
  {
    FlatMapSame(JoinPair(g, a, p), JoinPair(g, b, e), severities);
  }

  lemma PlacedEvent(g: Engine, severities: seq<Severity>, e: Event)
    ensures var c := Compiled([Stage(HashedIdAndKey, AllFilters())], [], false);
            FlatMap(JoinRow(g, c, severities), Through(g, c.stages)(e)) == EventOutput(g, true, severities)(e)
  {
    var stage := Stage(HashedIdAndKey, AllFilters());
    var c := Compiled([stage], [], false);
    OneStageThrough(g, stage, e);
    var p := Project(g, HashedIdAndKey, e);
    FlatMapOne(JoinRow(g, c, severities), p);
    assert Elements(AllFilters()) == {OpTemporal, OpSpatial, OpPolicy} && Elements([]) == {};
    SameJoin(g, false, true, p, e, severities);
  }

  /** The results the database may return are exactly the expected rows in an order of their event ids. */
  ghost predicate ReturnsExactly(g: Engine, c: Compiled, masked: bool, events: seq<Event>, severities: seq<Severity>, output: seq<Output>) {
    Returns(g, c, events, severities, output)
    <==> InIdOrder(g, output) && multiset(output) == multiset(Expected(g, masked, events, severities))
  }

  /** So for every strategy the compiler accepts, on every database and however the database arranges its stages. */
  lemma EveryStrategyAgrees(g: Engine, masks: Option<seq<MaskSpec>>, mode: Mode, c: Compiled,
                            events: seq<Event>, severities: seq<Severity>, output: seq<Output>)
    requires StrategyOf(masks, mode) == Ok(c)
    ensures ReturnsExactly(g, c, masks.Some?, events, severities, output)
    ensures Returns(g, c, events, severities, output) ==> ShowsEvents(g, masks.Some?, events, severities, output)
  {
    forall e | e in events
      ensures FlatMap(JoinRow(g, c, severities), Through(g, c.stages)(e)) == ExpectedRow(g, masks.Some?, severities)(e)
    {
      ClausesMean(g, masks.Some?, severities, e);
      hide JoinRow, EventOutput, ExpectedRow, Through, OrderedStages, IsPermutation, AllFilters;
      match mode
      case Fused => FusedEvent(g, masks.Some?, severities, e);
      case Ordered(order) => OrderedEvent(g, order, severities, e);
      case Materialized(after) => BoundaryEvent(g, after, severities, e);
      case Placed(_, _) => PlacedEvent(g, severities, e);
    }
    Pipeline(g, c, masks.Some?, events, severities, output);
    hide Returns, InIdOrder, ExpectedRow, ShowsEvents;
    if multiset(output) == multiset(Expected(g, masks.Some?, events, severities)) {
      ExpectedShows(g, masks.Some?, events, severities, output);
    }
  }

  /** The strategies that are served: one hash mask of the event id, fused or placed on the event projection; or no mask,
      fused, in some order of the three filters, or with a boundary after a reviewed operator. */
  predicate Served(masks: Option<seq<MaskSpec>>, mode: Mode) {
    match masks
    case Some(specs) =>
      && |specs| == 1 && specs[0].onlyEventId && specs[0].isHash
      && (mode.Fused? || mode == Placed(specs[0].id, OpEventProject))
    case None =>
      || mode.Fused? || (mode.Ordered? && IsPermutation(mode.order))
      || (mode.Materialized? && mode.after in {OpTemporal, OpSpatial, OpPolicy, OpEventProject})
  }

  /** `compile_phase2_strategy`: raises exactly on the strategies that are not served, and every statement it returns may
      return exactly the expected rows in order, on every database. */
  method Compile(masks: Option<seq<MaskSpec>>, mode: Mode) returns (r: Result<Compiled, CompileError>)
    ensures r == StrategyOf(masks, mode)
    ensures r.Ok? <==> Served(masks, mode)
    ensures r.Ok? ==> forall g: Engine, events, severities, output ::
                        ReturnsExactly(g, r.value, masks.Some?, events, severities, output)
    ensures r.Ok? ==> forall g: Engine, events, severities, output | Returns(g, r.value, events, severities, output) ::
                        ShowsEvents(g, masks.Some?, events, severities, output)
  {
    r := CompileStrategy(masks, mode);
    hide ReturnsExactly, Returns, ShowsEvents;
    forall g: Engine, events, severities, output | r.Ok?
      ensures ReturnsExactly(g, r.value, masks.Some?, events, severities, output)
      ensures Returns(g, r.value, events, severities, output) ==> ShowsEvents(g, masks.Some?, events, severities, output)
    {
      EveryStrategyAgrees(g, masks, mode, r.value, events, severities, output);
    }
  }

  /** The branches; the ordered one is a loop. */
  method CompileStrategy(masks: Option<seq<MaskSpec>>, mode: Mode) returns (r: Result<Compiled, CompileError>)
    ensures r == StrategyOf(masks, mode)
  {
    if masks.Some? { return CompileMasked(masks.value, mode); }
    match mode
    case Fused => r := Ok(Compiled([], AllFilters(), false));
    case Ordered(order) =>
      if !IsPermutation(order) { return Error(UnsupportedOrder); }
      var stages: seq<Stage> := [];
      for i := 0 to |order|
        invariant stages == OrderedStages(order)[..i]
      {
        stages := stages + [Stage(AllColumns, [order[i]])];
      }
      assert OrderedStages(order)[..|order|] == OrderedStages(order);
      r := Ok(Compiled(stages, [], false));
    case Materialized(after) => r := CompileBoundary(after);
    case Placed(_, _) => r := Error(UnsupportedBoundary);
    case OtherMode => r := Error(UnsupportedBoundary);
  }
}
