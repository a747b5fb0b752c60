/** Source lineage: the scans a target can reach, and why nothing else can influence it. */
module SourceLineage {
  import opened Wrappers
  import opened Ordering
  import opened Sql
  import opened SqlBinding
  import opened Plan
  import opened Compiler
  import opened CompilerCorrectness
  import ScanAncestor
  import ParameterOrder
  import Cardinality

  // ----- reachability, on any graph: cyclic or dangling included -----

  /** The inputs the search follows: none below a scan or an unknown operator. */
  function Followed(ops: Graph, id: string): seq<string> {
    if id in ops && !ops[id].kind.ScanSource? then ops[id].inputs else []
  }

  ghost predicate IsPath(ops: Graph, path: seq<string>) {
    path != [] && forall i | 0 <= i < |path| - 1 :: path[i + 1] in Followed(ops, path[i])
  }

  ghost predicate Reaches(ops: Graph, from: string, to: string) {
    exists path :: IsPath(ops, path) && path[0] == from && path[|path| - 1] == to
  }

  lemma ReachesSelf(ops: Graph, id: string)
    ensures Reaches(ops, id, id)
  {
    assert IsPath(ops, [id]) && [id][0] == id;
  }

  lemma ReachesThrough(ops: Graph, from: string, input: string, to: string)
    requires input in Followed(ops, from) && Reaches(ops, input, to)
    ensures Reaches(ops, from, to)
  {
    var path :| IsPath(ops, path) && path[0] == input && path[|path| - 1] == to;
    var longer := [from] + path;
    forall i | 0 <= i < |longer| - 1 ensures longer[i + 1] in Followed(ops, longer[i]) {
      if i > 0 {
        assert longer[i] == path[i - 1] && longer[i + 1] == path[i - 1 + 1];
      }
    }
    assert longer[|longer| - 1] == to;
  }

  /** A set closed under followed inputs holds everything its members reach. */
  lemma {:induction false} ClosedReaches(ops: Graph, visited: set<string>, path: seq<string>)
    requires forall v | v in visited :: forall input | input in Followed(ops, v) :: input in visited
    requires IsPath(ops, path) && path[0] in visited
    ensures path[|path| - 1] in visited
  {
    if |path| > 1 {
      assert path[1] in Followed(ops, path[0]);
      assert IsPath(ops, path[1..]) by {
        forall i | 0 <= i < |path[1..]| - 1 ensures path[1..][i + 1] in Followed(ops, path[1..][i]) {
          assert path[i + 1 + 1] in Followed(ops, path[i + 1]);
        }
      }
      ClosedReaches(ops, visited, path[1..]);
    }
  }

  ghost predicate IsScan(ops: Graph, id: string) {
    id in ops && ops[id].kind.ScanSource?
  }

  // ----- the depth-first search -----

  /** The scans recorded after visiting `added` operators. */
  ghost function Recorded(ops: Graph, found: map<string, string>, added: set<string>): map<string, string> {
    found + map k | k in added && IsScan(ops, k) :: ops[k].kind.dataset
  }

  /** Everything in `added` is known, reachable from `id`, and followed within `visited`. */
  ghost predicate Covered(ops: Graph, id: string, added: set<string>, visited: set<string>) {
    forall v | v in added ::
      v in ops && Reaches(ops, id, v) && (forall input | input in Followed(ops, v) :: input in visited)
  }

  lemma CoveredThrough(ops: Graph, id: string, input: string, a: set<string>, b: set<string>, c: set<string>)
    requires input in Followed(ops, id) && a <= b <= c
    requires Covered(ops, id, b - a - {id}, b) && Covered(ops, input, c - b, c)
    ensures Covered(ops, id, c - a - {id}, c)
  {
    forall v | v in c - a - {id}
      ensures v in ops && Reaches(ops, id, v) && (forall i | i in Followed(ops, v) :: i in c)
    {
      if v !in b { ReachesThrough(ops, id, input, v); }
    }
  }

  /** What a finished search from `id` has added to `before` and `recorded`. */
  ghost predicate Below(ops: Graph, id: string, before: set<string>, visited: set<string>,
                        recorded: map<string, string>, found: map<string, string>)
  {
    before <= visited && Covered(ops, id, visited - before, visited) && found == Recorded(ops, recorded, visited - before)
  }

  /** What the search keeps while it works through the inputs of `id`, entered with `before` visited. */
  ghost predicate Explored(ops: Graph, id: string, before: set<string>, visited: set<string>,
                           recorded: map<string, string>, found: map<string, string>)
  {
    before <= visited && Covered(ops, id, visited - before - {id}, visited) && found == Recorded(ops, recorded, visited - before)
  }

  lemma NothingAdded(ops: Graph, id: string, before: set<string>, found: map<string, string>)
    requires id in ops && !ops[id].kind.ScanSource? && id !in before
    ensures Explored(ops, id, before, before + {id}, found, found)
  {
    assert before + {id} - before == {id} && Recorded(ops, found, {id}) == found;
    assert before + {id} - before - {id} == {};
  }

  lemma CoveredAlso(ops: Graph, id: string, before: set<string>, visited: set<string>,
                    recorded: map<string, string>, found: map<string, string>)
    requires id in ops && Explored(ops, id, before, visited, recorded, found)
    requires forall k | 0 <= k < |ops[id].inputs| :: ops[id].inputs[k] in visited
    ensures Below(ops, id, before, visited, recorded, found)
  {
    ReachesSelf(ops, id);
  }

  lemma ExploredThrough(ops: Graph, id: string, input: string, before: set<string>, seen: set<string>, visited: set<string>,
                        recorded: map<string, string>, known: map<string, string>, found: map<string, string>)
    requires input in Followed(ops, id)
    requires Explored(ops, id, before, seen, recorded, known) && Below(ops, input, seen, visited, known, found)
    ensures Explored(ops, id, before, visited, recorded, found)
  {
    hide Covered, Recorded, Followed;
    CoveredThrough(ops, id, input, before, seen, visited);
    RecordedTwice(ops, recorded, before, seen, visited);
  }

  lemma SeenBefore(ops: Graph, id: string, visited: set<string>, found: map<string, string>)
    ensures Below(ops, id, visited, visited, found, found)
  {
    assert visited - visited == {} && Recorded(ops, found, {}) == found;
  }

  lemma ScanAdded(ops: Graph, id: string, before: set<string>, found: map<string, string>)
    requires IsScan(ops, id) && id !in before
    ensures Below(ops, id, before, before + {id}, found, found[id := ops[id].kind.dataset])
  {
    ReachesSelf(ops, id);
    assert before + {id} - before == {id};
    assert Recorded(ops, found, {id}) == found[id := ops[id].kind.dataset];
  }

  lemma InputFollowed(ops: Graph, id: string, k: nat)
    requires id in ops && !ops[id].kind.ScanSource? && k < |ops[id].inputs|
    ensures ops[id].inputs[k] in Followed(ops, id)
  {}

  lemma RecordedAt(ops: Graph, found: map<string, string>, added: set<string>, k: string)
    ensures k in Recorded(ops, found, added) <==> k in found || (k in added && IsScan(ops, k))
    ensures k in Recorded(ops, found, added) ==>
              Recorded(ops, found, added)[k] == if k in added && IsScan(ops, k) then ops[k].kind.dataset else found[k]
  {}

  lemma RecordedTwice(ops: Graph, found: map<string, string>, a: set<string>, b: set<string>, c: set<string>)
    requires a <= b <= c
    ensures Recorded(ops, Recorded(ops, found, b - a), c - b) == Recorded(ops, found, c - a)
  {
    hide Recorded;
    var once := Recorded(ops, found, b - a);
    var left, right := Recorded(ops, once, c - b), Recorded(ops, found, c - a);
    forall k ensures k in left <==> k in right {
      RecordedAt(ops, found, b - a, k);
      RecordedAt(ops, once, c - b, k);
      RecordedAt(ops, found, c - a, k);
    }
    forall k | k in left ensures left[k] == right[k] {
      RecordedAt(ops, found, b - a, k);
      RecordedAt(ops, once, c - b, k);
      RecordedAt(ops, found, c - a, k);
    }
  }

  ghost function Unvisited(ops: Graph, visited: set<string>): nat {
    |ops.Keys - visited|
  }

  class ScanSearch {
    const ops: Graph
    var visited: set<string>
    var found: map<string, string>

    constructor (ops: Graph)
      ensures this.ops == ops && visited == {} && found == map[]
    {
      this.ops := ops;
      visited := {};
      found := map[];
    }

    /** `visit`: an unknown operator below `id` is reported; otherwise everything below is explored and every
        new scan is recorded. */
    method Visit(id: string) returns (unknown: Option<string>)
      modifies this`visited, this`found
      ensures old(visited) <= visited
      ensures unknown.None? ==> id in visited && Below(ops, id, old(visited), visited, old(found), found)
      ensures unknown.Some? ==> Reaches(ops, id, unknown.value) && unknown.value !in ops
      decreases Unvisited(ops, visited), 0
    {
      hide Below, Explored, Covered, Recorded, Reaches, Followed, Unvisited;
      if id in visited {
        SeenBefore(ops, id, visited, found);
        return None;
      }
      ghost var before := visited;
      visited := visited + {id};
      ReachesSelf(ops, id);
      if id !in ops { return Some(id); }
      if ops[id].kind.ScanSource? {
        ScanAdded(ops, id, before, found);
        found := found[id := ops[id].kind.dataset];
        return None;
      }
      FewerUnvisited(ops, before, id);
      NothingAdded(ops, id, before, found);
      unknown := VisitInputs(id, before);
    }

    method VisitInputs(id: string, ghost before: set<string>) returns (unknown: Option<string>)
      requires id in ops && !ops[id].kind.ScanSource? && Explored(ops, id, before, visited, found, found)
      modifies this`visited, this`found
      ensures old(visited) <= visited
      ensures unknown.None? ==> Below(ops, id, before, visited, old(found), found)
      ensures unknown.Some? ==> Reaches(ops, id, unknown.value) && unknown.value !in ops
      decreases Unvisited(ops, visited), 2
    {
      var inputs := ops[id].inputs;
      ghost var recorded := found;
      hide Below, Explored, Covered, Recorded, Reaches, IsScan, Followed, Unvisited;
      for i := 0 to |inputs|
        invariant old(visited) <= visited
        invariant Explored(ops, id, before, visited, recorded, found)
        invariant forall k | 0 <= k < i :: inputs[k] in visited
      {
        NoMoreUnvisited(ops, old(visited), visited);
        InputFollowed(ops, id, i);
        unknown := VisitInput(id, inputs[i], before, recorded);
        if unknown.Some? { return; }
      }
      CoveredAlso(ops, id, before, visited, recorded, found);
      unknown := None;
    }

    method VisitInput(id: string, input: string, ghost before: set<string>, ghost recorded: map<string, string>) returns (unknown: Option<string>)
      requires input in Followed(ops, id) && Explored(ops, id, before, visited, recorded, found)
      modifies this`visited, this`found
      ensures old(visited) <= visited
      ensures unknown.None? ==> input in visited && Explored(ops, id, before, visited, recorded, found)
      ensures unknown.Some? ==> Reaches(ops, id, unknown.value) && unknown.value !in ops
      decreases Unvisited(ops, visited), 1
    {
      hide Below, Explored, Covered, Recorded, Reaches, Followed, IsScan, Unvisited;
      ghost var seen, known := visited, found;
      unknown := Visit(input);
      if unknown.Some? {
        ReachesThrough(ops, id, input, unknown.value);
      } else {
        ExploredThrough(ops, id, input, before, seen, visited, recorded, known, found);
      }
    }
  }

  lemma FewerUnvisited(ops: Graph, visited: set<string>, id: string)
    requires id in ops && id !in visited
    ensures Unvisited(ops, visited + {id}) < Unvisited(ops, visited)
  {
    assert id in ops.Keys - visited;
    Cardinality.ProperSubset(ops.Keys - (visited + {id}), ops.Keys - visited);
  }

  lemma NoMoreUnvisited(ops: Graph, former: set<string>, visited: set<string>)
    requires former <= visited
    ensures Unvisited(ops, visited) <= Unvisited(ops, former)
  {
    Cardinality.Subset(ops.Keys - visited, ops.Keys - former);
  }

  ghost predicate AreReached(ops: Graph, target: string, scans: seq<ScanRef>) {
    forall id, dataset :: ScanRef(id, dataset) in scans
      <==> Reaches(ops, target, id) && IsScan(ops, id) && ops[id].kind.dataset == dataset
  }

  ghost predicate AllKnown(ops: Graph, target: string) {
    forall id | Reaches(ops, target, id) :: id in ops
  }

  predicate ById(scans: seq<ScanRef>) {
    forall i, j | 0 <= i < j < |scans| :: Less(scans[i].id, scans[j].id)
  }

  /** `_reachable_scans`: on any finite graph, exactly the scans the target reaches, by increasing id; it raises
      exactly when the target reaches an unknown operator. */
  method ReachableScans(ops: Graph, target: string) returns (scans: Result<seq<ScanRef>, string>)
    ensures scans.Ok? <==> AllKnown(ops, target)
    ensures scans.Error? ==> Reaches(ops, target, scans.error) && scans.error !in ops
    ensures scans.Ok? ==> ById(scans.value) && AreReached(ops, target, scans.value)
  {
    var search := new ScanSearch(ops);
    var unknown := search.Visit(target);
    if unknown.Some? { return Error(unknown.value); }
    forall id | Reaches(ops, target, id) ensures id in search.visited {
      var path :| IsPath(ops, path) && path[0] == target && path[|path| - 1] == id;
      ClosedReaches(ops, search.visited, path);
    }
    var found := search.found;
    var keys := SortKeys(found.Keys);
    var refs := seq(|keys|, i requires 0 <= i < |keys| && keys[i] in found => ScanRef(keys[i], found[keys[i]]));
    forall id, dataset
      ensures ScanRef(id, dataset) in refs <==> Reaches(ops, target, id) && IsScan(ops, id) && ops[id].kind.dataset == dataset
    {
      if ScanRef(id, dataset) in refs {
        var i :| 0 <= i < |refs| && refs[i] == ScanRef(id, dataset);
        assert keys[i] in keys;
      }
      if Reaches(ops, target, id) && IsScan(ops, id) && ops[id].kind.dataset == dataset {
        assert id in keys;
        var i :| 0 <= i < |keys| && keys[i] == id;
        assert refs[i] == ScanRef(id, dataset);
      }
    }
    scans := Ok(refs);
  }

  // ----- what the search means for an acyclic plan -----

  ghost predicate ReachesScan(ops: Graph, from: string, scan: string) {
    Reaches(ops, from, scan) && IsScan(ops, scan)
  }

  lemma ReachesByStep(ops: Graph, from: string, scan: string)
    ensures ReachesScan(ops, from, scan)
            <==> (from == scan && IsScan(ops, scan)) || exists input | input in Followed(ops, from) :: ReachesScan(ops, input, scan)
  {
    ReachesSelf(ops, from);
    if Reaches(ops, from, scan) { FirstStep(ops, from, scan); }
    forall input | input in Followed(ops, from) && ReachesScan(ops, input, scan) ensures ReachesScan(ops, from, scan) {
      ReachesThrough(ops, from, input, scan);
    }
  }

  /** The scans of the unfolded plan are the scans the search reaches. */
  lemma {:induction false} ScansAreReached(plan: Graph, rank: map<string, nat>, id: string, scan: string)
    requires Acyclic(plan, rank) && id in plan
    ensures scan in Scans(Unfold(plan, rank, id)) <==> ReachesScan(plan, id, scan)
    ensures scan in Scans(Unfold(plan, rank, id)) ==> scan in plan && plan[scan].kind.ScanSource? && Scans(Unfold(plan, rank, id))[scan] == plan[scan].kind.dataset
    decreases rank[id]
  {
    ReachesByStep(plan, id, scan);
    hide ReachesScan;
    var Operator(kind, inputs) := plan[id];
    if !kind.ScanSource? {
      ScansAreReached(plan, rank, inputs[0], scan);
      if IsBinary(kind) {
        ScansAreReached(plan, rank, inputs[1], scan);
        assert inputs == [inputs[0], inputs[1]];
      } else {
        assert inputs == [inputs[0]];
      }
    }
  }

  lemma FirstStep(ops: Graph, from: string, to: string)
    requires Reaches(ops, from, to)
    ensures from == to || exists input :: input in Followed(ops, from) && Reaches(ops, input, to)
  {
    var path :| IsPath(ops, path) && path[0] == from && path[|path| - 1] == to;
    if |path| > 1 {
      assert path[1] in Followed(ops, path[0]);
      assert IsPath(ops, path[1..]) by {
        forall i | 0 <= i < |path[1..]| - 1 ensures path[1..][i + 1] in Followed(ops, path[1..][i]) {
          assert path[i + 1 + 1] in Followed(ops, path[i + 1]);
        }
      }
      assert path[1..][0] == path[1] && path[1..][|path[1..]| - 1] == to;
    }
  }

  /** The two databases agree on the tables bound to these datasets. */
  ghost predicate AgreeOn(bindings: map<string, string>, datasets: set<string>, a: Database, b: Database) {
    forall d | d in datasets && d in bindings ::
      (bindings[d] in a <==> bindings[d] in b) && (bindings[d] in a ==> a[bindings[d]] == b[bindings[d]])
  }

  lemma {:induction false} EvalDepends(g: Engine, catalog: Catalog, bindings: map<string, string>, t: Tree, a: Database, b: Database)
    requires AgreeOn(bindings, Scans(t).Values, a, b) && ScanAncestor.Consistent(t)
    ensures Eval(g, Source(catalog, bindings, a), t) == Eval(g, Source(catalog, bindings, b), t)
  {
    hide Operate, PairOf, PairRows;
    match t
    case Scan(id, dataset) => assert Scans(t)[id] == dataset;
    case Unary(_, _, input) => EvalDepends(g, catalog, bindings, input, a, b);
    case Binary(_, _, left, right) =>
      assert Scans(left).Values <= Scans(t).Values by {
        forall d | d in Scans(left).Values ensures d in Scans(t).Values {
          var k :| k in Scans(left) && Scans(left)[k] == d;
          assert k in Scans(t) && Scans(t)[k] == d;
        }
      }
      assert Scans(right).Values <= Scans(t).Values by {
        forall d | d in Scans(right).Values ensures d in Scans(t).Values {
          var k :| k in Scans(right) && Scans(right)[k] == d;
          assert k in Scans(t) && Scans(t)[k] == d;
        }
      }
      EvalDepends(g, catalog, bindings, left, a, b);
      EvalDepends(g, catalog, bindings, right, a, b);
  }

  // ----- the compiled statement reads nothing else either -----

  function TablesRead(q: Query): set<string> {
    match q
    case Base(table) => {table}
    case Select(_, from, _) => TablesRead(from)
    case JoinOn(_, left, right, _) => TablesRead(left) + TablesRead(right)
    case With(name, definition, body) => TablesRead(definition) + (TablesRead(body) - {name})
  }

  lemma {:induction false} ExecDepends(g: Engine, a: Database, b: Database, q: Query)
    requires forall t | t in TablesRead(q) :: (t in a <==> t in b) && (t in a ==> a[t] == b[t])
    ensures Exec(g, a, q) == Exec(g, b, q)
    decreases q
  {
    hide RunList, RunSuffix, JoinRows;
    match q
    case Base(_) =>
    case Select(_, from, _) => ExecDepends(g, a, b, from);
    case JoinOn(_, left, right, _) =>
      ExecDepends(g, a, b, left);
      ExecDepends(g, a, b, right);
    case With(name, definition, body) =>
      ExecDepends(g, a, b, definition);
      var rel := Exec(g, a, definition);
      ExecDepends(g, a[name := rel], b[name := rel], body);
  }

  lemma {:induction false} BindReads(q: Query, ps: seq<Slot>)
    requires Accepts(q, ps)
    ensures TablesRead(BindQuery(q, ps)) == TablesRead(q)
  {
    hide IntendedList, IntendedSuffix, Intended, BindList, BindSuffix, Bind;
    match q
    case Base(_) =>
    case Select(list, from, _) =>
      BindReads(from, ps[|IntendedList(list)|..|IntendedList(list)| + |IntendedQuery(from)|]);
    case JoinOn(_, left, right, _) =>
      var i, j := |IntendedQuery(left)|, |IntendedQuery(left)| + |IntendedQuery(right)|;
      BindReads(left, ps[..i]);
      BindReads(right, ps[i..j]);
    case With(_, definition, body) =>
      BindReads(definition, ps[..|IntendedQuery(definition)|]);
      BindReads(body, ps[|IntendedQuery(definition)|..]);
  }

  lemma BoundaryReads(cfg: Config, id: string, f: Fragment)
    ensures TablesRead(Boundary(cfg, id, f).sql) == TablesRead(f.sql)
  {
    hide BoundaryName;
  }

  lemma {:induction false} CompiledReads(cfg: Config, t: Tree, table: string)
    requires Compile(cfg, t).Ok? && table in TablesRead(Compile(cfg, t).value.sql) && ScanAncestor.Consistent(t)
    ensures exists id | id in Scans(t) :: Scans(t)[id] in cfg.bindings && cfg.bindings[Scans(t)[id]] == table
  {
    hide UnaryTemplate, SchemaOf, FilterScan, BinaryOn, Boundary;
    match t
    case Scan(id, dataset) =>
      BoundaryReads(cfg, id, CompileScan(cfg, dataset).value);
      assert id in Scans(t);
    case Unary(id, kind, input) =>
      var below := Compile(cfg, input).value;
      BoundaryReads(cfg, id, CompileUnary(cfg, id, kind, SchemaOf(cfg.catalog, input), FilterScan(cfg, input), below).value);
      CompiledReads(cfg, input, table);
      var scan :| scan in Scans(input) && Scans(input)[scan] in cfg.bindings && cfg.bindings[Scans(input)[scan]] == table;
      assert scan in Scans(t);
    case Binary(id, kind, left, right) =>
      BoundaryReads(cfg, id, CompileBinary(kind, id, Compile(cfg, left).value, Compile(cfg, right).value).value);
      if table in TablesRead(Compile(cfg, left).value.sql) {
        CompiledReads(cfg, left, table);
        var scan :| scan in Scans(left) && Scans(left)[scan] in cfg.bindings && cfg.bindings[Scans(left)[scan]] == table;
        assert scan in Scans(t);
      } else {
        CompiledReads(cfg, right, table);
        var scan :| scan in Scans(right) && Scans(right)[scan] in cfg.bindings && cfg.bindings[Scans(right)[scan]] == table;
        assert scan in Scans(t);
      }
  }

  /** Changing any table outside the captured sources changes neither the target's rows nor what its compiled
      statement returns, parameters in whatever order they were pushed. */
  lemma SourceLineageSound(g: Engine, cfg: Config, plan: Graph, rank: map<string, nat>, target: string,
                           scans: seq<ScanRef>, a: Database, b: Database)
    requires Acyclic(plan, rank) && target in plan
    requires AreReached(plan, target, scans)
    requires AgreeOn(cfg.bindings, set s | s in scans :: s.dataset, a, b)
    ensures var t := Unfold(plan, rank, target);
            && Eval(g, Source(cfg.catalog, cfg.bindings, a), t) == Eval(g, Source(cfg.catalog, cfg.bindings, b), t)
            && (Compile(cfg, t).Ok? ==>
                  && Accepts(Compile(cfg, t).value.sql, Compile(cfg, t).value.parameters)
                  && Run(g, a, Compile(cfg, t).value) == Run(g, b, Compile(cfg, t).value))
  {
    var t := Unfold(plan, rank, target);
    ScanAncestor.UnfoldConsistent(plan, rank, target);
    var datasets := set s | s in scans :: s.dataset;
    forall id | id in Scans(t) ensures Scans(t)[id] in datasets {
      ScansAreReached(plan, rank, target, id);
      assert ScanRef(id, Scans(t)[id]) in scans;
    }
    EvalDepends(g, cfg.catalog, cfg.bindings, t, a, b);
    if Compile(cfg, t).Ok? { CompiledDepends(g, cfg, t, datasets, a, b); }
  }

  lemma CompiledDepends(g: Engine, cfg: Config, t: Tree, datasets: set<string>, a: Database, b: Database)
    requires Compile(cfg, t).Ok? && ScanAncestor.Consistent(t)
    requires forall id | id in Scans(t) :: Scans(t)[id] in datasets
    requires AgreeOn(cfg.bindings, datasets, a, b)
    ensures Accepts(Compile(cfg, t).value.sql, Compile(cfg, t).value.parameters)
    ensures Run(g, a, Compile(cfg, t).value) == Run(g, b, Compile(cfg, t).value)
  {
    ParameterOrder.ParametersCounted(cfg, t);
    var f := Compile(cfg, t).value;
    hide Compile;
    BindReads(f.sql, f.parameters);
    forall table | table in TablesRead(f.sql) ensures (table in a <==> table in b) && (table in a ==> a[table] == b[table]) {
      CompiledReads(cfg, t, table);
    }
    ExecDepends(g, a, b, BindQuery(f.sql, f.parameters));
  }

  // ----- the capture over all requirements -----

  datatype Requirement = Requirement(recordLevel: bool, target: string)

  datatype Edge = Edge(dataset: string, snapshot: string, target: string)

  datatype Capture = Capture(edges: set<Edge>, sources: set<(string, string)>, covered: seq<string>)

  datatype CaptureError = RecordLevel | Unknown(id: string) | NoSource(target: string) | NoSnapshot(dataset: string)

  /** The edge of a scan the target reaches. */
  ghost predicate IsEdge(ops: Graph, snapshots: map<string, string>, target: string, e: Edge) {
    && e.target == target && e.dataset in snapshots && e.snapshot == snapshots[e.dataset]
    && exists id :: Reaches(ops, target, id) && IsScan(ops, id) && ops[id].kind.dataset == e.dataset
  }

  /** A target whose sources are all known, present and resolved to a snapshot. */
  ghost predicate Capturable(ops: Graph, snapshots: map<string, string>, target: string) {
    && AllKnown(ops, target)
    && (exists id :: Reaches(ops, target, id) && IsScan(ops, id))
    && (forall id | Reaches(ops, target, id) && IsScan(ops, id) :: ops[id].kind.dataset in snapshots)
  }

  lemma NoneReached(ops: Graph, target: string, scans: seq<ScanRef>)
    requires AreReached(ops, target, scans)
    ensures scans != [] <==> exists id :: Reaches(ops, target, id) && IsScan(ops, id)
  {
    if scans != [] {
      assert scans[0] in scans && scans[0] == ScanRef(scans[0].id, scans[0].dataset);
    }
    forall id | Reaches(ops, target, id) ensures IsScan(ops, id) ==> scans != [] {
      assert IsScan(ops, id) ==> ScanRef(id, ops[id].kind.dataset) in scans;
    }
  }

  lemma AllResolved(ops: Graph, snapshots: map<string, string>, target: string, scans: seq<ScanRef>)
    requires AreReached(ops, target, scans)
    ensures (forall s | s in scans :: s.dataset in snapshots)
            <==> forall id | Reaches(ops, target, id) && IsScan(ops, id) :: ops[id].kind.dataset in snapshots
  {
    forall id | Reaches(ops, target, id) && IsScan(ops, id) ensures ScanRef(id, ops[id].kind.dataset) in scans {}
    forall s | s in scans ensures Reaches(ops, target, s.id) && IsScan(ops, s.id) && ops[s.id].kind.dataset == s.dataset {
      assert s == ScanRef(s.id, s.dataset);
    }
  }

  /** The edges appended for these scans, in order; all their datasets have snapshots. */
  function EdgesFor(scans: seq<ScanRef>, snapshots: map<string, string>, target: string): set<Edge>
    requires forall s | s in scans :: s.dataset in snapshots
  {
    if scans == [] then {}
    else
      var s := scans[|scans| - 1];
      EdgesFor(scans[..|scans| - 1], snapshots, target) + {Edge(s.dataset, snapshots[s.dataset], target)}
  }

  lemma EdgesForEach(scans: seq<ScanRef>, snapshots: map<string, string>, target: string)
    requires forall s | s in scans :: s.dataset in snapshots
    ensures EdgesFor(scans, snapshots, target) == set s | s in scans :: Edge(s.dataset, snapshots[s.dataset], target)
  {
    if scans != [] {
      EdgesForEach(scans[..|scans| - 1], snapshots, target);
      assert forall s :: s in scans <==> s in scans[..|scans| - 1] || s == scans[|scans| - 1];
    }
  }

  lemma EdgesReached(ops: Graph, snapshots: map<string, string>, target: string, scans: seq<ScanRef>, edges: set<Edge>)
    requires AreReached(ops, target, scans) && forall s | s in scans :: s.dataset in snapshots
    requires edges == EdgesFor(scans, snapshots, target)
    ensures forall e :: e in edges <==> IsEdge(ops, snapshots, target, e)
  {
    EdgesForEach(scans, snapshots, target);
    forall e ensures e in edges <==> IsEdge(ops, snapshots, target, e) {
      if e in edges {
        var s :| s in scans && e == Edge(s.dataset, snapshots[s.dataset], target);
        assert s == ScanRef(s.id, s.dataset);
      }
      if IsEdge(ops, snapshots, target, e) {
        var id :| Reaches(ops, target, id) && IsScan(ops, id) && ops[id].kind.dataset == e.dataset;
        assert ScanRef(id, e.dataset) in scans;
      }
    }
  }

  lemma CapturableWhen(ops: Graph, snapshots: map<string, string>, target: string, scans: seq<ScanRef>)
    requires AllKnown(ops, target) ==> AreReached(ops, target, scans)
    ensures Capturable(ops, snapshots, target)
            <==> AllKnown(ops, target) && scans != [] && forall s | s in scans :: s.dataset in snapshots
  {
    if AllKnown(ops, target) {
      NoneReached(ops, target, scans);
      AllResolved(ops, snapshots, target, scans);
    }
  }

  method CaptureTarget(ops: Graph, snapshots: map<string, string>, target: string) returns (r: Result<set<Edge>, CaptureError>)
    ensures r.Ok? <==> Capturable(ops, snapshots, target)
    ensures r.Ok? ==> forall e :: e in r.value <==> IsEdge(ops, snapshots, target, e)
    ensures r.Error? ==> r.error != RecordLevel
  {
    hide AreReached, AllKnown, ById, Reaches, IsScan, IsEdge, Capturable;
    var reached := ReachableScans(ops, target);
    CapturableWhen(ops, snapshots, target, if reached.Ok? then reached.value else []);
    if reached.Error? { return Error(Unknown(reached.error)); }
    var scans := reached.value;
    if scans == [] { return Error(NoSource(target)); }
    var edges := {};
    for i := 0 to |scans|
      invariant forall s | s in scans[..i] :: s.dataset in snapshots
      invariant edges == EdgesFor(scans[..i], snapshots, target)
    {
      assert scans[i] in scans;
      if scans[i].dataset !in snapshots { return Error(NoSnapshot(scans[i].dataset)); }
      edges := edges + {Edge(scans[i].dataset, snapshots[scans[i].dataset], target)};
      assert scans[..i + 1] == scans[..i] + [scans[i]] && scans[..i + 1][..i] == scans[..i];
    }
    assert scans[..|scans|] == scans;
    EdgesReached(ops, snapshots, target, scans, edges);
    r := Ok(edges);
  }

  ghost predicate EdgesOf(ops: Graph, snapshots: map<string, string>, requirements: seq<Requirement>, edges: set<Edge>) {
    forall e :: e in edges <==> exists q | q in requirements :: IsEdge(ops, snapshots, q.target, e)
  }

  lemma EdgesAppend(ops: Graph, snapshots: map<string, string>, requirements: seq<Requirement>, q: Requirement,
                    edges: set<Edge>, more: set<Edge>)
    requires EdgesOf(ops, snapshots, requirements, edges)
    requires forall e :: e in more <==> IsEdge(ops, snapshots, q.target, e)
    ensures EdgesOf(ops, snapshots, requirements + [q], edges + more)
  {
    hide IsEdge;
    forall e ensures e in edges + more <==> exists p | p in requirements + [q] :: IsEdge(ops, snapshots, p.target, e) {
      if e in edges {
        var p :| p in requirements && IsEdge(ops, snapshots, p.target, e);
        assert p in requirements + [q];
      }
      if e in more { assert q in requirements + [q]; }
    }
  }

  function SourcesOf(edges: set<Edge>): set<(string, string)> {
    set e | e in edges :: (e.dataset, e.snapshot)
  }

  /** `tuple(dict.fromkeys(targets))`: each required target once. */
  ghost predicate TargetsOf(requirements: seq<Requirement>, covered: seq<string>) {
    && (forall t :: t in covered <==> exists q | q in requirements :: q.target == t)
    && (forall a, b | 0 <= a < b < |covered| :: covered[a] != covered[b])
  }

  lemma TargetsAppend(requirements: seq<Requirement>, q: Requirement, covered: seq<string>)
    requires TargetsOf(requirements, covered)
    ensures TargetsOf(requirements + [q], if q.target in covered then covered else covered + [q.target])
  {
    var longer := if q.target in covered then covered else covered + [q.target];
    forall t ensures t in longer <==> exists p | p in requirements + [q] :: p.target == t {
      if t in covered {
        var p :| p in requirements && p.target == t;
        assert p in requirements + [q];
      }
      assert q in requirements + [q];
    }
  }

  method CaptureAll(ops: Graph, snapshots: map<string, string>, requirements: seq<Requirement>)
    returns (r: Result<Capture, CaptureError>)
    ensures r.Ok? <==> forall k | 0 <= k < |requirements| :: Capturable(ops, snapshots, requirements[k].target)
    ensures r.Ok? ==> EdgesOf(ops, snapshots, requirements, r.value.edges)
    ensures r.Ok? ==> r.value.sources == SourcesOf(r.value.edges)
    ensures r.Ok? ==> TargetsOf(requirements, r.value.covered)
  {
    var edges, sources, covered := {}, {}, [];
    NothingYet(ops, snapshots);
    hide IsEdge, Capturable, EdgesOf, TargetsOf;
    for i := 0 to |requirements|
      invariant forall k | 0 <= k < i :: Capturable(ops, snapshots, requirements[k].target)
      invariant EdgesOf(ops, snapshots, requirements[..i], edges)
      invariant sources == SourcesOf(edges)
      invariant TargetsOf(requirements[..i], covered)
    {
      var q := requirements[i];
      var captured := CaptureTarget(ops, snapshots, q.target);
      if captured.Error? { return Error(captured.error); }
      EdgesAppend(ops, snapshots, requirements[..i], q, edges, captured.value);
      TargetsAppend(requirements[..i], q, covered);
      assert requirements[..i + 1] == requirements[..i] + [q];
      edges := edges + captured.value;
      sources := sources + SourcesOf(captured.value);
      if q.target !in covered { covered := covered + [q.target]; }
    }
    assert requirements[..|requirements|] == requirements;
    r := Ok(Capture(edges, sources, covered));
  }

  /** `capture_source_lineage`: no requirement, no evidence; otherwise exactly one edge per dataset a required
      target reaches, or an error exactly when some requirement cannot be met at source level. */
  method CaptureSourceLineage(ops: Graph, snapshots: map<string, string>, requirements: seq<Requirement>)
    returns (r: Result<Option<Capture>, CaptureError>)
    ensures requirements == [] <==> r == Ok(None)
    ensures r.Ok? <==> forall k | 0 <= k < |requirements| ::
              !requirements[k].recordLevel && Capturable(ops, snapshots, requirements[k].target)
    ensures r.Ok? && r.value.Some? ==> EdgesOf(ops, snapshots, requirements, r.value.value.edges)
    ensures r.Ok? && r.value.Some? ==> r.value.value.sources == SourcesOf(r.value.value.edges)
    ensures r.Ok? && r.value.Some? ==> TargetsOf(requirements, r.value.value.covered)
  {
    if requirements == [] { return Ok(None); }
    for i := 0 to |requirements|
      invariant forall k | 0 <= k < i :: !requirements[k].recordLevel
    {
      if requirements[i].recordLevel { return Error(RecordLevel); }
    }
    hide Capturable, EdgesOf, TargetsOf;
    var all := CaptureAll(ops, snapshots, requirements);
    r := if all.Ok? then Ok(Some(all.value)) else Error(all.error);
  }

  lemma NothingYet(ops: Graph, snapshots: map<string, string>)
    ensures EdgesOf(ops, snapshots, [], {}) && TargetsOf([], [])
  {}
}
