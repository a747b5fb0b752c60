/** The compiler as it runs: one recursion over the plan's graph with a table of finished fragments. */
module MemoCompiler {
  import opened Wrappers
  import opened Sql
  import opened Plan
  import opened Compiler
  import opened Compilability

  /** `_single_scan_ancestor`: the memoised search answers what the plain recursion does. */
  method SingleScanAncestor(plan: Graph, ghost rank: map<string, nat>, id: string, memo: map<string, Option<ScanRef>>)
    returns (found: Option<ScanRef>, memo': map<string, Option<ScanRef>>)
    requires Acyclic(plan, rank) && id in plan
    requires forall k | k in memo :: k in plan && memo[k] == Ancestor(Unfold(plan, rank, k))
    ensures found == Ancestor(Unfold(plan, rank, id))
    ensures id in memo'
    ensures forall k | k in memo' :: k in plan && memo'[k] == Ancestor(Unfold(plan, rank, k))
    decreases rank[id]
  {
    memo' := memo;
    if id in memo { return memo[id], memo; }
    var operator := plan[id];
    if operator.kind.ScanSource? {
      found := Some(ScanRef(id, operator.kind.dataset));
    } else {
      found, memo' := SingleScanAncestor(plan, rank, operator.inputs[0], memo');
      if IsBinary(operator.kind) {
        var right;
        right, memo' := SingleScanAncestor(plan, rank, operator.inputs[1], memo');
        if found.None? {
          found := right;
        } else if right.Some? {
          found := if found.value.id == right.value.id then right else None;
        }
      }
    }
    memo' := memo'[id := found];
  }

  lemma ScanUnused(cfg: Config, id: string, kind: Kind, schema: Schema, a: Option<string>, b: Option<string>, input: Fragment)
    requires !kind.SpatialFilter?
    ensures CompileUnary(cfg, id, kind, schema, a, input) == CompileUnary(cfg, id, kind, schema, b, input)
  {}

  lemma ScanStep(plan: Graph, rank: map<string, nat>, cfg: Config, id: string)
    requires Acyclic(plan, rank) && id in plan && plan[id].kind.ScanSource?
    ensures Compile(cfg, Unfold(plan, rank, id)) == Bounded(cfg, id, CompileScan(cfg, plan[id].kind.dataset))
    ensures Ids(Unfold(plan, rank, id)) == {id}
  {}

  lemma UnaryStep(plan: Graph, rank: map<string, nat>, cfg: Config, id: string)
    requires Acyclic(plan, rank) && id in plan && !plan[id].kind.ScanSource? && !IsBinary(plan[id].kind)
    ensures var Operator(kind, inputs) := plan[id];
            var input := Unfold(plan, rank, inputs[0]);
            var below := Compile(cfg, input);
            && Compile(cfg, Unfold(plan, rank, id))
               == (var refused := RefusedFirst(kind, FilterScan(cfg, input));
                   if refused.Some? then Error(refused.value)
                   else if below.Error? then below
                   else Bounded(cfg, id, CompileUnary(cfg, id, kind, SchemaOf(cfg.catalog, input), FilterScan(cfg, input), below.value)))
            && Ids(Unfold(plan, rank, id)) == {id} + Ids(input) && id !in Ids(input)
  {
    hide CompileUnary, SchemaOf, FilterScan, Bounded;
    UnfoldProper(plan, rank, id);
  }

  lemma BinaryStep(plan: Graph, rank: map<string, nat>, cfg: Config, id: string)
    requires Acyclic(plan, rank) && id in plan && IsBinary(plan[id].kind)
    ensures var Operator(kind, inputs) := plan[id];
            var left, right := Unfold(plan, rank, inputs[0]), Unfold(plan, rank, inputs[1]);
            var l, r := Compile(cfg, left), Compile(cfg, right);
            && Compile(cfg, Unfold(plan, rank, id))
               == (if l.Error? then l else if r.Error? then r
                   else Bounded(cfg, id, CompileBinary(kind, id, l.value, r.value)))
            && Ids(Unfold(plan, rank, id)) == {id} + Ids(left) + Ids(right) && id !in Ids(left) + Ids(right)
  {
    hide CompileBinary, Bounded;
    UnfoldProper(plan, rank, id);
  }

  /** The table keeps its entries and gains some of `ids`, all of them on success. */
  ghost predicate Grown(before: map<string, Fragment>, after: map<string, Fragment>, ids: set<string>, all: bool) {
    && (forall k | k in before :: k in after && after[k] == before[k])
    && after.Keys <= before.Keys + ids
    && (all ==> after.Keys == before.Keys + ids)
  }

  lemma GrownNot(before: map<string, Fragment>, ids: set<string>)
    ensures Grown(before, before, ids, false)
  {}

  lemma RefusedAlike(kind: Kind, a: Option<string>, b: Option<string>)
    requires kind.SpatialFilter? ==> a == b
    ensures RefusedFirst(kind, a) == RefusedFirst(kind, b)
  {}

  lemma GrownWithin(before: map<string, Fragment>, after: map<string, Fragment>, ids: set<string>, more: set<string>)
    requires Grown(before, after, ids, false)
    ensures Grown(before, after, more + ids, false)
  {}

  lemma GrownLast(a: map<string, Fragment>, b: map<string, Fragment>, c: map<string, Fragment>, ids: set<string>, id: string, ok: bool)
    requires Grown(a, b, ids, true) && id !in a && id !in ids
    requires if ok then id in c && c == b[id := c[id]] else c == b
    ensures Grown(a, c, {id} + ids, ok)
    ensures id !in b && ids <= b.Keys
  {}

  lemma GrownLeft(a: map<string, Fragment>, b: map<string, Fragment>, lefts: set<string>, rights: set<string>, id: string)
    requires Grown(a, b, lefts, false)
    ensures Grown(a, b, {id} + lefts + rights, false)
  {}

  lemma GrownRight(a: map<string, Fragment>, b: map<string, Fragment>, c: map<string, Fragment>,
                   lefts: set<string>, rights: set<string>, id: string, all: bool)
    requires Grown(a, b, lefts, true) && Grown(b, c, rights, all)
    ensures Grown(a, c, {id} + lefts + rights, false)
    ensures all && id !in a && id !in lefts + rights ==> id !in c && {id} + lefts + rights <= c.Keys + {id}
  {}

  lemma GrownBoth(a: map<string, Fragment>, b: map<string, Fragment>, c: map<string, Fragment>, d: map<string, Fragment>,
                  lefts: set<string>, rights: set<string>, id: string)
    requires Grown(a, b, lefts, true) && Grown(b, c, rights, true) && id !in a && id !in lefts + rights
    requires id in d && d == c[id := d[id]]
    ensures Grown(a, d, {id} + lefts + rights, true)
  {}

  class CompilerRun {
    const plan: Graph
    const cfg: Config
    /** The schema of every operator, derived again at the execution boundary. */
    const schemas: map<string, Schema>
    ghost const rank: map<string, nat>
    var memo: map<string, Fragment>
    /** The operators compiled so far, in the order they were finished. */
    ghost var finished: seq<string>

    ghost predicate Valid()
      reads this
    {
      && Acyclic(plan, rank) && !cfg.corrected
      && (forall id | id in plan :: id in schemas && schemas[id] == SchemaOf(cfg.catalog, Unfold(plan, rank, id)))
      && (forall id | id in memo :: id in plan && Compile(cfg, Unfold(plan, rank, id)) == Ok(memo[id]))
      && (forall id | id in memo :: Ids(Unfold(plan, rank, id)) <= memo.Keys)
      && (forall i, j | 0 <= i < j < |finished| :: finished[i] != finished[j])
      && Elements(finished) == memo.Keys
    }

    constructor (plan: Graph, cfg: Config, schemas: map<string, Schema>, ghost rank: map<string, nat>)
      requires Acyclic(plan, rank) && !cfg.corrected
      requires forall id | id in plan :: id in schemas && schemas[id] == SchemaOf(cfg.catalog, Unfold(plan, rank, id))
      ensures Valid() && memo == map[] && finished == []
      ensures this.plan == plan && this.cfg == cfg && this.rank == rank
    {
      this.plan := plan;
      this.cfg := cfg;
      this.schemas := schemas;
      this.rank := rank;
      memo := map[];
      finished := [];
    }

    /** Records a finished operator once. */
    method Finish(id: string, c: Compiled) returns (r: Compiled)
      requires Valid() && id in plan && id !in memo
      requires Bounded(cfg, id, c) == Compile(cfg, Unfold(plan, rank, id))
      requires c.Ok? ==> Ids(Unfold(plan, rank, id)) <= memo.Keys + {id}
      modifies this`memo, this`finished
      ensures Valid()
      ensures r == Compile(cfg, Unfold(plan, rank, id))
      ensures r.Ok? ==> memo == old(memo)[id := r.value] && finished == old(finished) + [id]
      ensures r.Error? ==> memo == old(memo) && finished == old(finished)
    {
      r := Bounded(cfg, id, c);
      if r.Ok? {
        memo := memo[id := r.value];
        finished := finished + [id];
      }
    }

    /** `_compile_operator`: the fragment of plain recursion; every operator below is compiled exactly once. */
    method CompileOperator(id: string) returns (r: Compiled)
      requires Valid() && id in plan
      modifies this`memo, this`finished
      ensures Valid()
      ensures r == Compile(cfg, Unfold(plan, rank, id))
      ensures Grown(old(memo), memo, Ids(Unfold(plan, rank, id)), r.Ok?)
      decreases rank[id], 1
    {
      hide Compile, Unfold, Ids, CompileScan;
      if id in memo {
        r := Ok(memo[id]);
      } else if plan[id].kind.ScanSource? {
        ScanStep(plan, rank, cfg, id);
        r := Finish(id, CompileScan(cfg, plan[id].kind.dataset));
      } else if IsBinary(plan[id].kind) {
        r := CompileBinaryOperator(id);
      } else {
        r := CompileUnaryOperator(id);
      }
    }

    method CompileBinaryOperator(id: string) returns (r: Compiled)
      requires Valid() && id in plan && id !in memo && IsBinary(plan[id].kind)
      modifies this`memo, this`finished
      ensures Valid()
      ensures r == Compile(cfg, Unfold(plan, rank, id))
      ensures Grown(old(memo), memo, Ids(Unfold(plan, rank, id)), r.Ok?)
      decreases rank[id], 0
    {
      BinaryStep(plan, rank, cfg, id);
      hide Compile, Unfold, Ids, CompileBinary, Bounded, Valid, Grown, Acyclic;
      ghost var start := memo;
      var inputs := InputsOf(id);
      ghost var lefts, rights := Ids(Unfold(plan, rank, inputs[0])), Ids(Unfold(plan, rank, inputs[1]));
      var left := CompileOperator(inputs[0]);
      if left.Error? {
        GrownLeft(start, memo, lefts, rights, id);
        return left;
      }
      ghost var middle := memo;
      var right := CompileOperator(inputs[1]);
      GrownRight(start, middle, memo, lefts, rights, id, right.Ok?);
      if right.Error? { return right; }
      ghost var below := memo;
      r := Finish(id, CompileBinary(plan[id].kind, id, left.value, right.value));
      if r.Ok? { GrownBoth(start, middle, below, memo, lefts, rights, id); }
    }

    method CompileUnaryOperator(id: string) returns (r: Compiled)
      requires Valid() && id in plan && id !in memo && !plan[id].kind.ScanSource? && !IsBinary(plan[id].kind)
      modifies this`memo, this`finished
      ensures Valid()
      ensures r == Compile(cfg, Unfold(plan, rank, id))
      ensures Grown(old(memo), memo, Ids(Unfold(plan, rank, id)), r.Ok?)
      decreases rank[id], 0
    {
      UnaryStep(plan, rank, cfg, id);
      hide Compile, Unfold, Ids, CompileUnary, SchemaOf, FilterScan, Bounded, Valid, Grown, Acyclic;
      ghost var start := memo;
      var inputs := InputsOf(id);
      ghost var ids := Ids(Unfold(plan, rank, inputs[0]));
      var dataset := FindScan(plan[id].kind, inputs[0]);
      var refused := RefusedFirst(plan[id].kind, dataset);
      RefusedAlike(plan[id].kind, dataset, FilterScan(cfg, Unfold(plan, rank, inputs[0])));
      if refused.Some? {
        GrownNot(start, {id} + ids);
        return Error(refused.value);
      }
      var below := CompileOperator(inputs[0]);
      if below.Error? {
        GrownWithin(start, memo, ids, {id});
        return below;
      }
      ghost var middle := memo;
      GrownLast(start, middle, middle, ids, id, false);
      var schema := SchemaBelow(inputs[0]);
      ScanUsed(plan[id].kind, id, inputs[0], dataset, below.value);
      r := Finish(id, CompileUnary(cfg, id, plan[id].kind, schema, dataset, below.value));
      GrownLast(start, middle, memo, ids, id, r.Ok?);
    }

    method InputsOf(id: string) returns (inputs: seq<string>)
      requires Valid() && id in plan
      ensures inputs == plan[id].inputs && |inputs| == Arity(plan[id].kind)
      ensures Acyclic(plan, rank)
      ensures forall k | 0 <= k < |inputs| :: inputs[k] in plan && rank[inputs[k]] < rank[id]
    {
      inputs := plan[id].inputs;
    }

    method SchemaBelow(input: string) returns (schema: Schema)
      requires Valid() && input in plan
      ensures schema == SchemaOf(cfg.catalog, Unfold(plan, rank, input))
    {
      schema := schemas[input];
    }

    /** The unique-scan search, started afresh for each SpatialFilter. */
    method FindScan(kind: Kind, input: string) returns (dataset: Option<string>)
      requires Valid() && input in plan
      ensures kind.SpatialFilter? ==> dataset == FilterScan(cfg, Unfold(plan, rank, input))
    {
      dataset := None;
      if kind.SpatialFilter? {
        var scan, _ := SingleScanAncestor(plan, rank, input, map[]);
        dataset := if scan.Some? then Some(scan.value.dataset) else None;
      }
    }

    lemma ScanUsed(kind: Kind, id: string, input: string, dataset: Option<string>, below: Fragment)
      requires Valid() && input in plan
      requires kind.SpatialFilter? ==> dataset == FilterScan(cfg, Unfold(plan, rank, input))
      ensures var schema := SchemaOf(cfg.catalog, Unfold(plan, rank, input));
              CompileUnary(cfg, id, kind, schema, dataset, below)
              == CompileUnary(cfg, id, kind, schema, FilterScan(cfg, Unfold(plan, rank, input)), below)
    {
      if !kind.SpatialFilter? {
        ScanUnused(cfg, id, kind, schemas[input], dataset, FilterScan(cfg, Unfold(plan, rank, input)), below);
      }
    }
  }

  ghost predicate Distinct(ids: seq<string>) {
    forall i, j | 0 <= i < j < |ids| :: ids[i] != ids[j]
  }

  /** `compile_validated_plan`: the fragment of the output operator, every operator below it compiled once. A plan is refused
      exactly when one of its operators cannot be executed, for a fault one of them has; a storage boundary stores exactly
      the results of its operator. */
  method CompileValidatedPlan(plan: Graph, cfg: Config, schemas: map<string, Schema>, ghost rank: map<string, nat>, output: string)
    returns (r: Compiled, ghost finished: seq<string>)
    requires Acyclic(plan, rank) && !cfg.corrected
    requires forall id | id in plan :: id in schemas && schemas[id] == SchemaOf(cfg.catalog, Unfold(plan, rank, id))
    ensures output !in plan ==> r == Error(OutputMissing)
    ensures output in plan ==> r == Compile(cfg, Unfold(plan, rank, output))
    ensures r.Ok? ==> Distinct(finished) && Elements(finished) == Ids(Unfold(plan, rank, output))
    ensures output in plan ==> (r.Ok? <==> Executable(cfg, Unfold(plan, rank, output)))
    ensures output in plan && r.Error? ==> Faulty(cfg, Unfold(plan, rank, output), r.error)
    ensures r.Ok? && cfg.materializeAfter.Some? ==>
              Stores(cfg, Unfold(plan, rank, output), cfg.materializeAfter.value, r.value)
  {
    finished := [];
    if output !in plan { return Error(OutputMissing), []; }
    var run := new CompilerRun(plan, cfg, schemas, rank);
    r := run.CompileOperator(output);
    finished := run.finished;
    UnfoldProper(plan, rank, output);
    hide Compile, Executable, Faulty, ProperTree, Ids, Elements, Unfold, Acyclic, Stores;
    CompilesExactly(cfg, Unfold(plan, rank, output));
    if r.Ok? && cfg.materializeAfter.Some? {
      BoundaryStoresOperator(cfg, Unfold(plan, rank, output), cfg.materializeAfter.value);
    }
  }
}
