/** Running governed candidates one after another on one connection, through either runner. */
module PipelineRunners {
  import opened Wrappers
  import opened Shuffling
  import opened Bags
  import opened GovernedPipelines

  class Connection {
    const g: Engine
    var tables: Tables

    constructor (g: Engine, tables: Tables)
      ensures this.g == g && this.tables == tables
    {
      this.g := g;
      this.tables := tables;
    }

    /** `DROP TABLE IF EXISTS`. */
    method Drop(table: Table)
      modifies this`tables
      ensures tables == old(tables) - {table}
    {
      tables := tables - {table};
    }

    /** `CREATE TEMP TABLE ... AS SELECT`: fails if the table exists; stores the rows in whatever order they come. */
    method Create(table: Table, s: Select) returns (ok: bool)
      modifies this`tables
      ensures ok <==> table !in old(tables) && Readable(old(tables), s)
      ensures ok ==> BuiltOne(g, old(tables), (table, s), tables)
      ensures !ok ==> tables == old(tables)
    {
      ok := table !in tables && Readable(tables, s);
      if ok {
        var rows := Shuffled(Answer(g, tables, s));
        tables := tables[table := rows];
      }
    }

    /** `SELECT ... ORDER BY row_id, dimension_key`; fails if a table is missing. */
    method Fetch(s: Select) returns (r: Option<seq<Row>>)
      ensures r.Some? <==> Readable(tables, s)
      ensures r.Some? ==> Sorted(Rank, r.value) && multiset(r.value) == multiset(Answer(g, tables, s))
    {
      if !Readable(tables, s) { return None; }
      var rows := Sort(Rank, Answer(g, tables, s));
      r := Some(rows);
    }

    /** `_drop_tables`, last table first. */
    method DropAll(list: seq<Table>)
      modifies this`tables
      ensures tables == old(tables) - Names(list)
    {
      var n := |list|;
      assert Names(list[n..]) == {};
      while n > 0
        invariant 0 <= n <= |list| && tables == old(tables) - Names(list[n..])
      {
        n := n - 1;
        Drop(list[n]);
        assert list[n..] == [list[n]] + list[n + 1..];
        assert Names(list[n..]) == Names(list[n + 1..]) + {list[n]};
      }
      assert list[0..] == list;
    }

    /** The setup statements in order. */
    method SetUp(setup: seq<(Table, Select)>) returns (ok: bool)
      modifies this`tables
      ensures ok <==> CanBuild(old(tables.Keys), setup)
      ensures ok ==> Built(g, old(tables), setup, tables)
    {
      hide BuiltOne;
      for i := 0 to |setup|
        invariant Built(g, old(tables), setup[..i], tables)
        invariant CanBuild(tables.Keys, setup[i..]) == CanBuild(old(tables.Keys), setup)
      {
        assert setup[i..][0] == setup[i] && setup[i..][1..] == setup[i + 1..];
        ghost var before := tables;
        var (table, s) := setup[i];
        ok := Create(table, s);
        if !ok { return; }
        OneMore(g, before, table, s, tables);
        BuiltLast(g, old(tables), setup[..i], before, setup[i], tables);
        assert setup[..i + 1] == setup[..i] + [setup[i]];
      }
      assert setup[..|setup|] == setup;
      ok := true;
    }

    /** `execute_governed_pipeline`. */
    method Execute(id: CandidateId, u: Unit) returns (r: Option<seq<Row>>)
      requires Build(id, u).Some? && Events in tables && Dimension in tables
      modifies this`tables
      ensures r.Some? && Sorted(Rank, r.value)
      ensures multiset(r.value) == multiset(Governed(g, u, old(tables)[Events], old(tables)[Dimension]))
      ensures ShowsSources(g, u, old(tables)[Events], old(tables)[Dimension], r.value)
      ensures Conceals(g, u, old(tables)[Events], old(tables)[Dimension], r.value)
      ensures tables == old(tables) - Names(Build(id, u).value.temporary)
    {
      var candidate := Build(id, u).value;
      ghost var start := tables;
      DropAll(candidate.temporary);
      ghost var base := tables;
      BaseKept(id, u, start);
      CleanBuilds(id, u, base.Keys);
      hide Build, Governed, Sorted, ShowsSources, Conceals, CanBuild;
      r := SetUpAndRead(id, u, candidate);
      ghost var built := tables;
      DropAll(candidate.temporary);
      Restored(base, built, Names(candidate.temporary), start);
      GovernedShows(g, u, start[Events], start[Dimension], r.value);
      GovernedConceals(g, u, start[Events], start[Dimension], r.value);
    }

    /** The setup statements, then the output. */
    method SetUpAndRead(id: CandidateId, u: Unit, candidate: Candidate) returns (r: Option<seq<Row>>)
      requires Build(id, u) == Some(candidate) && Events in tables && Dimension in tables && CanBuild(tables.Keys, candidate.setup)
      modifies this`tables
      ensures r.Some? && Sorted(Rank, r.value)
      ensures multiset(r.value) == multiset(Governed(g, u, old(tables)[Events], old(tables)[Dimension]))
      ensures old(tables).Keys <= tables.Keys && tables.Keys <= old(tables).Keys + Names(candidate.temporary)
      ensures forall t | t in old(tables) :: t in tables && tables[t] == old(tables)[t]
    {
      ghost var base := tables;
      hide Build, Answer, Governed, Sorted, CanBuild;
      var ok := SetUp(candidate.setup);
      CandidatesAgree(g, u, id, base, tables);
      BuiltNames(g, base, candidate.setup, tables);
      SetUpNames(id, u);
      hide Names, Built, Created;
      r := Fetch(candidate.output);
    }

    /** `_drop_execution_tables`: every table any candidate creates. */
    method DropExecution()
      modifies this`tables
      ensures tables == old(tables) - Names(ExecutionTables())
    {
      for i := 0 to |ExecutionTables()|
        invariant tables == old(tables) - Names(ExecutionTables()[..i])
      {
        Drop(ExecutionTables()[i]);
        NamesAppend(ExecutionTables()[..i], ExecutionTables()[i]);
        assert ExecutionTables()[..i + 1] == ExecutionTables()[..i] + [ExecutionTables()[i]];
      }
      assert ExecutionTables()[..|ExecutionTables()|] == ExecutionTables();
    }

    /** `_execute_timed`: the output is stored first, then read back. */
    method ExecuteTimed(id: CandidateId, u: Unit) returns (r: Option<seq<Row>>)
      requires Build(id, u).Some? && Events in tables && Dimension in tables
      modifies this`tables
      ensures r.Some? && Sorted(Rank, r.value)
      ensures multiset(r.value) == multiset(Governed(g, u, old(tables)[Events], old(tables)[Dimension]))
      ensures ShowsSources(g, u, old(tables)[Events], old(tables)[Dimension], r.value)
      ensures Conceals(g, u, old(tables)[Events], old(tables)[Dimension], r.value)
      ensures tables == old(tables) - Names(ExecutionTables())
    {
      var candidate := Build(id, u).value;
      ghost var start := tables;
      DropExecution();
      ghost var base := tables;
      TimedBase(id, u, start);
      CleanBuilds(id, u, base.Keys);
      hide Build, Answer, Governed, Sorted, ExecutionTables, CanBuild;
      var ok := SetUp(candidate.setup);
      r := StoreAndRead(id, u, candidate.output, base);
      hide Names, Built;
      ghost var built := tables;
      DropExecution();
      Restored(base, built, Names(ExecutionTables()), start);
      GovernedShows(g, u, start[Events], start[Dimension], r.value);
      GovernedConceals(g, u, start[Events], start[Dimension], r.value);
    }

    /** Stores the candidate's output and reads it back. */
    method StoreAndRead(id: CandidateId, u: Unit, output: Select, ghost base: Tables) returns (r: Option<seq<Row>>)
      requires Build(id, u).Some? && output == Build(id, u).value.output && Events in base && Dimension in base
      requires Built(g, base, Build(id, u).value.setup, tables) && GovernedOutput !in base
      modifies this`tables
      ensures r.Some? && Sorted(Rank, r.value)
      ensures multiset(r.value) == multiset(Governed(g, u, base[Events], base[Dimension]))
      ensures base.Keys <= tables.Keys && tables.Keys <= base.Keys + Names(ExecutionTables())
      ensures forall t | t in base && t !in Names(ExecutionTables()) :: tables[t] == base[t]
    {
      CandidatesAgree(g, u, id, base, tables);
      BuiltNames(g, base, Build(id, u).value.setup, tables);
      SetUpNames(id, u);
      hide Build, Answer, Governed, Sorted, ExecutionTables, Created, Built;
      assert GovernedOutput !in tables;
      var ok := Create(GovernedOutput, output);
      OutputReadBack(g, u, base[Events], base[Dimension], tables);
      r := Fetch(FromOutput());
    }

    /** Any candidates through either runner in any order, from any temporary tables somebody left behind: no run fails,
        all return the same rows, and the base tables are what they were. */
    method RunAll(u: Unit, runs: seq<(CandidateId, bool)>) returns (results: seq<seq<Row>>)
      requires Events in tables && Dimension in tables && Identified(tables[Events], tables[Dimension])
      requires forall k | 0 <= k < |runs| :: Build(runs[k].0, u).Some?
      modifies this`tables
      ensures |results| == |runs|
      ensures forall k | 0 <= k < |runs| ::
                Sorted(Rank, results[k]) && multiset(results[k]) == multiset(Governed(g, u, old(tables)[Events], old(tables)[Dimension]))
      ensures forall k | 0 <= k < |runs| ::
                InSourceOrder(results[k]) && ShowsSources(g, u, old(tables)[Events], old(tables)[Dimension], results[k])
                && Conceals(g, u, old(tables)[Events], old(tables)[Dimension], results[k])
      ensures forall j, k | 0 <= j < k < |runs| :: results[j] == results[k] && LineageEdges(results[j]) == LineageEdges(results[k])
      ensures Events in tables && Dimension in tables
              && tables[Events] == old(tables)[Events] && tables[Dimension] == old(tables)[Dimension]
    {
      results := [];
      hide Sorted, Governed, Build, Identified, ExecutionTables, LineageEdges, ShowsSources, Conceals, InSourceOrder;
      for n := 0 to |runs|
        invariant |results| == n
        invariant Events in tables && Dimension in tables
        invariant tables[Events] == old(tables)[Events] && tables[Dimension] == old(tables)[Dimension]
        invariant forall k | 0 <= k < n ::
                    Sorted(Rank, results[k]) && multiset(results[k]) == multiset(Governed(g, u, old(tables)[Events], old(tables)[Dimension]))
        invariant forall k | 0 <= k < n ::
                    InSourceOrder(results[k]) && ShowsSources(g, u, old(tables)[Events], old(tables)[Dimension], results[k])
                    && Conceals(g, u, old(tables)[Events], old(tables)[Dimension], results[k])
      {
        BasesAreBase(runs[n].0, u);
        var r;
        if runs[n].1 { r := ExecuteTimed(runs[n].0, u); } else { r := Execute(runs[n].0, u); }
        GovernedInOrder(g, u, old(tables)[Events], old(tables)[Dimension], r.value);
        results := results + [r.value];
      }
      forall j, k | 0 <= j < k < |runs| ensures results[j] == results[k] {
        SortedResultsEqual(g, u, old(tables)[Events], old(tables)[Dimension], results[j], results[k]);
      }
    }
  }

  function Names(list: seq<Table>): set<Table> {
    set t | t in list
  }

  function ExecutionTables(): seq<Table> {
    [GovernedOutput, PipelineCheckpoint, RawQueryCheckpoint, RawJoinCheckpoint]
  }

  lemma NamesAppend(list: seq<Table>, t: Table)
    ensures Names(list + [t]) == Names(list) + {t}
  {}

  lemma OneMore(g: Engine, before: Tables, table: Table, s: Select, after: Tables)
    requires BuiltOne(g, before, (table, s), after)
    ensures after.Keys == before.Keys + {table}
  {}

  /** No candidate's tables are base tables. */
  lemma BasesAreBase(id: CandidateId, u: Unit)
    requires Build(id, u).Some?
    ensures Events !in Names(Build(id, u).value.temporary) && Dimension !in Names(Build(id, u).value.temporary)
    ensures Events !in Names(ExecutionTables()) && Dimension !in Names(ExecutionTables())
  {}

  lemma BaseKept(id: CandidateId, u: Unit, start: Tables)
    requires Build(id, u).Some? && Events in start && Dimension in start
    ensures var base := start - Names(Build(id, u).value.temporary);
            Events in base && Dimension in base && base[Events] == start[Events] && base[Dimension] == start[Dimension]
            && base.Keys !! Names(Build(id, u).value.temporary)
  {
    BasesAreBase(id, u);
  }

  lemma TimedBase(id: CandidateId, u: Unit, start: Tables)
    requires Build(id, u).Some? && Events in start && Dimension in start
    ensures var base := start - Names(ExecutionTables());
            Events in base && Dimension in base && base[Events] == start[Events] && base[Dimension] == start[Dimension]
            && base.Keys !! Names(Build(id, u).value.temporary) && GovernedOutput !in base
  {
    BasesAreBase(id, u);
    assert GovernedOutput in ExecutionTables() && PipelineCheckpoint in ExecutionTables()
           && RawQueryCheckpoint in ExecutionTables() && RawJoinCheckpoint in ExecutionTables();
  }

  /** Over base tables and none of its own, every statement of a candidate's setup succeeds. */
  lemma CleanBuilds(id: CandidateId, u: Unit, known: set<Table>)
    requires Build(id, u).Some? && Events in known && Dimension in known
    requires known !! Names(Build(id, u).value.temporary)
    ensures CanBuild(known, Build(id, u).value.setup)
  {
    var candidate := Build(id, u).value;
    forall t | t in candidate.temporary ensures t !in known { assert t in Names(candidate.temporary); }
    match id
    case Fused =>
    case PolicyFirst => assert PipelineCheckpoint in candidate.temporary;
    case QueryFirst => assert PipelineCheckpoint in candidate.temporary && RawQueryCheckpoint in candidate.temporary;
    case JoinFirst => assert PipelineCheckpoint in candidate.temporary && RawJoinCheckpoint in candidate.temporary;
  }

  function Created(setup: seq<(Table, Select)>): set<Table> {
    if setup == [] then {} else Created(setup[..|setup| - 1]) + {setup[|setup| - 1].0}
  }

  lemma CreatedOne(a: (Table, Select))
    ensures Created([a]) == {a.0}
  {
    assert [a][..0] == [];
  }

  lemma CreatedTwo(a: (Table, Select), b: (Table, Select))
    ensures Created([a, b]) == {a.0, b.0}
  {
    assert [a, b][..1] == [a];
    CreatedOne(a);
  }

  /** Setup creates exactly the candidate's temporary tables. */
  lemma SetUpNames(id: CandidateId, u: Unit)
    requires Build(id, u).Some?
    ensures Created(Build(id, u).value.setup) == Names(Build(id, u).value.temporary)
    ensures Names(Build(id, u).value.temporary) <= Names(ExecutionTables()) && GovernedOutput in Names(ExecutionTables())
    ensures GovernedOutput !in Names(Build(id, u).value.temporary)
  {
    var candidate := Build(id, u).value;
    if |candidate.setup| == 1 { CreatedOne(candidate.setup[0]); }
    if |candidate.setup| == 2 { CreatedTwo(candidate.setup[0], candidate.setup[1]); }
    forall t | t in candidate.temporary ensures t in ExecutionTables() {
      assert ExecutionTables()[1] == PipelineCheckpoint && ExecutionTables()[2] == RawQueryCheckpoint && ExecutionTables()[3] == RawJoinCheckpoint;
    }
    assert ExecutionTables()[0] == GovernedOutput;
  }

  lemma OneKeeps(g: Engine, before: Tables, statement: (Table, Select), after: Tables, t: Table)
    requires BuiltOne(g, before, statement, after)
    ensures t in after <==> t in before || t == statement.0
    ensures t in before ==> t != statement.0 && after[t] == before[t]
  {}

  lemma {:induction false} BuiltName(g: Engine, base: Tables, setup: seq<(Table, Select)>, tables: Tables, t: Table)
    requires Built(g, base, setup, tables)
    ensures t in tables <==> t in base || t in Created(setup)
    ensures t in base ==> tables[t] == base[t]
    decreases |setup|
  {
    if setup != [] {
      var front, last := setup[..|setup| - 1], setup[|setup| - 1];
      hide BuiltOne;
      var before: Tables :| BuiltOne(g, before, last, tables) && Built(g, base, front, before);
      assert Created(setup) == Created(front) + {last.0};
      hide Built, Created;
      BuiltName(g, base, front, before, t);
      OneKeeps(g, before, last, tables, t);
    }
  }

  /** Building adds tables and touches no other. */
  lemma BuiltNames(g: Engine, base: Tables, setup: seq<(Table, Select)>, tables: Tables)
    requires Built(g, base, setup, tables)
    ensures tables.Keys == base.Keys + Created(setup)
    ensures forall t | t in base :: t in tables && tables[t] == base[t]
  {
    hide Built, Created;
    forall t: Table ensures t in tables <==> t in base || t in Created(setup)
                    ensures t in base ==> tables[t] == base[t] {
      BuiltName(g, base, setup, tables, t);
    }
  }

  /** Dropping what was built gives back the tables there were, without the dropped ones. */
  lemma Restored(base: Tables, tables: Tables, names: set<Table>, start: Tables)
    requires base == start - names && base.Keys <= tables.Keys && tables.Keys <= base.Keys + names
    requires forall t | t in base && t !in names :: tables[t] == base[t]
    ensures tables - names == start - names
  {}
}
