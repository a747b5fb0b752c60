/** The guard in front of record lineage: which plans, keys and result columns it lets through. */
module RecordFragment {
  import opened Wrappers
  import opened Sql
  import opened Plan
  import opened SourceLineage
  import opened RecordIdentity

  datatype FragmentError =
    | UnknownOperator(id: string)
    | Unsupported
    | WrongSources
    | MissingSnapshot
    | MaskedKey
    | DuplicateColumns
    | MissingKeys

  /** The graph as this search sees it: it follows the inputs of every operator, those of a scan too. */
  function Erased(ops: Graph): (erased: Graph)
    ensures erased.Keys == ops.Keys
    ensures forall id :: Followed(erased, id) == if id in ops then ops[id].inputs else []
  {
    map id | id in ops :: Operator(LineageCapture(true), ops[id].inputs)
  }

  ghost predicate Meets(ops: Graph, target: string, id: string) {
    Reaches(Erased(ops), target, id)
  }

  ghost predicate AllMet(ops: Graph, target: string) {
    forall id | Meets(ops, target, id) :: id in ops
  }

  ghost predicate MeetsScan(ops: Graph, target: string, id: string) {
    Meets(ops, target, id) && IsScan(ops, id)
  }

  predicate SupportedOperator(kind: Kind) {
    kind.ScanSource? || SupportedKind(kind)
  }

  /** What the fragment leaves out: every other kind of operator is in it. */
  predicate LeftOut(kind: Kind) {
    kind.Limit? || kind.Aggregate? || kind.MinGroupSize? || kind.LineageCapture? || kind.Join? || kind.SpatialJoin?
  }

  predicate MasksKey(kind: Kind, keys: seq<string>) {
    kind.Mask? && !(Elements(kind.masked) !! Elements(keys))
  }

  ghost predicate AllSupported(ops: Graph, target: string) {
    forall id | id in ops && Meets(ops, target, id) :: !LeftOut(ops[id].kind)
  }

  ghost predicate NoMaskedKey(ops: Graph, target: string, keys: seq<string>) {
    forall id | id in ops && Meets(ops, target, id) :: !MasksKey(ops[id].kind, keys)
  }

  /** One scan below the target, of the declared dataset. */
  ghost predicate OneSource(ops: Graph, target: string, dataset: string) {
    exists scan :: MeetsScan(ops, target, scan) && ops[scan].kind.dataset == dataset
                   && forall other | MeetsScan(ops, target, other) :: other == scan
  }

  predicate DistinctNames(names: seq<string>) {
    forall i, j | 0 <= i < j < |names| :: names[i] != names[j]
  }

  /** `_reachable_fragment`: everything the target reaches, if all of it is known and supported. */
  method ReachableFragment(ops: Graph, target: string) returns (r: Result<set<string>, FragmentError>)
    ensures r.Ok? <==> AllMet(ops, target) && AllSupported(ops, target)
    ensures r.Ok? ==> r.value <= ops.Keys && forall id :: id in r.value <==> Meets(ops, target, id)
    ensures r.Error? && !r.error.Unsupported? ==>
              r.error.UnknownOperator? && Meets(ops, target, r.error.id) && r.error.id !in ops
  {
    var search := new ScanSearch(Erased(ops));
    var unknown := search.Visit(target);
    if unknown.Some? { return Error(UnknownOperator(unknown.value)); }
    var found := search.visited;
    forall id | Meets(ops, target, id) ensures id in found {
      var path :| IsPath(Erased(ops), path) && path[0] == target && path[|path| - 1] == id;
      ClosedReaches(Erased(ops), found, path);
    }
    assert forall id | id in found :: id in ops && Meets(ops, target, id);
    hide Meets;
    var unsupported := set id | id in found && !SupportedOperator(ops[id].kind);
    if unsupported != {} {
      var bad :| bad in unsupported;
      return Error(Unsupported);
    }
    forall id | id in ops && Meets(ops, target, id) ensures !LeftOut(ops[id].kind) {
      assert id !in unsupported;
    }
    r := Ok(found);
  }

  datatype Context = Context(snapshot: string, indexes: seq<nat>)

  /** What the guard demands of the plan, the declaration and the result columns together. */
  ghost predicate Guarded(ops: Graph, target: string, dataset: string, snapshots: map<string, string>,
                          columns: seq<string>, keys: seq<string>) {
    && AllMet(ops, target) && AllSupported(ops, target)
    && OneSource(ops, target, dataset)
    && dataset in snapshots && snapshots[dataset] != ""
    && NoMaskedKey(ops, target, keys)
    && DistinctNames(columns)
    && (forall key | key in keys :: key in columns)
  }

  ghost predicate Located(columns: seq<string>, keys: seq<string>, indexes: seq<nat>) {
    |indexes| == |keys| && forall i | 0 <= i < |keys| :: indexes[i] < |columns| && columns[indexes[i]] == keys[i]
  }

  lemma OneScan(ops: Graph, target: string, dataset: string, fragment: set<string>, scans: set<string>)
    requires fragment <= ops.Keys && forall id :: id in fragment <==> Meets(ops, target, id)
    requires scans == set id | id in fragment && ops[id].kind.ScanSource?
    ensures OneSource(ops, target, dataset)
            <==> |scans| == 1 && forall id | id in scans :: id in ops && ops[id].kind.ScanSource? && ops[id].kind.dataset == dataset
  {
    hide Meets;
    forall id ensures id in scans <==> MeetsScan(ops, target, id) {}
    if OneSource(ops, target, dataset) {
      var scan :| MeetsScan(ops, target, scan) && ops[scan].kind.dataset == dataset
                  && forall other | MeetsScan(ops, target, other) :: other == scan;
      assert scans == {scan};
    }
    if |scans| == 1 {
      var scan :| scan in scans;
      assert |scans - {scan}| == 0;
      forall other | other in scans ensures other == scan {
        assert other !in scans - {scan};
      }
      assert MeetsScan(ops, target, scan);
    }
  }

  method Index(columns: seq<string>, key: string) returns (i: nat)
    requires key in columns
    ensures i < |columns| && columns[i] == key
  {
    i := 0;
    while columns[i] != key
      invariant i < |columns| && key in columns[i..]
      decreases |columns| - i
    {
      assert columns[i..] == [columns[i]] + columns[i + 1..];
      i := i + 1;
    }
  }

  /** `tuple(column_names.index(column) for column in key_columns)` */
  method Locate(columns: seq<string>, keys: seq<string>) returns (indexes: seq<nat>)
    requires forall key | key in keys :: key in columns
    ensures Located(columns, keys, indexes)
  {
    indexes := [];
    for i := 0 to |keys|
      invariant Located(columns, keys[..i], indexes)
    {
      var at := Index(columns, keys[i]);
      indexes := indexes + [at];
      assert keys[..i + 1] == keys[..i] + [keys[i]];
    }
    assert keys[..|keys|] == keys;
  }

  /** `_identity_context`: raises exactly when some demand fails; otherwise finds every key's column. */
  method IdentityContext(ops: Graph, target: string, dataset: string, snapshots: map<string, string>,
                         columns: seq<string>, keys: seq<string>) returns (r: Result<Context, FragmentError>)
    ensures r.Ok? <==> Guarded(ops, target, dataset, snapshots, columns, keys)
    ensures r.Ok? ==> dataset in snapshots && r.value.snapshot == snapshots[dataset] && Located(columns, keys, r.value.indexes)
  {
    var fragment := ReachableFragment(ops, target);
    if fragment.Error? { return Error(fragment.error); }
    var scans := set id | id in fragment.value && ops[id].kind.ScanSource?;
    OneScan(ops, target, dataset, fragment.value, scans);
    hide Meets, MeetsScan, AllMet, AllSupported, OneSource, Erased, Reaches, Followed, Elements;
    if |scans| != 1 || exists id | id in scans :: ops[id].kind.dataset != dataset { return Error(WrongSources); }
    if dataset !in snapshots || snapshots[dataset] == "" { return Error(MissingSnapshot); }
    if exists id | id in fragment.value :: MasksKey(ops[id].kind, keys) { return Error(MaskedKey); }
    if !DistinctNames(columns) { return Error(DuplicateColumns); }
    if exists key | key in keys :: key !in columns { return Error(MissingKeys); }
    var indexes := Locate(columns, keys);
    r := Ok(Context(snapshots[dataset], indexes));
  }

  // ----- what passes the guard -----

  lemma MeetStep(ops: Graph, id: string, other: string)
    requires id in ops
    ensures Meets(ops, id, other) <==> id == other || exists input | input in ops[id].inputs :: Meets(ops, input, other)
  {
    var erased := Erased(ops);
    ReachesSelf(erased, id);
    if Reaches(erased, id, other) { FirstStep(erased, id, other); }
    forall input | input in Followed(erased, id) && Reaches(erased, input, other) ensures Reaches(erased, id, other) {
      ReachesThrough(erased, id, input, other);
    }
  }

  lemma MeetUnary(plan: Graph, rank: map<string, nat>, id: string)
    requires Acyclic(plan, rank) && id in plan && SupportedKind(plan[id].kind)
    ensures forall other :: Meets(plan, id, other) <==> other == id || Meets(plan, plan[id].inputs[0], other)
    ensures forall other :: MeetsScan(plan, id, other) <==> MeetsScan(plan, plan[id].inputs[0], other)
  {
    var inputs := plan[id].inputs;
    assert inputs == [inputs[0]];
    hide Meets;
    forall other ensures Meets(plan, id, other) <==> other == id || Meets(plan, inputs[0], other) {
      MeetStep(plan, id, other);
    }
  }

  lemma MeetScanOnly(plan: Graph, rank: map<string, nat>, id: string)
    requires Acyclic(plan, rank) && id in plan && plan[id].kind.ScanSource?
    ensures forall other :: Meets(plan, id, other) <==> other == id
  {
    hide Meets;
    assert plan[id].inputs == [];
    forall other ensures Meets(plan, id, other) <==> other == id { MeetStep(plan, id, other); }
  }

  /** On an acyclic plan the guard accepts exactly the chains of supported operators, over one scan of the dataset,
      with no Mask on a key. */
  lemma {:induction false} GuardExact(plan: Graph, rank: map<string, nat>, id: string, dataset: string, keys: seq<string>)
    requires Acyclic(plan, rank) && id in plan
    ensures AllSupported(plan, id) && OneSource(plan, id, dataset) && NoMaskedKey(plan, id, keys)
            <==> Accepted(Unfold(plan, rank, id), dataset, keys)
    decreases rank[id]
  {
    var kind := plan[id].kind;
    MeetStep(plan, id, id);
    hide Meets;
    if kind.ScanSource? {
      MeetScanOnly(plan, rank, id);
      assert MeetsScan(plan, id, id);
    } else if SupportedKind(kind) {
      MeetUnary(plan, rank, id);
      GuardExact(plan, rank, plan[id].inputs[0], dataset, keys);
      hide MeetsScan;
    }
  }
}
