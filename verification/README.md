# TrustAero: models and proofs

TrustAero compiles validated logical plans to SQL, records where results came from, and measures which of several
result-equivalent physical plans is fastest. This project models the parts of it whose correctness is hard to see from any
one function, and proves what its documentation and tests promise of them. Every statement holds for all inputs, all
databases, all orders in which a database returns rows, all random draws and all crash points, unless it is an example.

The modules follow the repository's components.

- **Plans and SQL** (`Plan`, `Sql`, `SqlBinding`, `Compiler`, `ParameterOrder`, `ScanAncestor`, `CompiledMeaning`,
  `CompilerCorrectness`, `PolarJoin`, `Compilability`, `MemoCompiler`, `PlanRenaming`, `MaskPlacement`,
  `PlacementExamples`). Plans are graphs of fourteen operator kinds with a direct evaluator; SQL is a tree with positional parameters, three-valued predicates and relations of ordered rows.
  A placeholder remembers which operator meant it for which value, but binding only counts. `Config.corrected` switches
  between the compiler as written and the variant with the two corrections below.
- **Lineage** (`SourceLineage`, `RecordFragment`, `RecordIdentity`, `RecordEvidence`, `RecordLineageV1`, `RecordLineageV2`,
  `RecordLineageV4`, `RecordLineageMeaning`). SHA-256 is an arbitrary function to 32 bytes, so a statement about digests
  ends in "or here is a collision": the two colliding inputs are named, not merely said to exist.
- **Result-equivalent candidates** (`Bags`, `GovernedPipelines`, `PipelineRunners`, `PhaseTwo`). Tables are bags: every
  stored table may come in any order.
- **Protocols and orderings** (`TpchBuild`, `Scheduling`, `CertificateLog`, `CarryoverDesign`).
- **Numerics over the reals** (`Vectors`, `AnalyticFit`, `AnalyticOptimality`, `CoordinateDescent`, `CostFitting`,
  `CostSelection`, `Dominance`, `Bootstrap`, `Penalty`).
- `Wrappers`, `Ordering`, `Numerals`, `Cardinality` and `Shuffling` are shared.

## Where the code departs from its intent

1. `redact` masks and GeneralizeLocation append their parameters after the input's, but their placeholders come before
   `FROM (input)` in the text (`src/trustaero/execution/compiler.py:346-364`, `:388-401`; Aggregate at `:327-330` does it the
   other way round). `ParameterOrderExact` says exactly when that matters, `MisboundExample` shows what happens then, and
   `CorrectedPlanCorrect` needs no such condition.
2. `_single_scan_ancestor` (`:457-463`) drops ambiguous branches before it counts. `AncestorExact` and
   `DroppedBranchExample` say when the answer is wrong; the search in `lineage.py` has no such gap.
3. `_identity_context` (`src/trustaero/execution/record_lineage.py:349-356`) refuses masked key columns but not key columns that
   GeneralizeLocation rewrites. `KeyGuardExact` and
   `KeySurvivesExact` give the missing condition, `GeneralisedKeyExample` a fragment it admits.
4. The comment at `src/trustaero/data/tpch.py:279-280` says an interrupted generation call "is repeated safely". It is safe,
   nothing wrong is ever published, but not live: a crash between the database committing a partition after the first and the
   sidecar recording it duplicates that partition, and every later run under the same commit fails validation
   (`CrashWindowExact`, `StuckForever`, `OtherCommitRecovers`).
5. The Mask placement rules (`src/trustaero/planner/physical.py:231-233`) let a `redact` move below the optional side of a
   LEFT JOIN, whose padding it then no longer reaches (`OuterRedactionExact`, `ChangingPlacement`). And because of the first
   departure a permitted move can change results: it never breaks a plan whose parameters are in order
   (`PlacementKeepsAlignment`), but it can repair one whose parameters are not (`RepairingPlacement`).
6. V1 record lineage hashes key values without their types, so keys of different types that print alike share an artifact
   (`RecordLineageV1.TextsAreAll`, `TypesShareArtifact`); V2 tags them (`RecordLineageV2.VerifierSound`).
7. The comment at `src/trustaero/execution/compiler.py:256-259` says the latitude bound of a spatial join never changes the
   result. It does not for latitudes between -90 and 90 (`OnGlobeIsHarmless`), but the type checker lets a spatial join read
   generalised coordinates, and the cell centre of the pole may lie past the pole (`GridStaysOnGlobe`, `OneDegreeGrid`). Then
   pairs at no distance at all are lost (`PolarJoinExample`); `CompiledJoinExact` says exactly when.

## What is assumed

- Plans are type-checked and acyclic, as validation leaves them; `Acyclic` carries a rank as witness. Where a lemma needs
  more of the type checker (projections select existing fields, joins do not make names collide) its `requires` says so.
- The database executes SQL as `Sql.Exec` says; hashing, trigonometry, casts to text and the order of tied rows are
  functions in `Engine`. `LatitudeBoundSound` states the geometric fact the spatial join relies on, for latitudes between
  -90 and 90; `RoundGlobe` two identities of the great-circle formula, used by one example only; `SortsByKeys` that sorting
  looks at the sort keys only (needed when a Mask moves across a Sort). No theorem about plans without a spatial join
  assumes anything of the distance formula.
- JSON, UTF-8 and hex writers are injective (`RecordEvidence.Faithful`), and a JSON object or array ends where it closes
  (`SelfDelimiting`, for V4 identities only); nothing is assumed of SHA-256. Of how
  values print, one example assumes that a datetime prints like the text of its stamp (`PrintsStamps`, `default=str`).
- Row counts of a TPC-H build are additive over partitions, and each partition fills some table (`Productive`).
- `sqrt` is non-negative (exact in `ScaledToOne` only) and `exp` monotone; arithmetic is exact.
- Random generators may draw anything; the bootstrap's is a function from the number of a call and its bound to the answer.

## Model

| member | source | states |
|---|---|---|
| `SqlBinding.BindingIsTextual` | src/trustaero/execution/compiler.py:133-153 | Binding the statement tree and binding its printed text agree: the k-th `?` in the text gets the k-th parameter, for every statement and every list the statement accepts |
| `ParameterOrder.ParametersCounted` | src/trustaero/execution/compiler.py:467-659 | The fragment of every plan that compiles pushes exactly as many parameters as its text has placeholders |
| `ParameterOrder.ParameterOrderExact` | src/trustaero/execution/compiler.py:333-401 | As written, the pushed parameters are in text order if and only if no redact Mask or GeneralizeLocation stands above an input with parameters |
| `ParameterOrder.CorrectedParameterOrder` | src/trustaero/execution/compiler.py:361-364 | With a Mask's and a GeneralizeLocation's own parameters pushed first, the order is right for every plan |
| `CompilerCorrectness.CompiledPlanCorrect` | src/trustaero/execution/compiler.py:467-659 | On every database, the compiled statement with its parameters consumed left to right returns exactly the rows of the direct evaluator of the operator graph, for every aligned plan whose unique-scan searches find the real unique scan and whose latitude bands drop no joining pair |
| `CompilerCorrectness.CorrectedPlanCorrect` | src/trustaero/execution/compiler.py:467-712 | With both corrections the same holds for every acyclic plan that compiles, if its latitude bands drop no joining pair |
| `CompilerCorrectness.CompiledJoinExact` | src/trustaero/execution/compiler.py:256-275 | A plan with a spatial join as its output runs to its meaning if and only if the latitude band drops no pair within the distance, and returns too few rows otherwise |
| `CompiledMeaning.OnGlobeIsHarmless` | src/trustaero/execution/compiler.py:256-259 | The comment's claim where it holds: if every spatial join reads latitudes between -90 and 90, no band drops a pair |
| `CompiledMeaning.NoSpatialJoinIsHarmless` | src/trustaero/execution/compiler.py:256-259 | A plan without a spatial join needs nothing of its data or of the distance formula |
| `PolarJoin.PolarJoinExample` | src/trustaero/execution/compiler.py:256-259 | Where it fails: on every grid that puts the pole past itself, a generalised point and a raw one that are one point on the globe are dropped, for every distance shorter than twice the overhang |
| `Plan.GridStaysOnGlobe` | src/trustaero/execution/compiler.py:386-397 | GeneralizeLocation keeps all latitudes between -90 and 90 if and only if it keeps the pole there |
| `PolarJoin.OneDegreeGrid` | src/trustaero/execution/compiler.py:386-397 | A grid of one degree puts the pole at 90.5 |
| `CompilerCorrectness.MisboundText` | src/trustaero/execution/compiler.py:352-354 | A redact Mask above a filter: the filter's literal lands in the mask and the mask's token in the filter |
| `CompilerCorrectness.MisboundExample` | src/trustaero/execution/compiler.py:346-364 | On a one-row table that plan keeps and masks the row while its compiled statement returns nothing |
| `CompiledMeaning.OperatorMeaning` | src/trustaero/execution/compiler.py:176-437 | Each one-input SQL template, correctly bound, does to a relation what the operator means: three-valued filters, projections, masks, grids, aggregates, sorts, limits |
| `CompiledMeaning.SpatialJoinMeaning` | src/trustaero/execution/compiler.py:264-275 | The compiled join condition is true of exactly the pairs of points that are within the distance and within the latitude band |
| `CompiledMeaning.ResolvedMeaning` | src/trustaero/execution/compiler.py:467-659 | Correctly bound, the nested statement of a whole plan returns the rows of the direct evaluator, if its latitude bands drop no joining pair |
| `Plan.CentreIsNear` | src/trustaero/execution/compiler.py:386-397 | A generalised coordinate is within half a grid step of the raw one |
| `Plan.CellIsOneValue` | src/trustaero/execution/compiler.py:386-397 | Two coordinates are generalised alike if and only if they lie in one grid cell |
| `ScanAncestor.AncestorExact` | src/trustaero/execution/compiler.py:444-464 | The memoised unique-scan search answers the unique scan, or none because there are several, if and only if no ambiguous branch was dropped on the way |
| `ScanAncestor.DroppedBranchExample` | src/trustaero/execution/compiler.py:457-463 | For a join of a join of A and B with C it answers C although three tables are scanned |
| `MemoCompiler.SingleScanAncestor` | src/trustaero/execution/compiler.py:444-464 | The search with its memo returns what plain recursion returns, and leaves only right answers in the memo |
| `MemoCompiler.CompilerRun.CompileOperator` | src/trustaero/execution/compiler.py:467-659 | The memoised recursion returns the fragment of plain recursion and finishes each operator below exactly once, whatever the memo already holds |
| `MemoCompiler.CompileValidatedPlan` | src/trustaero/execution/compiler.py:682-712 | A missing output operator is refused; otherwise the plan compiles if and only if every operator below the output is one the backend can execute, an error names a fault one of them has, the fragment is that of plain recursion with every operator compiled once, and a storage boundary stores exactly the results of its operator |
| `Compilability.CompilesExactly` | src/trustaero/execution/compiler.py:467-659 | A plan compiles if and only if every scan is in the catalog and bound, every Mask names fields and a hash string ones, every GeneralizeLocation the one EPSG:4326 pair, every SpatialFilter has a scan with spatial metadata, every SpatialJoin is a distance join with a distance, every LineageCapture is at source level and there is no MinGroupSize; otherwise the error names a fault of one of its operators |
| `Compilability.OneKindOfFault` | src/trustaero/execution/compiler.py:467-659 | A plan with one kind of fault is refused with exactly that error |
| `Compilability.BoundaryStoresOperator` | src/trustaero/execution/compiler.py:649-657 | With a boundary after an operator, the statement stores that operator's own statement, once for each time the plan reaches it, and nothing else |
| `CompilerCorrectness.BoundaryOnlyWraps` | src/trustaero/execution/compiler.py:649-657 | The compiled statement with a storage boundary, unwrapped, is the statement without it, and both succeed or fail together |
| `CompilerCorrectness.BoundaryChangesNothing` | src/trustaero/execution/compiler.py:747-760 | Wherever the boundary is put, the parameters are the same and the same values give the same rows |
| `PlanRenaming.RenamedCompilesSame` | src/trustaero/execution/compiler.py:812-822 | An injective renaming of the operators changes neither statement text nor parameter values |
| `PlanRenaming.RenamedListCompilesSame` | src/trustaero/execution/compiler.py:440-441 | Nor does any reordering of the renamed operator list |
| `PlanRenaming.LabelsInjective` | experiments/blackbox_exp4/generate_cases.py:32-35 | The generated operator names differ for different operators |
| `PlanRenaming.RenameAndShuffle` | experiments/blackbox_exp4/generate_cases.py:30-42 | The in-place rewriting and shuffle yield exactly the renamed operators in some order; it raises exactly on an unknown name, never on a validated plan, and what it returns is again an acyclic plan that compiles to the same text and values |
| `PlanRenaming.ShuffledCompilesAlike` | experiments/blackbox_exp4/generate_cases.py:30-42 | Any order of the relabelled operators of a validated plan is an acyclic plan, and under any rank that witnesses it compiles to the same text and parameter values |
| `MaskPlacement.PlacementPreserves` | src/trustaero/planner/physical.py:187-280 | Moving an output Mask down a permitted path keeps rows and their order, unless the path takes a redaction below the optional side of a LEFT JOIN |
| `MaskPlacement.OuterRedactionExact` | src/trustaero/planner/physical.py:231-233 | Across such a LEFT JOIN the result is unchanged if and only if every left row has a partner, although the path rules permit it |
| `PlacementExamples.ChangingPlacement` | src/trustaero/planner/physical.py:231-233 | Such a plan with a left row without a partner: its statement returns the row redacted, the rewired statement returns it with NULL |
| `MaskPlacement.PlacementKeepsAlignment` | src/trustaero/planner/physical.py:187-280 | Moving a Mask down never puts parameters out of order that were in order before |
| `MaskPlacement.PlacedPlansRunAlike` | src/trustaero/execution/compiler.py:766-806 | As written: if the parameters of the original plan are in order (and its scans and latitude bands are), the rewired plan and the original compile to statements with the same result |
| `PlacementExamples.RepairingPlacement` | src/trustaero/execution/compiler.py:766-806 | Without that condition they may not: a plan whose parameters are misbound returns nothing, and its row once the Mask is moved onto the projection |
| `MaskPlacement.CorrectedPlansRunAlike` | src/trustaero/execution/compiler.py:766-806 | With the corrected parameter order the two statements have the same result without that condition |
| `SourceLineage.ScanSearch.Visit` | src/trustaero/execution/lineage.py:53-66 | From any search state, on any graph: visits what the operator reaches, records exactly the new scans, reports a reached unknown operator |
| `SourceLineage.ReachableScans` | src/trustaero/execution/lineage.py:44-69 | Terminates on every finite graph, cyclic or not, and returns exactly the reachable scans by increasing id; raises exactly when an unknown operator is reachable |
| `SourceLineage.ScansAreReached` | src/trustaero/execution/lineage.py:44-69 | On an acyclic plan the scans found are the scans of the unfolded plan |
| `SourceLineage.SourceLineageSound` | src/trustaero/execution/lineage.py:94-118 | Changing any table outside the captured datasets changes neither the target's evaluated rows nor the result of its compiled statement |
| `SourceLineage.CaptureSourceLineage` | src/trustaero/execution/lineage.py:72-118 | No requirement, no evidence; otherwise one edge per dataset each required target reaches, or an error exactly when some requirement cannot be met at source level |
| `RecordFragment.ReachableFragment` | src/trustaero/execution/record_lineage.py:296-327 | Returns exactly what the target reaches over the inputs of every operator, scans included; raises exactly when something reached is unknown or unsupported |
| `RecordFragment.IdentityContext` | src/trustaero/execution/record_lineage.py:330-367 | Succeeds exactly when all its demands hold together, and then locates every key column |
| `RecordFragment.GuardExact` | src/trustaero/execution/record_lineage.py:337-356 | On an acyclic plan the guard admits exactly the chains of supported operators over one scan of the dataset with no Mask on a key |
| `RecordIdentity.RecordIdentity` | src/trustaero/execution/record_lineage.py:33-42 | In an admitted fragment every output row is made from one source row, different output rows from different source rows, and no source row that survives on its own is missing |
| `RecordIdentity.SingleRow` | src/trustaero/execution/record_lineage.py:33-42 | What becomes of a row inside the fragment is what the fragment produces from a table holding that row alone |
| `RecordIdentity.KeyGuardExact` | src/trustaero/execution/record_lineage.py:349-356 | A key column still names its source value if and only if no GeneralizeLocation touches it; the guard looks at Mask only |
| `RecordIdentity.ResultKeysExact` | src/trustaero/execution/record_lineage.py:349-356 | On evaluated results: every output row carries the generalised key of its own source row, so two output rows share a key exactly when the generalisations merge the keys of their source rows |
| `RecordIdentity.KeySurvivesExact` | src/trustaero/execution/record_lineage.py:349-356 | In a fragment that filters nothing, a key that identifies the source identifies the result on every database if and only if no GeneralizeLocation touches it |
| `RecordIdentity.GeneralisedKeyExample` | src/trustaero/execution/record_lineage.py:349-356 | An admitted fragment that gives two source rows with different keys the same key |
| `RecordIdentity.KeysNameSources` | src/trustaero/execution/record_lineage.py:330-367 | With untouched keys every output row carries the key of its own source row, and keys that identify source rows identify result rows |
| `RecordLineageMeaning.EdgesNameSources` | src/trustaero/execution/record_lineage.py:386-424 | Then a capture never fails on its rows, and the key it hashes for a row is that of the source row the row was made from |
| `RecordLineageMeaning.StoredEdge` | src/trustaero/execution/record_lineage.py:503-505 | Bytes 64i to 64i+31 of the compact artifact are the output digest of row i and the next 32 its source digest; the sorted V1 artifact holds the edge with the same two identities |
| `RecordEvidence.KeysExact` | src/trustaero/execution/record_lineage.py:385-403 | Rows have keys exactly when every row is wide enough, no key holds NULL and no key repeats |
| `RecordLineageV1.DeriveArtifact` | src/trustaero/execution/record_lineage.py:370-436 | The loop returns the specified artifact or the first error in the order of the checks; the artifact names the run, plan, target, row count and, on every edge, the source |
| `RecordLineageV1.EdgeBinds` | src/trustaero/execution/record_lineage.py:408-423 | One source identity means one dataset, snapshot, list of key columns and printed key, one output identity one result and one printed key; or a collision is exhibited |
| `RecordLineageV1.EvidenceBindsEdges` | src/trustaero/execution/record_lineage.py:435-435 | One digest in the evidence means the same edges in the same order, or an exhibited collision |
| `RecordLineageV1.SortedInOrder` | src/trustaero/execution/record_lineage.py:426-426 | Sorting keeps the edges and puts them in order of their output record |
| `RecordLineageV1.Verify` | src/trustaero/execution/record_lineage.py:919-970 | No diagnostic if and only if the rows reproduce the artifact and the summary is its own |
| `RecordLineageV1.CaptureVerifies` | src/trustaero/execution/record_lineage.py:515-547 | A captured V1 artifact verifies against its own rows |
| `RecordLineageV1.DependsOnKeySet` | src/trustaero/execution/record_lineage.py:426-436 | Two results with the same set of keys have the identical artifact, or two keys of the result are an exhibited collision |
| `RecordLineageV1.AnyOrderVerifies` | src/trustaero/execution/record_lineage.py:930-956 | Any permutation of the rows verifies against the artifact too, or a collision is exhibited |
| `RecordLineageV1.ArtifactFixesTexts` | src/trustaero/execution/record_lineage.py:386-436 | Results with one artifact print the same keys, or a source collision between them is exhibited |
| `RecordLineageV1.TextsAreAll` | src/trustaero/execution/record_lineage.py:45-52 | Nothing finer than the printed keys is fixed: keys of different types that print alike share an artifact |
| `RecordLineageV1.TypesShareArtifact` | src/trustaero/execution/record_lineage.py:45-52 | Every accepted row whose key holds a datetime and the row with the text of its stamp instead have different keys, one artifact and one evidence, and each verifies against them |
| `RecordLineageV2.DeriveArtifact` | src/trustaero/execution/record_lineage.py:439-512 | The loop returns the specified 64-byte blocks in row order, or the first error; the header names the run, plan, target, source and row count |
| `RecordLineageV2.SourceBinds` | src/trustaero/execution/record_lineage.py:455-498 | One source identity means one dataset, snapshot, list of key columns and typed key, or a collision is exhibited |
| `RecordLineageV2.OutputBinds` | src/trustaero/execution/record_lineage.py:466-497 | One output identity means one result and one typed key, or a collision is exhibited |
| `RecordLineageV2.EvidenceBindsEdges` | src/trustaero/execution/record_lineage.py:511-511 | One digest in the evidence means the same edge bytes, or an exhibited collision |
| `RecordLineageV2.Verify` | src/trustaero/execution/record_lineage.py:973-1024 | No diagnostic if and only if the rows reproduce the bytes and the summary is the artifact's own |
| `RecordLineageV2.CaptureVerifies` | src/trustaero/execution/record_lineage.py:550-583 | A captured V2 artifact verifies against its own rows |
| `RecordLineageV2.VerifierSound` | src/trustaero/execution/record_lineage.py:973-1024 | Two results that verify against one artifact have, row by row, keys of the same types and texts, and the same keys if texts tell values of one type apart; or a collision at some row is exhibited |
| `RecordEvidence.PayloadParses` | src/trustaero/execution/record_lineage.py:150-156 | The length-prefixed payload parses back to the same header and edge bytes |
| `RecordLineageV2.PayloadBindsArtifact` | src/trustaero/execution/record_lineage.py:150-156 | Equal payloads come from equal artifacts, field by field |
| `RecordLineageV4.DatabaseAgrees` | src/trustaero/execution/record_lineage.py:700-703 | The digest computed inside the query is the digest the checker computes |
| `RecordLineageV4.PayloadsDiffer` | src/trustaero/execution/record_lineage.py:700-703 | The length prefix keeps keys apart: different keys are hashed from different bytes |
| `RecordLineageV4.IdentityBinds` | src/trustaero/execution/record_lineage.py:686-703 | One identity means one dataset, snapshot, list of key columns and key, although the key follows the prefix without a separator; or a collision is exhibited |
| `RecordLineageV4.EvidenceBindsIds` | src/trustaero/execution/record_lineage.py:898-898 | One digest in the evidence means the same identities in the same order, or an exhibited collision |
| `RecordLineageV4.Capture` | src/trustaero/execution/record_lineage.py:820-912 | Succeeds exactly for one string key with wide enough rows and distinct 32-byte identities, and stores them in row order under a header that names the run, the digest of the visible result, plan, target, source and row count |
| `RecordLineageV4.Verify` | src/trustaero/execution/record_lineage.py:1114-1203 | No diagnostic if and only if the rows are the bound result and their keys in order give the stored identities |
| `RecordLineageV4.CaptureVerifies` | src/trustaero/execution/record_lineage.py:866-897 | A captured V4 artifact verifies against its own visible rows |
| `RecordLineageV4.VerifierSound` | src/trustaero/execution/record_lineage.py:1138-1180 | Two results that verify against one artifact show the same text in every cell and have the same keys in order; each exception is an exhibited collision |
| `RecordLineageV4.ReorderingRejected` | src/trustaero/execution/record_lineage.py:1138-1180 | Every change of the order of the rows is rejected, or two keys at one ordinal are an exhibited collision |
| `GovernedPipelines.CandidatesAgree` | src/trustaero/experiments/governed_pipeline_execution.py:71-172 | Each of the four candidates returns the specified rows on every database, however the database orders its temporary tables |
| `GovernedPipelines.GovernedShows` | src/trustaero/experiments/governed_pipeline_execution.py:83-93 | The governed rows, one by one: each shows an event within both cutoffs beside a dimension row with its key, of the sensitive value its md5 only, and every such pair is shown |
| `GovernedPipelines.SensitiveValuesConcealed` | src/trustaero/experiments/governed_pipeline_execution.py:83-93 | Two lists of events that differ only in sensitive values with equal hash, both text with equal md5 or neither text, have the same governed rows |
| `GovernedPipelines.GovernedInOrder` | src/trustaero/experiments/governed_pipeline_execution.py:93-93 | With numeric ids the sorted result is ordered by row_id, then by dimension_key |
| `GovernedPipelines.SortedResultsEqual` | src/trustaero/experiments/governed_pipeline_execution.py:88-96 | With identifying row_id and dimension_key two sorted results are one and the same sequence |
| `GovernedPipelines.EdgesNameSources` | src/trustaero/experiments/governed_pipeline_execution.py:225-227 | Every lineage edge names an admitted event and a dimension row it joins |
| `PipelineRunners.Connection.DropAll` | src/trustaero/experiments/governed_pipeline_execution.py:175-180 | Dropping a candidate's tables, last first, removes exactly those |
| `PipelineRunners.Connection.Execute` | src/trustaero/experiments/governed_pipeline_execution.py:212-238 | From any leftover temporary tables the candidate succeeds, returns the governed rows in order, and leaves its own tables dropped and all others as they were. A row is returned if and only if it shows the ids of an event within both cutoffs and of a dimension row with its key, with the md5 of the event's sensitive text; events that differ in sensitive values of one hash and one md5 give the same rows |
| `PipelineRunners.Connection.ExecuteTimed` | src/trustaero/experiments/governed_pipeline_admission.py:325-376 | The same for the timed runner, which also stores and reads back the output and drops every candidate's tables |
| `PipelineRunners.Connection.RunAll` | src/trustaero/experiments/governed_pipeline_admission.py:338-376 | Any candidates through either runner, in any order and any number of times, return one and the same sequence of rows and lineage edges, ordered by row_id and then dimension_key, with the same statements about what they show and conceal, and leave the base tables alone |
| `PhaseTwo.Compile` | src/trustaero/experiments/physical_sql.py:124-207 | Raises exactly on the strategies that are not served; for every other one the statement may return exactly the specified rows in an order of their event ids, on every database; a row is returned if and only if it pairs the id, hashed if masked, of an event within window, distance and policy with the severity label of its key |
| `PhaseTwo.OrderedThrough` | src/trustaero/experiments/physical_sql.py:157-177 | Filters one stage after the other are one filter by all of them, in any order |
| `PhaseTwo.EveryStrategyAgrees` | src/trustaero/experiments/physical_sql.py:78-207 | Under every accepted strategy, masked or not, the results the database may return are exactly the specified multiset of rows sorted by event id; so no projection drops a column still needed |
| `TpchBuild.Preparation.Run` | src/trustaero/data/tpch.py:175-339 | One run that dies after any number of disk effects leaves the disk that many effects of the specified steps leave; one that reports success by publishing leaves a database of one commit with every partition once, and a manifest with the scale, the fingerprint of that file, the expected row counts and the commit; one that reuses changes nothing |
| `TpchBuild.CountsAreExact` | src/trustaero/data/tpch.py:159-172 | When no partition is missing, the eight row counts match if and only if every partition is there exactly once |
| `TpchBuild.NextKeeps` | src/trustaero/data/tpch.py:239-307 | Every single disk effect keeps the build sound, so a crash after it does too |
| `TpchBuild.EveryHistoryIsSound` | src/trustaero/data/tpch.py:84-307 | After any history of runs, crashes and commit changes: an accepted sidecar saying k stands beside partitions 0 to k-1 at least once and none above k, all of its commit, and anything published holds each of the eight partitions exactly once |
| `TpchBuild.EveryMixedHistoryIsSound` | src/trustaero/data/tpch.py:203-205 | The same for every scale after any history that also changes the scale between runs |
| `TpchBuild.ScalesAreSeparate` | src/trustaero/data/tpch.py:203-205 | The files of a scale depend on the runs at that scale only |
| `TpchBuild.PublishesExactly` | src/trustaero/data/tpch.py:266-307 | An uninterrupted run ends with a valid database if and only if one is there to reuse or the resumed build holds the recorded partitions once each and nothing else |
| `TpchBuild.OutcomeExact` | src/trustaero/data/tpch.py:219-339 | An uninterrupted run ends by reusing if and only if file and manifest are there and the manifest names this scale, this file and the expected row counts; after one that ends by publishing, every later run under any commit reuses and changes nothing |
| `TpchBuild.CrashWindowExact` | src/trustaero/data/tpch.py:279-291 | A crash of a run in good order leaves a stuck build if and only if it falls between the database committing a partition after the first and the sidecar recording it |
| `TpchBuild.StuckForever` | src/trustaero/data/tpch.py:279-291 | No number of reruns under the same commit ever gets a stuck build published |
| `TpchBuild.OtherCommitRecovers` | src/trustaero/data/tpch.py:99-116 | A run under another commit discards a stuck build and publishes |
| `TpchBuild.WindowReached` | src/trustaero/data/tpch.py:279-291 | A first run that dies after its fifth effect leaves a stuck build |
| `Scheduling.TopologicalOperators` | src/trustaero/experiments/multisource_case_study.py:230-255 | Terminates with every operator once and after all its inputs, layer by layer in order of ids; raises if and only if no such order exists |
| `Scheduling.LayersUnique` | src/trustaero/experiments/multisource_case_study.py:230-255 | There is only one such order by layers |
| `CertificateLog.CertificateEvents` | src/trustaero/experiments/multisource_case_study.py:258-292 | The running counter numbers the specified events 0, 1, 2, ... |
| `CertificateLog.LogAccepted` | src/trustaero/validator/certificate_events.py:46-198 | The log of a schedule has contiguous sequence numbers and passes the coverage and dependency checks |
| `CertificateLog.TamperedEvents` | src/trustaero/experiments/multisource_case_study.py:318-342 | Exchanges the start of an operator with the completion of its input; raises exactly when no operator has an input |
| `CertificateLog.TamperedRejected` | src/trustaero/validator/physical_dag.py:143-177 | The tampered log keeps contiguous sequence numbers and passes the coverage check, and the dependency check always rejects it |
| `CertificateLog.ExchangeExact` | src/trustaero/validator/certificate_events.py:46-198 | Exchanging any two events of the log: coverage and dependency check each accept the result if and only if the events they compare are still in order |
| `CertificateLog.DroppedExact` | src/trustaero/validator/certificate_events.py:46-198 | Leaving one event out is noticed by the coverage check, unless it is the policy decision or the result |
| `CarryoverDesign.ColumnsOnce` | src/trustaero/experiments/execution_flow_audit.py:716-719 | For an even size the column order 0, 1, n-1, 2, n-2, ... holds every value once |
| `CarryoverDesign.GapsOnce` | src/trustaero/experiments/execution_flow_audit.py:716-719 | For an even size every nonzero modular difference occurs between neighbours of that order exactly once |
| `CarryoverDesign.OddSizeRepeatsGap` | src/trustaero/experiments/execution_flow_audit.py:706-710 | The barrier is needed: with three symbols one difference would occur twice |
| `CarryoverDesign.BlockBalanced` | src/trustaero/experiments/execution_flow_audit.py:721-729 | For every outcome of the shuffles a block has each symbol once per row, once per position, and each ordered pair of different symbols adjacent exactly once |
| `CarryoverDesign.BalancedOrders` | src/trustaero/experiments/execution_flow_audit.py:694-730 | Raises exactly for no candidates or rounds that are no multiple of the padded size; otherwise the result is whole balanced blocks of the padded candidates |
| `CarryoverDesign.DesignBalanced` | src/trustaero/experiments/execution_flow_audit.py:90-98 | Over the permitted rounds each candidate stands rounds/n times at every position and directly follows each other candidate rounds/n times |
| `CarryoverDesign.RotationsKeepPredecessor` | src/trustaero/experiments/execution_flow_audit.py:678-688 | Plain rotations give a candidate the same predecessor in every row |
| `AnalyticFit.ColumnMinimised` | src/trustaero/experiments/execution_aware_calibration.py:124-137 | The column update is the exact minimiser of the ridge objective over all non-negative weights for that column, with or without a ridge |
| `AnalyticFit.InterceptMinimised` | src/trustaero/experiments/execution_aware_calibration.py:113-120 | The intercept update is the exact minimiser over all non-negative intercepts |
| `CoordinateDescent.UpdateColumn` | src/trustaero/experiments/execution_aware_calibration.py:124-137 | The maintained predictions stay intercept plus X w, the weight non-negative, and no other weight does better |
| `CoordinateDescent.Sweep` | src/trustaero/experiments/execution_aware_calibration.py:111-136 | A sweep goes to the specified point, never raises the objective, lowers it if it changes anything (each column having work or a ridge), and if it changes nothing the point is stationary |
| `CoordinateDescent.LastColumnLeast` | src/trustaero/experiments/execution_aware_calibration.py:122-136 | After one sweep or more no other non-negative weight of the last column lowers the objective |
| `CoordinateDescent.BelowTheStart` | src/trustaero/experiments/execution_aware_calibration.py:104-149 | After one sweep or more, each column having work or a ridge, the objective is strictly below that of the starting constant unless that is stationary |
| `CoordinateDescent.Descend` | src/trustaero/experiments/execution_aware_calibration.py:104-149 | Returns the point after as many sweeps as it counts: the first at which the objective changed by at most tolerance * max(1, previous), and then `converged`, or the last allowed |
| `AnalyticOptimality.StationaryIsOptimal` | src/trustaero/experiments/execution_aware_calibration.py:110-149 | A stationary point has the least objective of all non-negative intercepts and weights |
| `CoordinateDescent.UnscaledPredicts` | src/trustaero/experiments/execution_aware_calibration.py:150-153 | Unscaled coefficients on raw features weigh as the weights on scaled ones |
| `CostFitting.ScaledToOne` | src/trustaero/experiments/execution_aware_calibration.py:97-103 | With an exact square root every scaled feature has root mean square one, or no work anywhere and scale one |
| `CostFitting.FitCost` | src/trustaero/experiments/execution_aware_calibration.py:78-160 | Raises on exactly the inputs it names. Otherwise, of the returned coefficients and the observations: they are non-negative and predict the maintained values on the training rows; no other non-negative last coefficient lowers the ridge objective; the objective is strictly below that of the constant the loop starts from unless no non-negative fit is below it; and `converged` holds if and only if the last sweep changed the objective by at most the tolerance, no earlier one did, and otherwise the maximum was reached |
| `CostSelection.PracticalNonEmpty` | src/trustaero/experiments/execution_aware_calibration.py:227-231 | The practical set is non-empty if and only if best times tie fraction is not negative |
| `CostSelection.PracticalAlways` | src/trustaero/experiments/execution_aware_calibration.py:58-62 | Non-negative coefficients, features and tie fraction make it non-empty |
| `CostSelection.EvaluateGroup` | src/trustaero/experiments/execution_aware_calibration.py:222-258 | The stable preference if it is practical, else the least practical candidate, judged by true latencies; raises exactly for fewer than two candidates or an empty practical set; and if intercept plus weighted features is within a factor 1 plus or minus e of every latency, the reported regret is at most (1+tie)(1+e)/(1-e) - 1 |
| `CostSelection.LastCounts` | src/trustaero/experiments/execution_aware_calibration.py:226-239 | Under each id the prediction is intercept plus weighted features of the last candidate with that id, and the truth its latency |
| `CostSelection.SelectionRegret` | src/trustaero/experiments/execution_aware_calibration.py:226-237 | If every prediction is within a factor 1 plus or minus e, the selection is at most (1+tie)(1+e)/(1-e) times slower than any candidate |
| `CostSelection.RegretTight` | src/trustaero/experiments/execution_aware_calibration.py:226-237 | Two candidates reach that bound, by way of the stable preference |
| `Dominance.UndominatedSet` | src/trustaero/experiments/execution_aware_oracle_stability.py:115-130 | Returns the undominated candidates in order; raises exactly when every candidate is dominated |
| `Dominance.DominanceSound` | src/trustaero/experiments/execution_aware_oracle_stability.py:103-130 | With covering intervals the set is non-empty, keeps every fastest candidate, and each removed one is more than 1+tie times slower than a survivor |
| `Dominance.EmptySetHasCycle` | src/trustaero/experiments/execution_aware_oracle_stability.py:128-129 | With no assumption at all, an empty set means a cycle of materially-faster verdicts |
| `Bootstrap.PercentileMonotone` | src/trustaero/experiments/execution_flow_inference.py:29-39 | The interpolated percentile never falls when its level rises |
| `Bootstrap.Percentile` | src/trustaero/experiments/execution_flow_inference.py:29-39 | The value at a fractional position of the values in order, on the straight line between its neighbours |
| `Bootstrap.CountsAround` | src/trustaero/experiments/execution_flow_inference.py:29-39 | At least floor(position) + 1 of the values are at or below it and at least n - ceil(position) at or above it |
| `Bootstrap.HierarchicalInterval` | src/trustaero/experiments/execution_flow_inference.py:49-92 | For every generator: exactly as many estimates as repetitions, each the exponential of the median of one draw of as many seeds as there are and as many rounds of each as it has, by consecutive calls; the ends are the interpolated values at (1 - level)/2 and (1 + level)/2 of the estimates in order, with the promised number of estimates on either side of each, and within the range of the ratios; the observed value is the exponential of the median of all log ratios; each error exactly on the inputs it names |
| `Bootstrap.AlwaysSlower` | src/trustaero/experiments/execution_aware_oracle_stability.py:103-112 | When every ratio exceeds 1+tie the verdict is left-slower whatever was drawn |
| `Bootstrap.AlwaysFaster` | src/trustaero/experiments/execution_aware_oracle_stability.py:103-112 | When every ratio is below 1/(1+tie) it is left-faster |
| `Bootstrap.NeverDominant` | src/trustaero/experiments/execution_aware_oracle_stability.py:103-112 | When all ratios lie in the tie band no dominance is authorised |
| `Penalty.SelectSoft` | src/trustaero/experiments/hard_vs_soft_legality_exp2.py:45-63 | The candidate with the least penalised prediction, ties by id; the errors exactly |
| `Penalty.MinimumStrictPenalty` | src/trustaero/experiments/hard_vs_soft_legality_exp2.py:66-78 | How far the best illegal candidate undercuts the best legal one, or zero |
| `Penalty.ThresholdExact` | src/trustaero/experiments/hard_vs_soft_legality_exp2.py:66-78 | Off the threshold itself the soft choice is legal if and only if the penalty is above it, and then it is the hard legality-first choice |
| `Penalty.NoPenaltySuffices` | src/trustaero/experiments/hard_vs_soft_legality_exp2.py:45-63 | For every finite penalty some instance selects an illegal candidate |

## Left out

- SQL text quoting, operator precedence and `EXPLAIN` observation: the printed text is a token sequence.
- The type checker, policy evaluator and certificate checks other than event coverage and dependencies: they appear as preconditions.
- `validate_physical_plan_dag` (`src/trustaero/validator/physical_dag.py:59-140`): the log checks are stated for a plan that already is a schedulable graph.
- Graph bookkeeping of Mask placement and of `compile_approved_physical_plan` (consumer lists, physical ids, digests): both plans are given as graphs, and their unfolded trees are compared.
- PlacementPreserves: one direction only over a whole path, since a later join may drop the padded rows again; the exact condition is stated for the join itself.
- CompiledPlanCorrect: one direction only, because misbound parameters may happen to hold equal values and rows lost to a latitude band may be dropped by a later filter anyway; the order of the parameters is characterised exactly in ParameterOrderExact, a spatial join at the output in CompiledJoinExact.
- Aggregates over an empty input, the order of groups and the order of join results follow the one choice `Sql` and `Plan` share; a database free to order unsorted rows differently is modelled only for the candidate pipelines.
- Decimal and floating-point rounding, NaN and infinities: numbers are reals. The first comparison of the stopping rule, against infinity, is the `None` of `previous`.
- The digests over source-lineage edges and their sorting: edges are a set.
- The V3 encoding of record lineage, whose loop and checks repeat those of V2 and V4.
- `output_field_ids`, latencies, plan-level lineage requirements and evidence levels other than the ones compared by the verifiers.
- Crashes inside one database transaction, the write-ahead file beside the build, manifest fields other than scale, fingerprint, row counts and commit, free-space and git checks.
- PublishesExactly: the extension install and version queries may also fail; only the outcome of validation is modelled.
- `_orders` of the admission experiment and the config loaders: fixed permutations and constants.
- The grouping of observations into scenarios, nested selection of the ridge and cross-validation folds: one group is evaluated.
- KeyGuardExact: speaks of the values of a column; for evaluated results the exact condition is ResultKeysExact, and on plans KeySurvivesExact, the latter for fragments without filters, since a filter may drop one of two merged rows.
- IdentityContext: the target operator is given; that the plan has exactly one record-level requirement with one matching instrumentation is not modelled.
- CaptureSourceLineage: edges form a set, without digests or sorting.
- FitCost: how far above the least objective the tolerance lets the loop stop is not stated, since the code promises no bound.
- TypesShareArtifact: one-row results; results with more rows may share an artifact in the same way.
- ThresholdExact: says nothing at the threshold itself, where the candidate ids decide.
- Stationarity after finitely many sweeps: the loop may stop by its tolerance before it is stationary.
- Downloads, archive and Parquet preparation, plotting, reports, Docker and PostgreSQL.
